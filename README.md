# igreja-app: a Dafny model of the church site's logic

The church site (a Next.js application over Firestore) is mostly forms and
database calls. Beneath them are small pieces of sequential logic, and this
project models those pieces and proves what they promise:

- **Slideshow viewer** (`Slideshow`): a cyclic slide index, moved by buttons
  and arrow keys, that always stays inside the deck.
- **Bible navigator** (`Bible`, `BibleNavigator`):
  - the book data with its metadata entry dropped;
  - URL slugs, made by lower-casing, dropping the accents and dropping the
    spaces;
  - the testament lists;
  - lookup of a book by its slug;
  - the books → chapters → verses screens;
  - the 1-based verse lookup that opens the presentation tab.
- **Finance ledger** (`Finance`):
  - validation of an entry and the payload it writes;
  - the loop that totals income and expenses and derives the balance.
- **Member registry** and **events** (`Members`, `Events`):
  - the initial forms;
  - field updates;
  - the required-field checks;
  - the payloads without `foto`/`id`;
  - the "Não informado" fallback of the member detail view.
- **Hymnal** (`Hymns`, `HarpaLib`, `HarpaProjector`, `HymnSearch`):
  - the hymn entries turned into hymns (number, title without its
    "N - " prefix, chorus, stanzas);
  - lookup of a hymn by number;
  - the two hymn-number forms, each with its own guard for 1..640.
- **Admin frame** (`AdminLayout`): the page title resolved from the current
  path, and the selected menu item.

The JavaScript semantics the code relies on are written out in helper modules:

- `JsText`: the whitespace of `\s` and `trim` (`IsSpace`: the WhiteSpace and
  LineTerminator characters of ECMAScript), `startsWith`, `includes`, and
  the decimal rendering of integers in template literals.
- `JsNumber`:
  - `parseInt(s, 10)`, `parseFloat` and `Number(s)` on text, with NaN
    explicit;
  - `%`, which truncates towards zero.
- `JsRecord`: form objects as maps from field names to values, with
  truthiness, `{ ...r, [name]: value }` and `const { x, ...rest } = r`.
- `Seqs`: `filter` and `find`.

Effects are returned values:
- `alert`, `window.open` and `router.push` are `Effect`s or alert texts.
- A Firestore write is the `SaveOutcome` the page would issue: `Rejected` with
  its alert, `Added` with its payload, `Updated` with the document id and its
  payload, or `Crashed` when the code would throw.
- Whether the database accepted a write is a boolean parameter.

Pages whose handlers update React state are classes; their handlers are
methods. Each state-changing handler states its whole new state. Validation
and payload construction are functions, and the lemmas relate them.

## Model

| member | source | states |
|---|---|---|
| Slideshow.NextIndex | src/components/LayoutContent.tsx:65-69 | with slides, the last index wraps to 0 and any other valid index goes up by one; any non-negative index lands in 0..n-1; with no slides the index is unchanged |
| Slideshow.PrevIndex | src/components/LayoutContent.tsx:71-75 | with slides, index 0 wraps to n-1 and any other valid index goes down by one; any non-negative index lands in 0..n-1; with no slides the index is unchanged |
| Slideshow.NextPrevInverse | src/components/LayoutContent.tsx:65-75 | next then previous, and previous then next, return to the starting slide |
| Slideshow.SlideshowPage.constructor | src/components/LayoutContent.tsx:20-23 | the first render has no slides, index 0, an empty title, and is loading |
| Slideshow.SlideshowPage.FinishLoading | src/components/LayoutContent.tsx:33-44 | a found document sets the title and `slides \|\| []`; a missing one changes neither; loading stops either way; the index is kept, so it is in range exactly when the deck is empty or long enough |
| Slideshow.SlideshowPage.Next | src/components/LayoutContent.tsx:65-69 | the index becomes NextIndex of the old index over the deck's length, and stays in range |
| Slideshow.SlideshowPage.Prev | src/components/LayoutContent.tsx:71-75 | the index becomes PrevIndex of the old index over the deck's length, and stays in range |
| Slideshow.SlideshowPage.KeyDown | src/components/LayoutContent.tsx:52-58 | ArrowRight moves forward, ArrowLeft moves back, any other key leaves the index alone |
| Slideshow.SlideshowPage.View | src/components/LayoutContent.tsx:83-110 | a spinner exactly while loading; the title alone for an empty deck; otherwise the current slide's image with the counter current + 1 over n, which lies in 1..n |
| Bible.Decompose | src/lib/bible.ts:30 | NFD of a letter is the letter itself, or, for a Latin-1 letter U+00E0–U+00FF, a lower-case ASCII letter followed by one combining mark |
| Bible.LowerChar | src/lib/bible.ts:29 | lower-casing a character keeps whitespace as whitespace and marks as marks |
| Bible.Nfd | src/lib/bible.ts:30 | NFD never shortens a text |
| Bible.Lower | src/lib/bible.ts:29 | lower-casing keeps the length and maps each character separately |
| Bible.LowerCharIdempotent | src/lib/bible.ts:29 | lower-casing a lower-cased character changes nothing |
| Bible.DecomposeSettles | src/lib/bible.ts:30 | the decomposition of a lower-case character holds only combining marks, spaces and characters that neither case mapping nor NFD changes |
| Bible.NfdSettles | src/lib/bible.ts:29-30 | after lower-casing, NFD leaves only combining marks, spaces and characters that neither case mapping nor NFD changes |
| Bible.NormalizeSlug | src/lib/bible.ts:26-33 | the empty name gives the empty slug; a slug holds no whitespace, no combining mark U+0300–U+036F, and only characters that lower-casing and NFD leave alone |
| Bible.SettledSlug | src/lib/bible.ts:28-32 | a text that is already lower-case, decomposed, and free of spaces and marks is its own slug |
| Bible.NormalizeSlugIdempotent | src/lib/bible.ts:26-33 | normalising a slug again gives the same slug |
| Bible.LowerAppend | src/lib/bible.ts:29 | lower-casing a joined text lower-cases each part |
| Bible.NfdAppend | src/lib/bible.ts:30 | NFD of a joined text is the NFD of each part, joined |
| Bible.NormalizeSlugAppend | src/lib/bible.ts:26-33 | the slug of a joined name is the slugs of its parts, joined |
| Bible.SlugOfChar | src/lib/bible.ts:26-33 | one whitespace character or combining mark gives the empty slug; any other character gives the base letter of its lower case, which is the character itself when it has no case and no accent |
| Bible.SlugDropsSpace | src/lib/bible.ts:32 | whitespace anywhere in a name does not change its slug |
| Bible.SlugDropsAccent | src/lib/bible.ts:30-31 | an accented Latin-1 letter has the slug of its base letter |
| Bible.SlugIgnoresCase | src/lib/bible.ts:29 | lower-casing a name first does not change its slug |
| Bible.ExodoSlug | src/lib/bible.ts:28-32 | "Êxodo" and "êxodo" both get the slug "exodo" |
| Bible.BibleData | src/lib/bible.ts:39 | a book is kept exactly when it is in the data and its id is not "0" |
| Bible.BibleDataSplit | src/lib/bible.ts:39 | dropping the metadata entry keeps the books before and after it, in order |
| Bible.FullBible | src/lib/bible.ts:44-51 | one entry per kept book, in order, each with all of the book's fields and slug = normalizeSlug(nome) |
| Bible.Refs | src/lib/bible.ts:59 | one {nome, slug} per book, in order, with the book's name and its slug |
| Bible.BookList | src/lib/bible.ts:54-66 | each list has one entry per kept book of its testament, and every entry is the name and slug of a kept book whose period contains "Antigo" (or "Novo") |
| Bible.RefsFrom | src/lib/bible.ts:59 | each reference is the name and slug of one of the books |
| Bible.BookListComplete | src/lib/bible.ts:54-66 | every kept book whose period contains "Antigo" (or "Novo") appears in that list under its name and slug |
| Bible.BookListKeepsOrder | src/lib/bible.ts:54-66 | the lists keep file order: the books of a first part of the file come before those of a second |
| Bible.GetBook | src/lib/bible.ts:69-72 | The found book is a kept book with the asked slug, and nothing is found exactly when no kept book has that slug. |
| Bible.GetBookFirst | src/lib/bible.ts:71 | a book whose slug no earlier book shares is the one found by that slug |
| Bible.FullBibleSlugsResolve | src/lib/bible.ts:47-71 | every slug of the full Bible finds a book with that slug |
| Bible.BookListSlugsResolve | src/lib/bible.ts:57-71 | every slug of the testament lists finds a book, and belongs to a kept book of that name |
| BibleNavigator.NumbersUpTo | src/app/biblia/BiblePageClient.tsx:70 | `Array.from({length}, (_, i) => i + 1)` has that length, holds exactly 1..length, and is increasing |
| BibleNavigator.ChapterVerses | src/app/biblia/BiblePageClient.tsx:43 | chapter c exists exactly when 1 <= c <= the chapter count, and then it is `capitulos[c-1]` |
| BibleNavigator.ChapterNumbers | src/app/biblia/BiblePageClient.tsx:99-100 | the chapter buttons are exactly the numbers of existing chapters |
| BibleNavigator.VerseNumbers | src/app/biblia/BiblePageClient.tsx:68-70 | the verse buttons are exactly 1..the verse count of the chapter, and none when the chapter is missing |
| BibleNavigator.PresentationPath | src/app/biblia/BiblePageClient.tsx:54 | the path is "/apresentacao/biblia/", the abbreviation, "/", the chapter's decimal form, "/" and the verse's decimal form, so it starts with the book's prefix |
| BibleNavigator.PresentationPathReadsBack | src/app/biblia/BiblePageClient.tsx:54 | after the book's prefix, `parseInt` reads the chapter back, a "/" follows it, `parseInt` then reads the verse back, and nothing follows the verse |
| BibleNavigator.ClickVerse | src/app/biblia/BiblePageClient.tsx:38-60 | ignored without a book and a chapter; a crash when the chapter is missing, or when the verse exists but no `onVerseSelect` was passed; the verse is presented exactly when chapter and verse exist and the callback was passed, with content `capitulos[c-1][v-1]` and the presentation path; otherwise "not found" |
| BibleNavigator.ShownButtonsPresent | src/app/biblia/BiblePageClient.tsx:68-100 | with `onVerseSelect` passed, every verse button of every chapter button presents its own verse |
| BibleNavigator.ShownButtonsCrashWithoutCallback | src/app/culto/WorshipPanelClient.tsx:40 | without `onVerseSelect`, as the worship panel renders the page, every verse button throws and opens no tab |
| BibleNavigator.OldTestament | src/app/biblia/BiblePageClient.tsx:23 | a book is listed exactly when its period contains "Antigo" |
| BibleNavigator.NewTestament | src/app/biblia/BiblePageClient.tsx:24 | a book is listed exactly when its period contains "Novo" |
| BibleNavigator.TestamentsKeepOrder | src/app/biblia/BiblePageClient.tsx:23-24 | both lists keep the order of the books |
| BibleNavigator.BiblePage.constructor | src/app/biblia/BiblePageClient.tsx:18-21 | the navigator starts on the book screen with nothing selected, and records whether `onVerseSelect` was passed |
| BibleNavigator.BiblePage.ClickBook | src/app/biblia/BiblePageClient.tsx:28-31 | the book is recorded and the view moves to the chapters |
| BibleNavigator.BiblePage.ClickChapter | src/app/biblia/BiblePageClient.tsx:33-36 | the chapter number is recorded and the view moves to the verses, with the book kept |
| BibleNavigator.BiblePage.BackToChapters | src/app/biblia/BiblePageClient.tsx:74 | back from the verses shows the chapters and keeps the book |
| BibleNavigator.BiblePage.BackToBooks | src/app/biblia/BiblePageClient.tsx:104 | back from the chapters shows the books and clears the book |
| BibleNavigator.BiblePage.VerseClick | src/app/biblia/BiblePageClient.tsx:38-60 | a verse click on the page is ClickVerse of its selection, and is never ignored on a consistent verses screen |
| BibleNavigator.BiblePage.Render | src/app/biblia/BiblePageClient.tsx:65-163 | the verse grid exactly when on the verses view with a book and chapter; the chapter grid exactly when on the chapters view with a book; otherwise the two testament lists |
| BibleNavigator.PickVerse | src/app/biblia/BiblePageClient.tsx:28-60 | choosing a book, one of its chapter buttons and one of its verse buttons presents that verse when the page has `onVerseSelect`, and throws when it has none |
| Finance.InitialEntry | src/app/admin/financas/page.tsx:22-28 | a fresh entry is an income with empty category, description and amount, dated today |
| Finance.PositiveAmount | src/app/admin/financas/page.tsx:77-81 | an amount exists exactly when `parseFloat(valor)` is a number above 0, and it is that number |
| Finance.FilledRequired | src/app/admin/financas/page.tsx:73 | the required-field test is the truthiness of categoria, valor and descricao |
| Finance.AddPayload | src/app/admin/financas/page.tsx:90 | the new entry's payload is the form with valor replaced by the number |
| Finance.EditPayload | src/app/admin/financas/page.tsx:85-86 | the edit payload drops id, replaces valor by the number, and keeps every other field |
| Finance.SaveEntry | src/app/admin/financas/page.tsx:71-99 | a crash on a null edit record; rejected with the fill alert unless all three fields are filled; rejected with the amount alert unless the amount is positive; otherwise added (new) or updated (edit, by id) with the payloads above |
| Finance.SavedAmountPositive | src/app/admin/financas/page.tsx:77-90 | every written amount is a positive number |
| Finance.Contribution | src/app/admin/financas/page.tsx:124-131 | an entry adds its amount to its own kind's total, and adds nothing for another kind or a non-numeric amount |
| Finance.ComputeTotals | src/app/admin/financas/page.tsx:120-138 | the loop's income and expense totals are the sums of the "entrada" and "saida" amounts, and the balance is their difference |
| Finance.SumOfKindAppend | src/app/admin/financas/page.tsx:123-132 | the total of two ledgers together is the sum of their totals |
| Finance.SumOfKindNonNegative | src/app/admin/financas/page.tsx:121-131 | if no counted amount is negative, the total is not negative |
| Finance.IgnoredEntry | src/app/admin/financas/page.tsx:125-130 | an entry of another kind, or with a non-numeric amount, leaves the total unchanged |
| Finance.AddedIncomeCounts | src/app/admin/financas/page.tsx:90-132 | a newly saved income raises the income total by its amount and leaves the expense total alone |
| Finance.FinancePage.constructor | src/app/admin/financas/page.tsx:31-40 | an empty ledger, all dialogs closed, and a fresh entry in the form |
| Finance.FinancePage.Loaded | src/app/admin/financas/page.tsx:48-49 | the ledger is the fetched list |
| Finance.FinancePage.OpenAdd | src/app/admin/financas/page.tsx:62 | the form is reset to the initial entry and the add dialog opens |
| Finance.FinancePage.CloseAdd | src/app/admin/financas/page.tsx:63 | the add dialog closes |
| Finance.FinancePage.Change | src/app/admin/financas/page.tsx:65-69 | only the named field changes, in the edit record when the edit dialog is open and in the new entry otherwise |
| Finance.FinancePage.OpenEdit | src/app/admin/financas/page.tsx:101 | the entry is loaded into the edit record and the edit dialog opens |
| Finance.FinancePage.CloseEdit | src/app/admin/financas/page.tsx:102 | the edit dialog closes and the edit record is cleared |
| Finance.FinancePage.Save | src/app/admin/financas/page.tsx:71-99 | issues SaveEntry of the current record; shows its alert, the success alert and closes the dialog, or the error alert when the write fails |
| Finance.FinancePage.OpenDelete | src/app/admin/financas/page.tsx:104 | the entry is selected and the delete dialog opens |
| Finance.FinancePage.CloseDelete | src/app/admin/financas/page.tsx:105 | the delete dialog closes and the selection is cleared |
| Finance.FinancePage.ConfirmDelete | src/app/admin/financas/page.tsx:106-118 | nothing without a selection; otherwise deletes the selected id, then closes with the success alert, or keeps the dialog with the error alert |
| Finance.FinancePage.CurrentTotals | src/app/admin/financas/page.tsx:120-138 | the totals of the current ledger |
| Members.InitialMember | src/app/admin/page.tsx:17-23 | the 22 fields, all empty except batizadoEspiritoSanto "Nao" and status "Ativo" |
| Members.NameBlank | src/app/admin/page.tsx:86 | `!nome.trim()` holds exactly when the name is all whitespace, and throws when the name is not text |
| Members.AddMember | src/app/admin/page.tsx:86 | rejected exactly when the name is blank; otherwise added, and the payload is the form without foto |
| Members.UpdateMember | src/app/admin/page.tsx:101-110 | rejected with the "O nome do membro é obrigatório!" alert exactly when no record is being edited or its name is blank text; a crash when the name is not text; otherwise the record without id is written to the document with that id |
| Members.FreshFormRefused | src/app/admin/page.tsx:72-86 | saving the fresh form at once is refused |
| Members.AddMemberOtherField | src/app/admin/page.tsx:76-86 | changing a field other than the name does not change whether the save goes through, and changes the payload only in that field |
| Members.DetailText | src/app/admin/page.tsx:32 | a non-empty value is shown as is; an empty or missing one as "Não informado" |
| Members.AddressLine | src/app/admin/page.tsx:232 | the address detail's value is the street text (or "") followed by ", ", and then exactly the number text (or "") |
| Members.CityLine | src/app/admin/page.tsx:234 | the city detail's value is the city text (or "") followed by " - ", and then exactly the state text (or "") |
| Members.ComposedDetailsNeverPlaceholder | src/app/admin/page.tsx:232-234 | the composed address and city details are never shown as "Não informado"; a member with neither street nor number shows ", " |
| Members.MembersPage.constructor | src/app/admin/page.tsx:39-50 | no members, all dialogs closed, a fresh form and no photo name |
| Members.MembersPage.Loaded | src/app/admin/page.tsx:57-58 | the member list is the fetched list |
| Members.MembersPage.OpenAdd | src/app/admin/page.tsx:72 | the form and the photo name are reset and the add dialog opens |
| Members.MembersPage.CloseAdd | src/app/admin/page.tsx:73 | the add dialog closes |
| Members.MembersPage.Change | src/app/admin/page.tsx:76-83 | only the named field changes, in the edit record when the edit dialog is open and in the new member otherwise |
| Members.MembersPage.OpenView | src/app/admin/page.tsx:89 | the member is selected and the detail dialog opens |
| Members.MembersPage.CloseView | src/app/admin/page.tsx:90 | the detail dialog closes and the selection is cleared |
| Members.MembersPage.OpenEdit | src/app/admin/page.tsx:93-96 | the member is loaded into the edit record and the edit dialog opens |
| Members.MembersPage.CloseEdit | src/app/admin/page.tsx:97-100 | the edit dialog closes and the edit record is cleared |
| Members.MembersPage.Save | src/app/admin/page.tsx:86 | issues AddMember of the form; a refusal shows its alert, a successful write shows the success alert and closes the dialog, and a failed write or a crash shows nothing |
| Members.MembersPage.Update | src/app/admin/page.tsx:101-118 | issues UpdateMember of the edit record; a successful write shows the success alert and closes the edit dialog; a failed one shows the error alert |
| Events.InitialEvent | src/app/admin/eventos/page.tsx:17-23 | a fresh event has today's date and every other field empty |
| Events.SaveEvent | src/app/admin/eventos/page.tsx:62-68 | the event is written exactly when titulo, data and horario are filled, and then the payload is the form itself; otherwise the fill alert |
| Events.FreshEventNeedsTitleAndTime | src/app/admin/eventos/page.tsx:51-68 | a fresh form is refused, and accepted once a title and a time are typed in |
| Events.EventsPage.constructor | src/app/admin/eventos/page.tsx:26-29 | no events, the dialog closed, a fresh form |
| Events.EventsPage.Loaded | src/app/admin/eventos/page.tsx:37-38 | the event list is the fetched list |
| Events.EventsPage.OpenModal | src/app/admin/eventos/page.tsx:51-54 | the form is reset and the dialog opens |
| Events.EventsPage.CloseModal | src/app/admin/eventos/page.tsx:55 | the dialog closes |
| Events.EventsPage.Change | src/app/admin/eventos/page.tsx:57-60 | the named field takes the new text and every other field keeps its value |
| Events.EventsPage.Save | src/app/admin/eventos/page.tsx:62-76 | issues SaveEvent of the form; a successful write shows the success alert and closes the dialog; a failed one shows the error alert |
| HarpaProjector.Project | src/app/harpa/page.tsx:12-20 | a tab opens exactly when the input is non-empty and 0 < Number(input) <= 640, at "/harpa/apresentacao/" followed by the raw input; otherwise the alert |
| HarpaProjector.ProjectHymnNumber | src/app/harpa/page.tsx:14-16 | every hymn number 1..640 opens its presentation |
| HarpaProjector.ProjectOutOfRange | src/app/harpa/page.tsx:14-18 | 0 and numbers above 640 get the alert |
| HarpaProjector.ProjectNegative | src/app/harpa/page.tsx:14-18 | negative numbers get the alert |
| HarpaProjector.ProjectNotANumber | src/app/harpa/page.tsx:14-18 | input holding a character no numeral may contain gets the alert |
| HarpaProjector.NumberOfOnePointFive | src/app/harpa/page.tsx:14 | `Number("1.5")` is 1.5 |
| HarpaProjector.ProjectFraction | src/app/harpa/page.tsx:14-16 | "1.5" passes the guard and opens "/harpa/apresentacao/" followed by "1.5" |
| HymnSearch.Search | src/app/harpa/HymnListPageClient.tsx:14-23 | navigation happens exactly when parseInt gives a number in 1..640, to "/harpa/" followed by that number; otherwise the alert |
| HymnSearch.SearchHymnNumber | src/app/harpa/HymnListPageClient.tsx:16-19 | a hymn number 1..640, even followed by non-digits, goes to that hymn |
| HymnSearch.SearchOutOfRange | src/app/harpa/HymnListPageClient.tsx:16-21 | 0 and numbers above 640 get the alert |
| HymnSearch.SearchNoDigits | src/app/harpa/HymnListPageClient.tsx:16-21 | input with no leading digits parses to NaN and gets the alert |
| AdminLayout.PageTitle | src/app/admin/layout.tsx:60-70 | a null or empty path gives "Painel Administrativo"; a path containing "/admin/slides/" gives "Editar Slides"; otherwise the text of the first matching menu item, or "Painel Administrativo" when none matches |
| AdminLayout.AtMostOneSelected | src/app/admin/layout.tsx:119 | at most one menu item is selected at a time |
| AdminLayout.SelectedItemTitled | src/app/admin/layout.tsx:60-70 | the selected menu item is the one whose text is the page title |
| AdminLayout.MenuPathNotEditor | src/app/admin/layout.tsx:20-25 | no menu path contains the slide editor's prefix |
| AdminLayout.ItemPageTitle | src/app/admin/layout.tsx:67-69 | on each menu item's own path the title is that item's text |
| AdminLayout.MembersTitleOnlyOnAdmin | src/app/admin/layout.tsx:67 | the title is "Membros" exactly on "/admin" |
| AdminLayout.SlideEditorPageTitle | src/app/admin/layout.tsx:68 | every path below "/admin/slides/" is titled "Editar Slides" |
| AdminLayout.SubpageTitle | src/app/admin/layout.tsx:67-69 | a subpage of any menu item other than "/admin", outside the slide editor, takes that item's title |
| Hymns.PrefixMatch | src/lib/hymns.ts:23 | a match is longer than the leading number it starts with, and fits in the title |
| Hymns.StripNumberPrefix | src/lib/hymns.ts:23 | the result is never longer than the title, and a title that does not start with a digit is unchanged |
| Hymns.StripNumberPrefixRemoves | src/lib/hymns.ts:23 | a title made of one or more digits, spaces, a dash and spaces, followed by a non-space or the end, becomes exactly what follows that prefix |
| Hymns.StripNumberPrefixNeedsDash | src/lib/hymns.ts:23 | a leading number not followed, after spaces, by a dash stays in the title |
| Hymns.ToHymn | src/lib/hymns.ts:17-26 | the id is the integer parse of the key; the title has its prefix removed; the chorus is null exactly when coro is missing or empty, and otherwise is coro; the stanzas are the verses, or none |
| Hymns.AllHymns | src/lib/hymns.ts:14-27 | there are no more hymns than entries |
| Hymns.AllHymnsMembers | src/lib/hymns.ts:14-27 | the hymns are exactly the transforms of the entries that pass the filter |
| Hymns.AllHymnsAppend | src/lib/hymns.ts:14-27 | the transform keeps the entries' order |
| Hymns.SkippedEntry | src/lib/hymns.ts:16 | the "-1" entry, and entries that are not objects or lack a title, contribute nothing |
| Hymns.GetHymnById | src/lib/hymns.ts:36-39 | the hymn found has the number asked for and no earlier hymn has it; nothing is found exactly when no hymn has it |
| Hymns.GetHymnByIdFindsKey | src/lib/hymns.ts:22-38 | a hymn stored under key n is found by number n |
| Hymns.GetHymnByIdNaN | src/lib/hymns.ts:38 | NaN finds no hymn |
| HarpaLib.GetHymnById | src/lib/harpa.ts:9-15 | the hymn found is in the array and has the number asked for, and no earlier hymn has it; nothing is found exactly when no hymn has it |
| HarpaLib.GetHymnByIdFindsNumber | src/lib/harpa.ts:13 | every hymn's number finds a hymn with that number |
| HarpaLib.GetHymnByIdNaN | src/lib/harpa.ts:13 | NaN finds no hymn |
| HarpaLib.GetHymnByIdFraction | src/lib/harpa.ts:13 | a number that is not an integer finds no hymn |
| JsNumber.ParseIntShowNat | src/app/harpa/HymnListPageClient.tsx:16 | `parseInt` reads back a decimal number, whatever non-digits follow it |
| JsNumber.ParseIntNoDigits | src/app/harpa/HymnListPageClient.tsx:16 | with no digit after the spaces and sign, `parseInt` gives NaN |
| JsNumber.ToNumberShowNat | src/app/harpa/page.tsx:14 | `Number` reads back a decimal number |
| JsNumber.ToNumberNegShowNat | src/app/harpa/page.tsx:14 | `Number` reads back a negative decimal number |
| JsNumber.ToNumberForeignChar | src/app/harpa/page.tsx:14 | text holding a character that no numeral contains is NaN to `Number` |
| JsNumber.ParseFloatShowNat | src/app/admin/financas/page.tsx:77 | `parseFloat` reads back a decimal number |
| JsNumber.ParseFloatNoNumeral | src/app/admin/financas/page.tsx:77 | text that does not start, after spaces, with a numeral character is NaN to `parseFloat` |
| JsNumber.JsRem | src/components/LayoutContent.tsx:67 | `%` for a positive divisor takes the sign of the dividend and agrees with the mathematical remainder on non-negative dividends |
| JsText.TrimStart | src/app/admin/page.tsx:86 | the start of `trim()`: drops exactly the leading whitespace, and what is left does not start with whitespace |
| JsText.TrimEnd | src/app/admin/page.tsx:86 | the end of `trim()`: drops exactly the trailing whitespace, and what is left does not end with whitespace |
| JsText.TrimKeeps | src/app/admin/page.tsx:86 | `trim()` keeps every non-whitespace character, shifted left by the leading whitespace |
| JsText.TrimEmptyIff | src/app/admin/page.tsx:86 | `trim()` gives "" exactly when the text is all whitespace |
| JsText.DigitsValueShowNat | src/app/harpa/HymnListPageClient.tsx:19 | the decimal rendering of a number reads back as that number |
| JsRecord.Truthy | src/app/admin/financas/page.tsx:73 | the falsy field values are exactly undefined, "", 0 and NaN |
| JsRecord.NumberReadsBack | src/app/admin/financas/page.tsx:124 | `Number` and `parseFloat` of a field read a decimal whole number back, keep a number, and give NaN for undefined |
| JsRecord.Put | src/app/admin/financas/page.tsx:68 | `{ ...prev, [name]: value }` sets that field and keeps every other one |
| JsRecord.Omit | src/app/admin/page.tsx:109 | `const { id, ...rest }` leaves rest without that field and with every other one |
| Seqs.Filter | src/lib/bible.ts:39 | `filter` keeps exactly the elements that pass |
| Seqs.FilterAppend | src/app/biblia/BiblePageClient.tsx:23-24 | `filter` keeps the order of the elements |
| Seqs.Find | src/lib/harpa.ts:13 | `find` returns the first element that passes, or undefined exactly when none passes |

## Left out

- Firestore and Auth are not modelled: reads, writes, `orderBy`, the refresh after a write, and the login redirect. A fetch is a method taking the fetched list. A write is the outcome value it would issue, with its success as a parameter.
- `doc()` with an undefined id is not modelled. It throws on the update path, and is treated like a failed write.
- Reading `biblia.json` and `harpa.json` and parsing them with `JSON.parse` are not modelled. The parsed data is a parameter. The empty-list fallback of the `catch` in src/lib/hymns.ts:30-33 is not modelled either.
- `Object.entries` and `Object.values` are not modelled. Their results are taken as given sequences, in enumeration order.
- Bible.Lower covers only the ASCII and Latin-1 capitals. Bible.Decompose covers only the lower-case accented Latin-1 letters, the only ones the slug passes it after lower-casing; an upper-case accented letter such as "À" is left whole by it, while real NFD splits it. Full Unicode `toLowerCase` and NFD are not modelled. Every other character is left unchanged by both.
- Floating point is not modelled. Amounts are exact reals, so the ledger totals have no rounding. Hexadecimal, octal and binary literals are not modelled for `Number`: JavaScript reads "0x10" as 16, and the model gives NaN. `parseFloat` reads only their leading "0", in JavaScript and in the model alike. "Infinity", with or without a sign, is not modelled either: both functions give Infinity for it in JavaScript, and NaN in the model.
- Locale formatting is not modelled (`toLocaleString`, `toLocaleDateString`). The `new Date()` default date is a `today` parameter.
- Fullscreen, key listener registration and `console` logging are not modelled.
- `handleFotoChange` is not modelled: photo upload puts a File object into the form, outside the text values.
- Null field values are not modelled: a record's field is text, a number or missing.
- Members.AddressLine: does not model numbers or other non-text values, which render as text inside the template literal. The same holds for Members.CityLine, JsRecord.OrEmpty and the alert texts. The model shows the empty string for them.
- Slideshow.NextIndex: states the wrap-around only for non-negative indexes. That is the only kind of index the page ever holds.
- The slideshow's `id` parameter and the missing-`id` case (no fetch at all) are not modelled. The page then stays loading, as the constructor leaves it.
- The hymn ids of harpa.json are taken as integers. A fractional id is not modelled.
- src/app/harpa/page.tsx accepts fractional input such as "1.5", which passes the `Number` guard. HarpaProjector.ProjectFraction proves that this is how the code behaves; it is not corrected.
- BibleNavigator.ClickVerse: a passed `onVerseSelect` is assumed to return normally. What the caller does with the selection is not part of this model.

## Findings

| source | as written | input that shows it | evidently intended | confidence | as-written member | corrected member |
|---|---|---|---|---|---|---|
| src/app/culto/WorshipPanelClient.tsx:40 | renders the Bible navigator without its required `onVerseSelect` prop, so the verse click at src/app/biblia/BiblePageClient.tsx:47 calls `undefined` and throws before `window.open` at line 55 | a book whose chapter 1 is `["a"]`: choose the book, chapter 1, then verse 1 | the verse is presented and its presentation tab opens | high; not executed | BibleNavigator.ShownButtonsCrashWithoutCallback | BibleNavigator.ShownButtonsPresent |
