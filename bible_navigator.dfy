/** The Bible navigator (src/app/biblia/BiblePageClient.tsx): a three-screen
    picker (books, then the chapters of the chosen book, then the verses of
    the chosen chapter) whose verse buttons present the verse in a new tab. */
module BibleNavigator {
  import opened Wrappers
  import opened JsText
  import opened Seqs
  import opened Bible
  import JsNumber

  datatype View = Books | Chapters | Verses

  /** The object handed to `onVerseSelect`. */
  datatype VerseSelection = VerseSelection(book: string, chapter: int, verse: int, content: string)

  /** What a click on a verse number does: nothing (no book or chapter
      chosen), present the verse (report it and open its presentation tab),
      log that the verse does not exist, or throw, either because the
      chapter does not exist (indexing `undefined`) or because the verse
      exists but no `onVerseSelect` was passed (calling `undefined`). */
  datatype VerseClickOutcome =
    | Ignored
    | Presented(selection: VerseSelection, path: string)
    | VerseNotFound
    | Crashed

  /** The 1-based numbers 1..count, as `Array.from({ length: count }, (_, i) => i + 1)`. */
  function NumbersUpTo(count: nat): (ns: seq<int>)
    ensures |ns| == count
    ensures forall n :: n in ns <==> 1 <= n <= count
    ensures forall i, j :: 0 <= i < j < |ns| ==> ns[i] < ns[j]
  {
    if count == 0 then []
    else
      var ns := NumbersUpTo(count - 1);
      assert forall i :: 0 <= i < |ns| ==> ns[i] in ns;
      ns + [count]
  }

  /** `book.capitulos[chapter - 1]`: the verses of a 1-based chapter, or
      `undefined` outside the book. */
  function ChapterVerses(book: BibleBook, chapter: int): (verses: Option<seq<string>>)
    ensures verses.Some? <==> 1 <= chapter <= |book.capitulos|
    ensures verses.Some? ==> verses.value == book.capitulos[chapter - 1]
  {
    if 1 <= chapter <= |book.capitulos| then Some(book.capitulos[chapter - 1]) else None
  }

  /** The chapter buttons of a book: 1 up to its number of chapters. */
  function ChapterNumbers(book: BibleBook): (ns: seq<int>)
    ensures forall n :: n in ns <==> ChapterVerses(book, n).Some?
  {
    NumbersUpTo(|book.capitulos|)
  }

  /** The verse buttons of a chapter: 1 up to its number of verses
      (`capitulos[ch - 1] || []`, so none for a chapter that does not
      exist). */
  function VerseNumbers(book: BibleBook, chapter: int): (ns: seq<int>)
    ensures ChapterVerses(book, chapter).None? ==> ns == []
    ensures forall n :: n in ns <==> ChapterVerses(book, chapter).Some? && 1 <= n <= |book.capitulos[chapter - 1]|
  {
    NumbersUpTo(|ChapterVerses(book, chapter).GetOr([])|)
  }

  /** `/apresentacao/biblia/${abrev}/${chapter}/${verse}` */
  function PresentationPath(abrev: string, chapter: int, verse: int): (path: string)
    ensures StartsWith(path, "/apresentacao/biblia/" + abrev + "/")
    ensures path == "/apresentacao/biblia/" + abrev + "/" + ShowInt(chapter) + "/" + ShowInt(verse)
  {
    StartsWithAppend("/apresentacao/biblia/" + abrev + "/", ShowInt(chapter) + "/" + ShowInt(verse));
    "/apresentacao/biblia/" + abrev + "/" + ShowInt(chapter) + "/" + ShowInt(verse)
  }

  /** The two segments after the book's prefix read back, with `parseInt`,
      as the chapter and the verse, and nothing follows the verse. */
  lemma {:induction false} PresentationPathReadsBack(abrev: string, chapter: nat, verse: nat)
    ensures var path := PresentationPath(abrev, chapter, verse);
      var k := |"/apresentacao/biblia/" + abrev + "/"|;
      var c := |ShowNat(chapter)|;
      && k + c < |path| && path[k + c] == '/'
      && JsNumber.ParseInt(path[k..]) == Some(chapter)
      && JsNumber.ParseInt(path[k + c + 1..]) == Some(verse)
      && |path| == k + c + 1 + |ShowNat(verse)|
  {
    var prefix := "/apresentacao/biblia/" + abrev + "/";
    var ch, vs := ShowNat(chapter), ShowNat(verse);
    var path := PresentationPath(abrev, chapter, verse);
    assert path == prefix + ch + "/" + vs;
    var k, c := |prefix|, |ch|;
    assert path[k..] == ch + ("/" + vs);
    assert path[k + c + 1..] == vs + [];
    JsNumber.ParseIntShowNat(chapter, "/" + vs);
    JsNumber.ParseIntShowNat(verse, []);
  }

  /** `handleVerseClick(verse)` given the chosen book and chapter;
      `hasCallback` says whether the page was given an `onVerseSelect`. */
  function ClickVerse(book: Option<BibleBook>, chapter: Option<int>, verse: int, hasCallback: bool): (o: VerseClickOutcome)
    ensures book.None? || chapter.None? <==> o == Ignored
    ensures o.Presented? <==>
      book.Some? && chapter.Some? && 1 <= chapter.value <= |book.value.capitulos|
      && 1 <= verse <= |book.value.capitulos[chapter.value - 1]| && hasCallback
    ensures o.Presented? ==>
      o.selection == VerseSelection(book.value.nome, chapter.value, verse, book.value.capitulos[chapter.value - 1][verse - 1])
      && o.path == PresentationPath(book.value.abrev, chapter.value, verse)
    ensures o == Crashed <==>
      book.Some? && chapter.Some?
      && (ChapterVerses(book.value, chapter.value).None?
          || (1 <= verse <= |book.value.capitulos[chapter.value - 1]| && !hasCallback))
  {
    if book.None? || chapter.None? then Ignored
    else match ChapterVerses(book.value, chapter.value)
      case None => Crashed
      case Some(verses) =>
        if 1 <= verse <= |verses| then
          if hasCallback then
            Presented(
              VerseSelection(book.value.nome, chapter.value, verse, verses[verse - 1]),
              PresentationPath(book.value.abrev, chapter.value, verse))
          else Crashed
        else VerseNotFound
  }

  /** Every verse button on the verses screen of every chapter button
      presents exactly the verse it is labelled with. */
  lemma ShownButtonsPresent(book: BibleBook, chapter: int, verse: int)
    requires chapter in ChapterNumbers(book) && verse in VerseNumbers(book, chapter)
    ensures ClickVerse(Some(book), Some(chapter), verse, true)
      == Presented(
        VerseSelection(book.nome, chapter, verse, book.capitulos[chapter - 1][verse - 1]),
        PresentationPath(book.abrev, chapter, verse))
  {
  }

  /** Without `onVerseSelect`, as the worship panel renders the page, every
      verse button throws before the presentation tab is opened. */
  lemma ShownButtonsCrashWithoutCallback(book: BibleBook, chapter: int, verse: int)
    requires chapter in ChapterNumbers(book) && verse in VerseNumbers(book, chapter)
    ensures ClickVerse(Some(book), Some(chapter), verse, false) == Crashed
  {
  }

  /** `allBooks.filter(b => b.periodo?.includes(...))` for both testaments. */
  function OldTestament(books: seq<BibleBook>): (r: seq<BibleBook>)
    ensures forall b :: b in r <==> b in books && Includes(b.periodo, "Antigo")
  {
    Filter(books, InOldTestament)
  }

  function NewTestament(books: seq<BibleBook>): (r: seq<BibleBook>)
    ensures forall b :: b in r <==> b in books && Includes(b.periodo, "Novo")
  {
    Filter(books, InNewTestament)
  }

  /** The testament lists keep the order of the book list: the books of a
      first part come before those of a second. */
  lemma TestamentsKeepOrder(a: seq<BibleBook>, b: seq<BibleBook>)
    ensures OldTestament(a + b) == OldTestament(a) + OldTestament(b)
    ensures NewTestament(a + b) == NewTestament(a) + NewTestament(b)
  {
    FilterAppend(a, b, InOldTestament);
    FilterAppend(a, b, InNewTestament);
  }

  /** What the page renders. */
  datatype Screen =
    | VerseGrid(bookName: string, chapter: int, verses: seq<int>)
    | ChapterGrid(bookName: string, chapters: seq<int>)
    | BookGrid(antigo: seq<BibleBook>, novo: seq<BibleBook>)

  class BiblePage {
    const allBooks: seq<BibleBook>
    var view: View
    var selectedBook: Option<BibleBook>
    var selectedChapter: Option<int>
    /** Whether the `onVerseSelect` prop was passed. */
    const hasCallback: bool

    /** The chapters screen has a book and the verses screen a book and a
        chapter. */
    ghost predicate Consistent()
      reads this
    {
      (view == Chapters ==> selectedBook.Some?)
      && (view == Verses ==> selectedBook.Some? && selectedChapter.Some?)
    }

    constructor (books: seq<BibleBook>, withCallback: bool)
      ensures allBooks == books && hasCallback == withCallback
      ensures view == Books && selectedBook == None && selectedChapter == None
      ensures Consistent()
    {
      allBooks := books;
      hasCallback := withCallback;
      view := Books;
      selectedBook := None;
      selectedChapter := None;
    }

    /** `handleBookClick` */
    method ClickBook(book: BibleBook)
      modifies this
      ensures view == Chapters && selectedBook == Some(book) && selectedChapter == old(selectedChapter)
      ensures Consistent()
    {
      selectedBook := Some(book);
      view := Chapters;
    }

    /** `handleChapterClick` */
    method ClickChapter(chapter: int)
      modifies this
      ensures view == Verses && selectedChapter == Some(chapter) && selectedBook == old(selectedBook)
      ensures Consistent() <==> selectedBook.Some?
    {
      selectedChapter := Some(chapter);
      view := Verses;
    }

    /** "Voltar para Capítulos": back to the chapter list of the same book. */
    method BackToChapters()
      requires Consistent()
      modifies this
      ensures view == Chapters && selectedBook == old(selectedBook) && selectedChapter == old(selectedChapter)
      ensures Consistent() <==> selectedBook.Some?
    {
      view := Chapters;
    }

    /** "Voltar para a Lista de Livros": back to the book list, forgetting
        the book. */
    method BackToBooks()
      modifies this
      ensures view == Books && selectedBook == None && selectedChapter == old(selectedChapter)
      ensures Consistent()
    {
      view := Books;
      selectedBook := None;
    }

    /** `handleVerseClick` on the current state. */
    function VerseClick(verse: int): (o: VerseClickOutcome)
      reads this
      ensures o == ClickVerse(selectedBook, selectedChapter, verse, hasCallback)
      ensures view == Verses && Consistent() ==> o != Ignored
    {
      ClickVerse(selectedBook, selectedChapter, verse, hasCallback)
    }

    /** The rendered screen: the verse grid when on the verses view with a
        book and chapter, the chapter grid when on the chapters view with a
        book, and otherwise the two testament lists. */
    function Render(): (s: Screen)
      reads this
      ensures s.VerseGrid? <==> view == Verses && selectedBook.Some? && selectedChapter.Some?
      ensures s.VerseGrid? ==>
        s.bookName == selectedBook.value.nome && s.chapter == selectedChapter.value
        && s.verses == VerseNumbers(selectedBook.value, selectedChapter.value)
      ensures s.ChapterGrid? <==> view == Chapters && selectedBook.Some?
      ensures s.ChapterGrid? ==> s.bookName == selectedBook.value.nome && s.chapters == ChapterNumbers(selectedBook.value)
      ensures s.BookGrid? ==> s.antigo == OldTestament(allBooks) && s.novo == NewTestament(allBooks)
      ensures Consistent() ==> (s.BookGrid? <==> view == Books)
    {
      if view == Verses && selectedBook.Some? && selectedChapter.Some? then
        VerseGrid(selectedBook.value.nome, selectedChapter.value, VerseNumbers(selectedBook.value, selectedChapter.value))
      else if view == Chapters && selectedBook.Some? then
        ChapterGrid(selectedBook.value.nome, ChapterNumbers(selectedBook.value))
      else
        BookGrid(OldTestament(allBooks), NewTestament(allBooks))
    }
  }

  /** Walking the screens in order (a book, one of its chapter buttons, one
      of that chapter's verse buttons) presents that verse of that book when
      the page has its `onVerseSelect`, and throws when it has none. */
  method PickVerse(books: seq<BibleBook>, withCallback: bool, book: BibleBook, chapter: int, verse: int)
    returns (o: VerseClickOutcome)
    requires chapter in ChapterNumbers(book) && verse in VerseNumbers(book, chapter)
    ensures withCallback ==> o == Presented(
      VerseSelection(book.nome, chapter, verse, book.capitulos[chapter - 1][verse - 1]),
      PresentationPath(book.abrev, chapter, verse))
    ensures !withCallback ==> o == Crashed
  {
    var page := new BiblePage(books, withCallback);
    page.ClickBook(book);
    assert page.Render() == ChapterGrid(book.nome, ChapterNumbers(book));
    page.ClickChapter(chapter);
    assert page.Render() == VerseGrid(book.nome, chapter, VerseNumbers(book, chapter));
    o := page.VerseClick(verse);
    ShownButtonsPresent(book, chapter, verse);
    ShownButtonsCrashWithoutCallback(book, chapter, verse);
  }
}
