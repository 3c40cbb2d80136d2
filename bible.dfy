/** The Bible data layer (src/lib/bible.ts): the parsed `biblia.json` book
    list with its metadata entry removed, the URL slug of a book name, the
    list of books of each testament, and lookup of a book by slug.

    `toLowerCase` and NFD decomposition are modelled on Basic Latin and
    Latin-1, the characters book names are written in; every other
    character is left as it is by both. */
module Bible {
  import opened Wrappers
  import opened JsText
  import opened Seqs

  datatype BibleBook = BibleBook(
    id: string,
    periodo: string,
    nome: string,
    abrev: string,
    capitulos: seq<seq<string>>)

  /** `{ nome, slug }` */
  datatype BookRef = BookRef(nome: string, slug: string)

  datatype BibleIndex = BibleIndex(antigoTestamento: seq<BookRef>, novoTestamento: seq<BookRef>)

  /** `{ ...book, slug }`: a book with its slug added. */
  datatype SluggedBook = SluggedBook(book: BibleBook, slug: string)

  // ----- slugs -----

  /** The combining diacritical marks U+0300 to U+036F. */
  predicate IsMark(c: char) {
    '\U{0300}' <= c <= '\U{036F}'
  }

  /** `toLowerCase` of one character: A-Z and the Latin-1 capitals
      U+00C0 to U+00DE (except the multiplication sign U+00D7) move 32 code
      points up. */
  function LowerChar(c: char): (r: char)
    ensures IsSpace(r) == IsSpace(c) && IsMark(r) == IsMark(c)
  {
    if 'A' <= c <= 'Z' || ('\U{00C0}' <= c <= '\U{00DE}' && c != '\U{00D7}') then
      (c as int + 32) as char
    else c
  }

  /** The canonical decomposition (NFD) of a lower-case Latin-1 letter with
      a diacritic: its base letter followed by the combining mark; any other
      character is its own decomposition. */
  function Decompose(c: char): (d: seq<char>)
    ensures d == [c] || (|d| == 2 && 'a' <= d[0] <= 'z' && IsMark(d[1]))
    ensures d != [c] ==> '\U{00E0}' <= c <= '\U{00FF}'
  {
    match c
    case '\U{00E0}' => ['a', '\U{0300}']
    case '\U{00E1}' => ['a', '\U{0301}']
    case '\U{00E2}' => ['a', '\U{0302}']
    case '\U{00E3}' => ['a', '\U{0303}']
    case '\U{00E4}' => ['a', '\U{0308}']
    case '\U{00E5}' => ['a', '\U{030A}']
    case '\U{00E7}' => ['c', '\U{0327}']
    case '\U{00E8}' => ['e', '\U{0300}']
    case '\U{00E9}' => ['e', '\U{0301}']
    case '\U{00EA}' => ['e', '\U{0302}']
    case '\U{00EB}' => ['e', '\U{0308}']
    case '\U{00EC}' => ['i', '\U{0300}']
    case '\U{00ED}' => ['i', '\U{0301}']
    case '\U{00EE}' => ['i', '\U{0302}']
    case '\U{00EF}' => ['i', '\U{0308}']
    case '\U{00F1}' => ['n', '\U{0303}']
    case '\U{00F2}' => ['o', '\U{0300}']
    case '\U{00F3}' => ['o', '\U{0301}']
    case '\U{00F4}' => ['o', '\U{0302}']
    case '\U{00F5}' => ['o', '\U{0303}']
    case '\U{00F6}' => ['o', '\U{0308}']
    case '\U{00F9}' => ['u', '\U{0300}']
    case '\U{00FA}' => ['u', '\U{0301}']
    case '\U{00FB}' => ['u', '\U{0302}']
    case '\U{00FC}' => ['u', '\U{0308}']
    case '\U{00FD}' => ['y', '\U{0301}']
    case '\U{00FF}' => ['y', '\U{0308}']
    case _ => [c]
  }

  /** `s.toLowerCase()` */
  function Lower(s: string): (r: string)
    ensures |r| == |s|
    ensures forall i :: 0 <= i < |s| ==> r[i] == LowerChar(s[i])
  {
    if s == [] then [] else [LowerChar(s[0])] + Lower(s[1..])
  }

  /** `s.normalize("NFD")` */
  function Nfd(s: string): (r: string)
    ensures |r| >= |s|
  {
    if s == [] then [] else Decompose(s[0]) + Nfd(s[1..])
  }

  predicate NotMark(c: char) {
    !IsMark(c)
  }

  predicate NotSpace(c: char) {
    !IsSpace(c)
  }

  /** A character the slug pipeline leaves alone: already lower case,
      without a decomposition, neither a mark nor whitespace. */
  predicate Settled(c: char) {
    LowerChar(c) == c && Decompose(c) == [c] && !IsMark(c) && !IsSpace(c)
  }

  /** `normalizeSlug(name)`: lower case, decomposed, combining marks removed
      (`/[̀-ͯ]/g`), whitespace removed (`/\s+/g`). */
  function NormalizeSlug(name: string): (slug: string)
    ensures name == "" ==> slug == ""
    ensures forall c :: c in slug ==> !IsSpace(c) && !IsMark(c)
    ensures forall c :: c in slug ==> Settled(c)
  {
    if name == "" then ""
    else
      var lower := Lower(name);
      var decomposed := Nfd(lower);
      NfdSettles(lower);
      Filter(Filter(decomposed, NotMark), NotSpace)
  }

  /** Lower-casing a Latin-1 character twice changes nothing more. */
  lemma LowerCharIdempotent(c: char)
    ensures LowerChar(LowerChar(c)) == LowerChar(c)
  {
  }

  /** Decomposing a lower-case string yields only marks and characters that
      are settled or whitespace. */
  lemma {:induction false} NfdSettles(s: string)
    requires forall i :: 0 <= i < |s| ==> LowerChar(s[i]) == s[i]
    ensures forall c :: c in Nfd(s) ==> IsMark(c) || IsSpace(c) || Settled(c)
  {
    if s != [] {
      NfdSettles(s[1..]);
      DecomposeSettles(s[0]);
      var head, rest := Decompose(s[0]), Nfd(s[1..]);
      assert Nfd(s) == head + rest;
      forall c | c in head + rest
        ensures IsMark(c) || IsSpace(c) || Settled(c)
      {
        if c !in head {
          assert c in rest;
        }
      }
    }
  }

  /** The decomposition of a lower-case character is settled, a mark, or
      whitespace. */
  lemma DecomposeSettles(c: char)
    requires LowerChar(c) == c
    ensures forall x :: x in Decompose(c) ==> IsMark(x) || IsSpace(x) || Settled(x)
  {
    var d := Decompose(c);
    if d == [c] {
      assert forall x :: x in d ==> x == c;
    } else {
      BaseLetterSettled(d[0]);
      assert d == [d[0], d[1]];
    }
  }

  /** Unaccented lower-case letters are settled. */
  lemma LettersSettled(s: string)
    requires forall i :: 0 <= i < |s| ==> 'a' <= s[i] <= 'z'
    ensures forall c :: c in s ==> Settled(c)
  {
    forall c | c in s
      ensures Settled(c)
    {
      var i :| 0 <= i < |s| && s[i] == c;
      BaseLetterSettled(c);
    }
  }

  lemma BaseLetterSettled(x: char)
    requires 'a' <= x <= 'z'
    ensures Settled(x)
  {
  }

  lemma LowerSettled(s: string)
    requires forall c :: c in s ==> Settled(c)
    ensures Lower(s) == s
  {
    assert forall i :: 0 <= i < |s| ==> s[i] in s;
  }

  lemma {:induction false} NfdSettled(s: string)
    requires forall c :: c in s ==> Settled(c)
    ensures Nfd(s) == s
  {
    if s != [] {
      assert s[0] in s;
      NfdSettled(s[1..]);
    }
  }

  lemma {:induction false} FilterAll(s: string, p: char -> bool)
    requires forall c :: c in s ==> p(c)
    ensures Filter(s, p) == s
  {
    if s != [] {
      assert s[0] in s;
      FilterAll(s[1..], p);
    }
  }

  /** A string made only of settled characters is its own slug. */
  lemma SettledSlug(s: string)
    requires forall c :: c in s ==> Settled(c)
    ensures NormalizeSlug(s) == s
  {
    if s != "" {
      LowerSettled(s);
      NfdSettled(s);
      FilterAll(s, NotMark);
      FilterAll(s, NotSpace);
    }
  }

  /** Normalising a slug again changes nothing, so a slug read from a URL
      matches the slug it was made from. */
  lemma NormalizeSlugIdempotent(name: string)
    ensures NormalizeSlug(NormalizeSlug(name)) == NormalizeSlug(name)
  {
    SettledSlug(NormalizeSlug(name));
  }

  /** `toLowerCase` works character by character. */
  lemma LowerAppend(a: string, b: string)
    ensures Lower(a + b) == Lower(a) + Lower(b)
  {
  }

  /** NFD works character by character. */
  lemma {:induction false} NfdAppend(a: string, b: string)
    ensures Nfd(a + b) == Nfd(a) + Nfd(b)
  {
    if a == [] {
      assert a + b == b;
    } else {
      assert (a + b)[1..] == a[1..] + b;
      NfdAppend(a[1..], b);
    }
  }

  /** The slug of a name is the slugs of its parts, joined. */
  lemma NormalizeSlugAppend(a: string, b: string)
    ensures NormalizeSlug(a + b) == NormalizeSlug(a) + NormalizeSlug(b)
  {
    if a == [] {
      assert a + b == b;
    } else if b == [] {
      assert a + b == a;
    } else {
      var la, lb := Lower(a), Lower(b);
      LowerAppend(a, b);
      NfdAppend(la, lb);
      FilterAppend(Nfd(la), Nfd(lb), NotMark);
      FilterAppend(Filter(Nfd(la), NotMark), Filter(Nfd(lb), NotMark), NotSpace);
    }
  }

  /** The slug of one character: nothing for whitespace and for a mark,
      otherwise the base letter of its lower case (the character itself
      when it has neither case nor accent). */
  lemma SlugOfChar(c: char)
    ensures NormalizeSlug([c]) == (if IsSpace(c) || IsMark(c) then [] else [Decompose(LowerChar(c))[0]])
  {
    var lc := LowerChar(c);
    var d := Decompose(lc);
    SlugOfOne(c);
    if d == [lc] {
      FilterOne(lc);
    } else {
      assert !IsSpace(lc) && !IsMark(lc);
      FilterBaseAndMark(d[0], d[1]);
      assert d == [d[0], d[1]];
    }
  }

  /** One character goes through the pipeline as its decomposition. */
  lemma SlugOfOne(c: char)
    ensures NormalizeSlug([c]) == Filter(Filter(Decompose(LowerChar(c)), NotMark), NotSpace)
  {
    var lc := LowerChar(c);
    assert Lower([c]) == [lc];
    var d := Decompose(lc);
    assert Nfd([lc]) == d by {
      assert [lc][1..] == [];
      assert d + [] == d;
    }
  }

  lemma FilterOne(x: char)
    ensures Filter(Filter([x], NotMark), NotSpace) == (if IsSpace(x) || IsMark(x) then [] else [x])
  {
    FilterCons(x, [], NotMark);
    FilterCons(x, [], NotSpace);
  }

  lemma FilterBaseAndMark(base: char, mark: char)
    requires 'a' <= base <= 'z' && IsMark(mark)
    ensures Filter(Filter([base, mark], NotMark), NotSpace) == [base]
  {
    assert Filter([mark], NotMark) == [] by {
      assert [mark][1..] == [];
    }
    assert Filter([base, mark], NotMark) == [base] by {
      assert [base, mark][1..] == [mark];
    }
    assert Filter([base], NotSpace) == [base] by {
      assert [base][1..] == [];
    }
  }

  /** Whitespace anywhere in a name does not reach its slug. */
  lemma SlugDropsSpace(a: string, sp: char, b: string)
    requires IsSpace(sp)
    ensures NormalizeSlug(a + [sp] + b) == NormalizeSlug(a + b)
  {
    var head := NormalizeSlug(a);
    assert NormalizeSlug(a + [sp]) == head by {
      SlugOfChar(sp);
      NormalizeSlugAppend(a, [sp]);
      assert head + [] == head;
    }
    NormalizeSlugAppend(a + [sp], b);
    NormalizeSlugAppend(a, b);
  }

  /** An accented letter has the slug of its base letter. */
  lemma SlugDropsAccent(c: char)
    requires |Decompose(LowerChar(c))| == 2
    ensures NormalizeSlug([c]) == NormalizeSlug([Decompose(LowerChar(c))[0]])
  {
    var base := Decompose(LowerChar(c))[0];
    SlugOfChar(c);
    SlugOfChar(base);
  }

  /** Lower-casing a name first does not change its slug. */
  lemma SlugIgnoresCase(name: string)
    ensures NormalizeSlug(Lower(name)) == NormalizeSlug(name)
  {
    var l := Lower(name);
    forall i | 0 <= i < |l|
      ensures LowerChar(l[i]) == l[i]
    {
      LowerCharIdempotent(name[i]);
    }
    assert Lower(l) == l;
  }

  /** The slug of "Êxodo" is "exodo", and so is that of "êxodo". */
  lemma ExodoSlug()
    ensures NormalizeSlug("\U{00CA}xodo") == "exodo"
    ensures NormalizeSlug("\U{00EA}xodo") == "exodo"
  {
    assert Filter("exodo", NotSpace) == "exodo" by {
      LettersSettled("exodo");
      FilterAll("exodo", NotSpace);
    }
    ExodoLower();
    ExodoNfd();
    ExodoMarks();
    SlugIgnoresCase("\U{00CA}xodo");
  }

  lemma FilterCons(c: char, t: string, p: char -> bool)
    ensures Filter([c] + t, p) == (if p(c) then [c] else []) + Filter(t, p)
  {
    assert ([c] + t)[1..] == t;
  }

  /** A base letter, one mark and unmarked text lose just the mark. */
  lemma DropMark(base: char, mark: char, t: string)
    requires !IsMark(base) && IsMark(mark)
    requires forall c :: c in t ==> !IsMark(c)
    ensures Filter([base, mark] + t, NotMark) == [base] + t
  {
    var tail := [mark] + t;
    assert Filter(tail, NotMark) == t by {
      FilterAll(t, NotMark);
      FilterCons(mark, t, NotMark);
    }
    assert [base, mark] + t == [base] + tail;
    FilterCons(base, tail, NotMark);
  }

  lemma ExodoCons()
    ensures "exodo" == ['e'] + "xodo"
  {
    assert "exodo"[1..] == "xodo";
  }

  lemma ExodoLower()
    ensures Lower("\U{00CA}xodo") == "\U{00EA}xodo"
  {
  }

  lemma ExodoNfd()
    ensures Nfd("\U{00EA}xodo") == ['e', '\U{0302}'] + "xodo"
  {
    assert Nfd("xodo") == "xodo" by {
      LettersSettled("xodo");
      NfdSettled("xodo");
    }
    assert "\U{00EA}xodo"[1..] == "xodo";
  }

  lemma ExodoMarks()
    ensures Filter(['e', '\U{0302}'] + "xodo", NotMark) == "exodo"
  {
    DropMark('e', '\U{0302}', "xodo");
    ExodoCons();
  }

  // ----- the book list -----

  predicate IsBook(b: BibleBook) {
    b.id != "0"
  }

  /** `getBibleData`: the parsed entries without the metadata entry whose
      id is "0", in file order. */
  function BibleData(raw: seq<BibleBook>): (books: seq<BibleBook>)
    ensures forall b :: b in books <==> b in raw && b.id != "0"
  {
    Filter(raw, IsBook)
  }

  /** The metadata entry is removed wherever it stands, and the books keep
      their file order around it. */
  lemma BibleDataSplit(before: seq<BibleBook>, meta: BibleBook, after: seq<BibleBook>)
    requires meta.id == "0"
    ensures BibleData(before + [meta] + after) == BibleData(before) + BibleData(after)
  {
    FilterAppend(before + [meta], after, IsBook);
    FilterAppend(before, [meta], IsBook);
    assert Filter([meta], IsBook) == [];
  }

  /** `getFullBible`: every book, with its slug added. */
  function FullBible(raw: seq<BibleBook>): (full: seq<SluggedBook>)
    ensures |full| == |BibleData(raw)|
    ensures forall i :: 0 <= i < |full| ==> full[i].book == BibleData(raw)[i]
    ensures forall i :: 0 <= i < |full| ==> full[i].slug == NormalizeSlug(full[i].book.nome)
  {
    var books := BibleData(raw);
    seq(|books|, i requires 0 <= i < |books| => SluggedBook(books[i], NormalizeSlug(books[i].nome)))
  }

  predicate InOldTestament(b: BibleBook) {
    Includes(b.periodo, "Antigo")
  }

  predicate InNewTestament(b: BibleBook) {
    Includes(b.periodo, "Novo")
  }

  /** `{ nome: book.nome, slug: normalizeSlug(book.nome) }` for each book. */
  function Refs(books: seq<BibleBook>): (refs: seq<BookRef>)
    ensures |refs| == |books|
    ensures forall i :: 0 <= i < |books| ==> refs[i] == BookRef(books[i].nome, NormalizeSlug(books[i].nome))
  {
    if books == [] then [] else [BookRef(books[0].nome, NormalizeSlug(books[0].nome))] + Refs(books[1..])
  }

  /** `getBookList`: the books of each testament, in file order, as name and
      slug. */
  function BookList(raw: seq<BibleBook>): (index: BibleIndex)
    ensures |index.antigoTestamento| == |Filter(BibleData(raw), InOldTestament)|
    ensures |index.novoTestamento| == |Filter(BibleData(raw), InNewTestament)|
    ensures forall r :: r in index.antigoTestamento ==>
      exists b :: b in raw && b.id != "0" && InOldTestament(b) && r == BookRef(b.nome, NormalizeSlug(b.nome))
    ensures forall r :: r in index.novoTestamento ==>
      exists b :: b in raw && b.id != "0" && InNewTestament(b) && r == BookRef(b.nome, NormalizeSlug(b.nome))
  {
    var books := BibleData(raw);
    var old_, new_ := Filter(books, InOldTestament), Filter(books, InNewTestament);
    RefsFrom(old_);
    RefsFrom(new_);
    BibleIndex(Refs(old_), Refs(new_))
  }

  /** Each reference is made from one of the books. */
  lemma RefsFrom(books: seq<BibleBook>)
    ensures forall r :: r in Refs(books) ==> exists b :: b in books && r == BookRef(b.nome, NormalizeSlug(b.nome))
  {
    forall r | r in Refs(books)
      ensures exists b :: b in books && r == BookRef(b.nome, NormalizeSlug(b.nome))
    {
      var i :| 0 <= i < |books| && Refs(books)[i] == r;
      assert books[i] in books;
    }
  }

  /** Every book of a testament appears in that testament's list, under its
      name and slug. */
  lemma BookListComplete(raw: seq<BibleBook>, b: BibleBook)
    requires b in raw && b.id != "0"
    ensures InOldTestament(b) ==> BookRef(b.nome, NormalizeSlug(b.nome)) in BookList(raw).antigoTestamento
    ensures InNewTestament(b) ==> BookRef(b.nome, NormalizeSlug(b.nome)) in BookList(raw).novoTestamento
  {
    var books := BibleData(raw);
    if InOldTestament(b) {
      RefsHas(Filter(books, InOldTestament), b);
    }
    if InNewTestament(b) {
      RefsHas(Filter(books, InNewTestament), b);
    }
  }

  /** The lists keep file order: the books of a first part of the file come
      before those of a second. */
  lemma BookListKeepsOrder(a: seq<BibleBook>, b: seq<BibleBook>)
    ensures BookList(a + b).antigoTestamento == BookList(a).antigoTestamento + BookList(b).antigoTestamento
    ensures BookList(a + b).novoTestamento == BookList(a).novoTestamento + BookList(b).novoTestamento
  {
    FilterAppend(a, b, IsBook);
    var da, db := BibleData(a), BibleData(b);
    FilterAppend(da, db, InOldTestament);
    FilterAppend(da, db, InNewTestament);
    RefsAppend(Filter(da, InOldTestament), Filter(db, InOldTestament));
    RefsAppend(Filter(da, InNewTestament), Filter(db, InNewTestament));
  }

  lemma RefsAppend(a: seq<BibleBook>, b: seq<BibleBook>)
    ensures Refs(a + b) == Refs(a) + Refs(b)
  {
  }

  lemma RefsHas(books: seq<BibleBook>, b: BibleBook)
    requires b in books
    ensures BookRef(b.nome, NormalizeSlug(b.nome)) in Refs(books)
  {
    var i :| 0 <= i < |books| && books[i] == b;
    assert Refs(books)[i] == BookRef(b.nome, NormalizeSlug(b.nome));
  }

  /** `getBook(slug)`: the first book whose name normalises to `slug`. */
  function GetBook(raw: seq<BibleBook>, slug: string): (r: Option<BibleBook>)
    ensures r.Some? ==> r.value in raw && r.value.id != "0" && NormalizeSlug(r.value.nome) == slug
    ensures r.None? <==> forall b :: b in raw && b.id != "0" ==> NormalizeSlug(b.nome) != slug
  {
    var books := BibleData(raw);
    Find(books, (b: BibleBook) => NormalizeSlug(b.nome) == slug)
  }

  /** The first book with a given slug is the one `getBook` returns. */
  lemma GetBookFirst(raw: seq<BibleBook>, i: nat)
    requires i < |BibleData(raw)|
    requires forall j :: 0 <= j < i ==> NormalizeSlug(BibleData(raw)[j].nome) != NormalizeSlug(BibleData(raw)[i].nome)
    ensures GetBook(raw, NormalizeSlug(BibleData(raw)[i].nome)) == Some(BibleData(raw)[i])
  {
    var books := BibleData(raw);
    var slug := NormalizeSlug(books[i].nome);
    var p := (b: BibleBook) => NormalizeSlug(b.nome) == slug;
    var r := Find(books, p);
    assert p(books[i]);
    var k :| 0 <= k < |books| && books[k] == r.value && forall j :: 0 <= j < k ==> !p(books[j]);
  }

  /** Every slug `getFullBible` hands out leads `getBook` back to a book
      with that slug. */
  lemma FullBibleSlugsResolve(raw: seq<BibleBook>, i: nat)
    requires i < |FullBible(raw)|
    ensures GetBook(raw, FullBible(raw)[i].slug).Some?
    ensures NormalizeSlug(GetBook(raw, FullBible(raw)[i].slug).value.nome) == FullBible(raw)[i].slug
  {
    var b := BibleData(raw)[i];
    assert b in BibleData(raw);
  }

  /** Every entry of either testament list is a book of that testament whose
      slug `getBook` resolves. */
  lemma BookListSlugsResolve(raw: seq<BibleBook>, ref: BookRef)
    requires ref in BookList(raw).antigoTestamento || ref in BookList(raw).novoTestamento
    ensures GetBook(raw, ref.slug).Some?
    ensures exists b :: b in BibleData(raw) && b.nome == ref.nome && NormalizeSlug(b.nome) == ref.slug
  {
    var b :| b in raw && b.id != "0" && ref == BookRef(b.nome, NormalizeSlug(b.nome));
    assert b in BibleData(raw);
  }
}
