/** The hymnal data layer (src/lib/hymns.ts): the entries of the parsed
    `harpa.json` object turned into hymns (number, title without its
    numeric prefix, chorus, stanzas), and lookup of a hymn by number. */
module Hymns {
  import opened Wrappers
  import opened JsText
  import opened JsNumber
  import opened Seqs

  /** An entry's value: something other than an object (or null), or an
      object with the fields the transform reads. Text fields may be
      missing; `verses` is an object whose values are the stanzas, taken in
      enumeration order. */
  datatype RawValue =
    | NotAnObject
    | HymnObject(hino: Option<string>, coro: Option<string>, verses: Option<seq<string>>)

  /** `[key, value]` from `Object.entries`. */
  datatype Entry = Entry(key: string, value: RawValue)

  /** A hymn: `id` is None when the key does not parse (NaN); `chorus` None
      is null. */
  datatype Hymn = Hymn(id: Option<int>, title: string, chorus: Option<string>, stanzas: seq<string>)

  /** The key of the metadata entry. */
  const MetadataKey: string := "-1"

  /** The entry test: not the metadata entry, an object, and with a
      non-empty `hino`. */
  predicate IsHymnEntry(e: Entry) {
    e.key != MetadataKey && e.value.HymnObject? && e.value.hino.Some? && e.value.hino.value != ""
  }

  /** The length of the runs of spaces at the start of `s`. */
  function SpaceRun(s: string): (n: nat)
    ensures n <= |s|
  {
    if |s| == 0 || !IsSpace(s[0]) then 0 else 1 + SpaceRun(s[1..])
  }

  /** The run is all spaces and stops at the end or at a non-space. */
  lemma {:induction false} SpaceRunSpans(s: string)
    ensures AllSpaces(s[..SpaceRun(s)])
    ensures SpaceRun(s) == |s| || !IsSpace(s[SpaceRun(s)])
  {
    if s != [] && IsSpace(s[0]) {
      SpaceRunSpans(s[1..]);
      var n := SpaceRun(s[1..]);
      assert s[..n + 1] == [s[0]] + s[1..][..n];
    }
  }

  /** The title's `replace` with the pattern `^\d+\s*-\s*` and an empty
      replacement: the matched prefix is removed, and a title the pattern
      does not match is kept. */
  function StripNumberPrefix(s: string): (r: string)
    ensures |r| <= |s|
    ensures s == [] || !IsDigit(s[0]) ==> r == s
  {
    s[PrefixMatch(s)..]
  }

  /** The length of the match of `^\d+\s*-\s*` at the start of `s`: a
      leading number, optional spaces, a dash and optional spaces; 0 when
      there is no match (no leading digit, or no dash after the number). */
  function PrefixMatch(s: string): (n: nat)
    ensures n <= |s|
    ensures n > 0 ==> 0 < LeadingDigits(s) < n
  {
    var nd := LeadingDigits(s);
    if nd == 0 then 0 else DashMatch(s, nd + SpaceRun(s[nd..]))
  }

  /** The rest of the match once the number and the spaces after it end at
      `dash`: a dash and optional spaces, or no match. */
  function DashMatch(s: string, dash: nat): (n: nat)
    requires dash <= |s|
    ensures n <= |s|
    ensures n > 0 ==> dash < n
  {
    if dash < |s| && s[dash] == '-' then dash + 1 + SpaceRun(s[dash + 1..]) else 0
  }

  /** A title made of `nd` digits, `sp1` spaces, a dash, `sp2` spaces and
      then something that does not start with a space loses exactly that
      prefix. */
  lemma StripNumberPrefixRemoves(s: string, nd: nat, sp1: nat, sp2: nat)
    requires 0 < nd && nd + sp1 < |s| && nd + sp1 + 1 + sp2 <= |s|
    requires AllDigits(s[..nd]) && AllSpaces(s[nd..nd + sp1]) && s[nd + sp1] == '-'
    requires AllSpaces(s[nd + sp1 + 1..nd + sp1 + 1 + sp2])
    requires nd + sp1 + 1 + sp2 == |s| || !IsSpace(s[nd + sp1 + 1 + sp2])
    ensures StripNumberPrefix(s) == s[nd + sp1 + 1 + sp2..]
  {
    NumberThenDash(s, nd, sp1);
    DashThenSpaces(s, nd + sp1, sp2);
  }

  /** After `nd` digits and `sp` spaces comes a dash: the match is decided
      there. */
  lemma NumberThenDash(s: string, nd: nat, sp: nat)
    requires 0 < nd && nd + sp < |s|
    requires AllDigits(s[..nd]) && AllSpaces(s[nd..nd + sp]) && s[nd + sp] == '-'
    ensures PrefixMatch(s) == DashMatch(s, nd + sp)
  {
    assert LeadingDigits(s) == nd by {
      assert !IsDigit(s[nd]) by {
        if sp > 0 {
          assert s[nd..nd + sp][0] == s[nd];
        }
      }
      LeadingDigitsIs(s, nd);
    }
    assert SpaceRun(s[nd..]) == sp by {
      assert s[nd..][..sp] == s[nd..nd + sp];
      SpaceRunIs(s[nd..], sp);
    }
    PrefixMatchNumber(s, nd, sp);
  }

  /** A dash followed by `sp` spaces and then a non-space ends the match. */
  lemma DashThenSpaces(s: string, dash: nat, sp: nat)
    requires dash < |s| && s[dash] == '-' && dash + 1 + sp <= |s|
    requires AllSpaces(s[dash + 1..dash + 1 + sp])
    requires dash + 1 + sp == |s| || !IsSpace(s[dash + 1 + sp])
    ensures DashMatch(s, dash) == dash + 1 + sp
  {
    assert s[dash + 1..][..sp] == s[dash + 1..dash + 1 + sp];
    SpaceRunIs(s[dash + 1..], sp);
  }

  /** `SpaceRun` counts exactly the spaces before the first non-space. */
  lemma {:induction false} SpaceRunIs(s: string, n: nat)
    requires n <= |s| && AllSpaces(s[..n]) && (n == |s| || !IsSpace(s[n]))
    ensures SpaceRun(s) == n
  {
    if n > 0 {
      assert s[..n][0] == s[0];
      assert s[1..][..n - 1] == s[..n][1..];
      SpaceRunIs(s[1..], n - 1);
    }
  }

  /** Past a number of `nd` digits and `sp` spaces, the match is decided at
      the dash. */
  lemma PrefixMatchNumber(s: string, nd: nat, sp: nat)
    requires 0 < nd == LeadingDigits(s)
    requires sp == SpaceRun(s[nd..])
    ensures PrefixMatch(s) == DashMatch(s, nd + sp)
  {
  }

  /** A run of spaces followed by a non-space has exactly that length. */
  lemma {:induction false} SpaceRunAppend(spaces: string, rest: string)
    requires AllSpaces(spaces)
    requires rest == [] || !IsSpace(rest[0])
    ensures SpaceRun(spaces + rest) == |spaces|
  {
    if spaces != [] {
      assert (spaces + rest)[1..] == spaces[1..] + rest;
      assert spaces[0] == spaces[..1][0];
      SpaceRunAppend(spaces[1..], rest);
    }
  }

  /** A title that starts with a number not followed (after spaces) by a
      dash keeps its number: "1 Reis" stays "1 Reis". */
  lemma StripNumberPrefixNeedsDash(digits: string, sp: string, rest: string)
    requires digits != [] && AllDigits(digits) && AllSpaces(sp)
    requires rest == [] || (!IsSpace(rest[0]) && rest[0] != '-')
    requires sp != [] || rest == [] || !IsDigit(rest[0])
    ensures StripNumberPrefix(digits + sp + rest) == digits + sp + rest
  {
    var s := digits + sp + rest;
    var dash := |digits| + |sp|;
    assert PrefixMatch(s) == DashMatch(s, dash) by {
      var tail := sp + rest;
      assert s == digits + tail;
      LeadingDigitsAppend(digits, tail);
      assert s[|digits|..] == tail;
      SpaceRunAppend(sp, rest);
      PrefixMatchNumber(s, |digits|, |sp|);
    }
    assert DashMatch(s, dash) == 0 by {
      if dash < |s| {
        assert s[dash] == rest[0];
      }
    }
  }

  /** The hymn made of one entry. */
  function ToHymn(e: Entry): (h: Hymn)
    requires IsHymnEntry(e)
    ensures h.id == ParseInt(e.key)
    ensures h.title == StripNumberPrefix(e.value.hino.value)
    ensures e.value.coro.None? || e.value.coro == Some("") <==> h.chorus.None?
    ensures h.chorus.Some? ==> h.chorus == e.value.coro
    ensures h.stanzas == e.value.verses.GetOr([])
  {
    Hymn(
      ParseInt(e.key),
      StripNumberPrefix(e.value.hino.value),
      if e.value.coro.Some? && e.value.coro.value != "" then e.value.coro else None,
      e.value.verses.GetOr([]))
  }

  /** `getAllHymns`: the hymn of every hymn entry, in entry order. */
  function AllHymns(entries: seq<Entry>): (hymns: seq<Hymn>)
    ensures |hymns| <= |entries|
  {
    if entries == [] then []
    else
      var rest := AllHymns(entries[1..]);
      if IsHymnEntry(entries[0]) then [ToHymn(entries[0])] + rest else rest
  }

  /** The hymns are exactly the transforms of the hymn entries. */
  lemma {:induction false} AllHymnsMembers(entries: seq<Entry>, h: Hymn)
    ensures h in AllHymns(entries) <==> exists e :: e in entries && IsHymnEntry(e) && h == ToHymn(e)
  {
    if entries != [] {
      AllHymnsMembers(entries[1..], h);
      var e := entries[0];
      assert forall x :: x in entries[1..] ==> x in entries;
      assert forall x :: x in entries ==> x == e || x in entries[1..];
    }
  }

  /** The transform works entry by entry, so it keeps the entries' order. */
  lemma {:induction false} AllHymnsAppend(a: seq<Entry>, b: seq<Entry>)
    ensures AllHymns(a + b) == AllHymns(a) + AllHymns(b)
  {
    if a == [] {
      assert a + b == b;
    } else {
      assert (a + b)[1..] == a[1..] + b;
      AllHymnsAppend(a[1..], b);
    }
  }

  /** The metadata entry and entries without a title contribute nothing. */
  lemma SkippedEntry(e: Entry, rest: seq<Entry>)
    requires !IsHymnEntry(e)
    ensures AllHymns([e] + rest) == AllHymns(rest)
  {
    assert ([e] + rest)[1..] == rest;
  }

  /** `getHymnById(id)`: the first hymn whose number is `id` (`===`, so a
      NaN number matches nothing). */
  function GetHymnById(entries: seq<Entry>, id: Num): (r: Option<Hymn>)
    ensures r.Some? ==> r.value in AllHymns(entries) && r.value.id.Some? && id == Val(r.value.id.value as real)
    ensures r.None? <==> forall h :: h in AllHymns(entries) ==> h.id.None? || id != Val(h.id.value as real)
    ensures r.Some? ==> exists i :: (0 <= i < |AllHymns(entries)| && AllHymns(entries)[i] == r.value
      && forall j :: 0 <= j < i ==> AllHymns(entries)[j].id != r.value.id)
  {
    var hymns := AllHymns(entries);
    Find(hymns, (h: Hymn) => h.id.Some? && id == Val(h.id.value as real))
  }

  /** A hymn stored under a key that reads as n is found by number n (the
      first hymn numbered n, when several are). */
  lemma GetHymnByIdFindsKey(entries: seq<Entry>, n: nat, e: Entry)
    requires e in entries && IsHymnEntry(e) && ParseInt(e.key) == Some(n)
    ensures GetHymnById(entries, Val(n as real)).Some?
    ensures GetHymnById(entries, Val(n as real)).value.id == Some(n)
  {
    var h := ToHymn(e);
    assert h.id == Some(n);
    AllHymnsMembers(entries, h);
    var r := GetHymnById(entries, Val(n as real));
    assert r.Some?;
    SameNumber(r.value, n);
  }

  lemma SameNumber(h: Hymn, n: nat)
    requires h.id.Some? && Val(n as real) == Val(h.id.value as real)
    ensures h.id == Some(n)
  {
  }

  /** A NaN number finds no hymn. */
  lemma GetHymnByIdNaN(entries: seq<Entry>)
    ensures GetHymnById(entries, NaN) == None
  {
  }
}
