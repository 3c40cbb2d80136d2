/** The hymnal lookup of src/lib/harpa.ts: the imported hymn array searched
    by number. */
module HarpaLib {
  import opened Wrappers
  import opened JsNumber
  import opened Seqs

  /** A hymn of the array: its number, title and stanzas (each a list of
      lines). */
  datatype HarpaHymn = HarpaHymn(id: int, title: string, estrofes: seq<seq<string>>)

  /** The `===` test of the lookup: a hymn matches a number equal to its
      own, and nothing matches NaN. */
  predicate HasNumber(h: HarpaHymn, id: Num) {
    id == Val(h.id as real)
  }

  /** `getHymnById(id)`: the first hymn of the array numbered `id`, or None
      (`undefined`) when no hymn has that number. */
  function GetHymnById(hymns: seq<HarpaHymn>, id: Num): (r: Option<HarpaHymn>)
    ensures r.Some? ==> r.value in hymns && HasNumber(r.value, id)
    ensures r.None? <==> forall h :: h in hymns ==> !HasNumber(h, id)
    ensures r.Some? ==> exists i :: (0 <= i < |hymns| && hymns[i] == r.value
      && forall j :: 0 <= j < i ==> !HasNumber(hymns[j], id))
  {
    Find(hymns, (h: HarpaHymn) => HasNumber(h, id))
  }

  /** A hymn of the array is found by its own number, and the one found
      carries that number (it is the first of the array to carry it). */
  lemma GetHymnByIdFindsNumber(hymns: seq<HarpaHymn>, h: HarpaHymn)
    requires h in hymns
    ensures GetHymnById(hymns, Val(h.id as real)).Some?
    ensures GetHymnById(hymns, Val(h.id as real)).value.id == h.id
  {
    assert HasNumber(h, Val(h.id as real));
  }

  /** A NaN number (`Number` of a non-numeric text) finds no hymn. */
  lemma GetHymnByIdNaN(hymns: seq<HarpaHymn>)
    ensures GetHymnById(hymns, NaN) == None
  {
  }

  /** A number that is not an integer finds no hymn. */
  lemma GetHymnByIdFraction(hymns: seq<HarpaHymn>, x: real)
    requires x.Floor as real != x
    ensures GetHymnById(hymns, Val(x)) == None
  {
  }
}
