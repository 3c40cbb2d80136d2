/** The hymn search box (src/app/harpa/HymnListPageClient.tsx): a hymn
    number typed in leads to that hymn's page. */
module HymnSearch {
  import opened JsText
  import opened JsNumber
  import opened Outcomes

  /** `handleSearch`: the typed text is read with `parseInt(_, 10)` and, when
      that is a number in 1..640, the route of that number is pushed. */
  function Search(input: string): (e: Effect)
    ensures e.Navigate? <==> ParseInt(input).Some? && 1 <= ParseInt(input).value <= HymnCount
    ensures e.Navigate? ==> e.path == "/harpa/" + ShowInt(ParseInt(input).value)
    ensures !e.Navigate? ==> e == Alert(HymnNumberAlert)
  {
    match ParseInt(input)
    case Some(id) =>
      if id > 0 && id <= HymnCount then Navigate("/harpa/" + ShowInt(id)) else Alert(HymnNumberAlert)
    case None => Alert(HymnNumberAlert)
  }

  /** A hymn number, followed by anything that does not continue it, leads
      to that hymn ("12", "12 ", "12abc" and "12.7" all go to hymn 12). */
  lemma SearchHymnNumber(n: nat, rest: string)
    requires 1 <= n <= HymnCount
    requires rest == [] || !IsDigit(rest[0])
    ensures Search(ShowNat(n) + rest) == Navigate("/harpa/" + ShowNat(n))
  {
    ParseIntShowNat(n, rest);
  }

  /** Zero and numbers past the last hymn are refused. */
  lemma SearchOutOfRange(n: nat, rest: string)
    requires n == 0 || n > HymnCount
    requires rest == [] || !IsDigit(rest[0])
    ensures Search(ShowNat(n) + rest) == Alert(HymnNumberAlert)
  {
    ParseIntShowNat(n, rest);
  }

  /** Text without leading digits is NaN to `parseInt` and refused. */
  lemma SearchNoDigits(input: string)
    requires var t := TrimStart(input); var u := t[SignLength(t)..]; u == [] || !IsDigit(u[0])
    ensures Search(input) == Alert(HymnNumberAlert)
  {
    ParseIntNoDigits(input);
  }
}
