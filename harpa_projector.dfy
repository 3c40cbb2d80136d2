/** The hymn projector form (src/app/harpa/page.tsx): a hymn number typed
    in opens that hymn's presentation in a new tab. */
module HarpaProjector {
  import opened Wrappers
  import opened JsText
  import opened JsNumber
  import opened Outcomes

  /** `handleProjetar`: the typed text is tested with `Number` against
      1..640 (any value in (0, 640]), and the tab is opened on the text as
      typed. */
  function Project(input: string): (e: Effect)
    ensures e.OpenTab? <==>
      input != "" && ToNumber(input).Val? && 0.0 < ToNumber(input).r <= HymnCount as real
    ensures e.OpenTab? ==> e.path == "/harpa/apresentacao/" + input
    ensures !e.OpenTab? ==> e == Alert(HymnNumberAlert)
  {
    if input != "" && ToNumber(input).Val? && ToNumber(input).r > 0.0 && ToNumber(input).r <= HymnCount as real then
      OpenTab("/harpa/apresentacao/" + input)
    else Alert(HymnNumberAlert)
  }

  /** Every hymn number, typed plainly, opens its presentation. */
  lemma ProjectHymnNumber(n: nat)
    requires 1 <= n <= HymnCount
    ensures Project(ShowNat(n)) == OpenTab("/harpa/apresentacao/" + ShowNat(n))
  {
    ToNumberShowNat(n);
  }

  /** Zero and numbers past the last hymn are refused. */
  lemma ProjectOutOfRange(n: nat)
    requires n == 0 || n > HymnCount
    ensures Project(ShowNat(n)) == Alert(HymnNumberAlert)
  {
    ToNumberShowNat(n);
  }

  /** Negative numbers are refused. */
  lemma ProjectNegative(n: nat)
    ensures Project("-" + ShowNat(n)) == Alert(HymnNumberAlert)
  {
    ToNumberNegShowNat(n);
  }

  /** Text that is not a number (NaN) is refused. */
  lemma ProjectNotANumber(input: string, i: nat)
    requires i < |input| && !IsNumeralChar(input[i]) && !IsSpace(input[i])
    ensures Project(input) == Alert(HymnNumberAlert)
  {
    ToNumberForeignChar(input, i);
  }

  /** Since the range test is on the numeric value, a fractional number in
      range passes too, and the tab is opened on its text: "1.5" opens
      "/harpa/apresentacao/1.5". */
  lemma ProjectFraction()
    ensures Project("1.5") == OpenTab("/harpa/apresentacao/" + "1.5")
  {
    NumberOfOnePointFive();
  }

  /** `Number("1.5")` is 1.5. */
  lemma NumberOfOnePointFive()
    ensures ToNumber("1.5") == Val(1.5)
  {
    var sc := Scan(false, 1, 5, 1, 0, 3);
    assert ScanDecimal("1.5") == Some(sc) && IsDigit("1.5"[0]) && IsDigit("1.5"[2]) by {
      assert "1.5" == "1" + "." + "5";
      assert DigitsValue("1") == 1 && DigitsValue("5") == 5;
      ScanOfDecimal("1.5", "1", "5");
    }
    assert ScanValue(sc) == 1.5 by {
      ScanValueNoExponent(1, 5, 1, 3);
      assert Scale(5.0, -1) == 0.5;
    }
    assert ToNumber("1.5") == Val(ScanValue(sc)) by {
      ToNumberWhole("1.5", sc);
    }
  }
}
