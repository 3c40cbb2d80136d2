/** The JavaScript number conversions used by the pages: `parseInt(s, 10)`,
    `parseFloat(s)`, `Number(s)` for strings written in decimal notation, and
    the remainder operator `%`. A JavaScript number is modelled as a real or
    NaN; infinities and floating-point rounding are not modelled. */
module JsNumber {
  import opened JsText
  import opened Wrappers

  /** A JavaScript number: NaN or a finite value. */
  datatype Num = NaN | Val(r: real)

  /** The number of leading decimal digits of `s`. */
  function LeadingDigits(s: string): (n: nat)
    ensures n <= |s|
    ensures n == |s| || !IsDigit(s[n])
  {
    if |s| == 0 || !IsDigit(s[0]) then 0 else 1 + LeadingDigits(s[1..])
  }

  /** The characters counted are digits. */
  lemma {:induction false} LeadingDigitsSpan(s: string)
    ensures AllDigits(s[..LeadingDigits(s)])
  {
    if s != [] && IsDigit(s[0]) {
      LeadingDigitsSpan(s[1..]);
      var n := LeadingDigits(s);
      assert s[..n] == [s[0]] + s[1..][..n - 1];
    }
  }

  /** The leading digits of a digit string followed by a non-digit are
      exactly that digit string. */
  lemma {:induction false} LeadingDigitsAppend(ds: string, rest: string)
    requires AllDigits(ds)
    requires rest == [] || !IsDigit(rest[0])
    ensures LeadingDigits(ds + rest) == |ds|
  {
    if ds != [] {
      assert (ds + rest)[1..] == ds[1..] + rest;
      LeadingDigitsAppend(ds[1..], rest);
    }
  }

  /** `LeadingDigits` counts exactly the digits before the first
      non-digit. */
  lemma {:induction false} LeadingDigitsIs(s: string, n: nat)
    requires n <= |s| && AllDigits(s[..n]) && (n == |s| || !IsDigit(s[n]))
    ensures LeadingDigits(s) == n
  {
    if n > 0 {
      assert s[..n][0] == s[0];
      assert s[1..][..n - 1] == s[..n][1..];
      LeadingDigitsIs(s[1..], n - 1);
    }
  }

  /** 1 for a leading `+` or `-`, else 0. */
  function SignLength(t: string): (n: nat)
    ensures n <= |t|
  {
    if |t| > 0 && (t[0] == '+' || t[0] == '-') then 1 else 0
  }

  /** m * 10^e, one factor of ten at a time. */
  function Scale(m: real, e: int): real
    decreases if e >= 0 then e else -e
  {
    if e == 0 then m
    else if e > 0 then 10.0 * Scale(m, e - 1)
    else Scale(m, e + 1) / 10.0
  }

  /** A recognised literal: its sign, the values of its integer digits and
      of its fraction digits (and how many fraction digits there are), its
      exponent, and how many characters it spans. */
  datatype Scan = Scan(negative: bool, whole: nat, fraction: nat, fractionDigits: nat, exponent: int, length: nat)

  /** The number a recognised literal denotes. */
  function ScanValue(sc: Scan): real {
    var m := Scale(sc.whole as real + Scale(sc.fraction as real, -(sc.fractionDigits as int)), sc.exponent);
    if sc.negative then -m else m
  }

  /** A positive literal without exponent denotes its whole part plus its
      fraction. */
  lemma ScanValueNoExponent(whole: nat, fraction: nat, fractionDigits: nat, length: nat)
    ensures ScanValue(Scan(false, whole, fraction, fractionDigits, 0, length))
      == whole as real + Scale(fraction as real, -(fractionDigits as int))
  {
  }

  /** A literal without fraction or exponent denotes its whole part. */
  lemma ScanValueWhole(negative: bool, whole: nat, length: nat)
    ensures ScanValue(Scan(negative, whole, 0, 0, 0, length)) == if negative then -(whole as real) else whole as real
  {
  }

  /** The characters a decimal literal can be made of. */
  predicate IsNumeralChar(c: char) {
    IsDigit(c) || c == '+' || c == '-' || c == '.' || c == 'e' || c == 'E'
  }

  predicate AllNumeralChars(s: string) {
    forall i :: 0 <= i < |s| ==> IsNumeralChar(s[i])
  }

  /** The exponent part `(e|E)[+-]digits` at the start of `rest`, if any:
      its value and its length (0 when there is none). */
  function ScanExponent(rest: string): (r: (int, nat))
    ensures r.1 <= |rest|
  {
    if |rest| > 0 && (rest[0] == 'e' || rest[0] == 'E') then
      var v := rest[1..];
      var sl := SignLength(v);
      var w := v[sl..];
      var nd := LeadingDigits(w);
      if nd == 0 then (0, 0)
      else
        LeadingDigitsSpan(w);
        var mag: int := DigitsValue(w[..nd]);
        (if sl == 1 && v[0] == '-' then -mag else mag, 1 + sl + nd)
    else (0, 0)
  }

  /** The exponent part is made of numeral characters. */
  lemma ExponentNumeral(rest: string)
    ensures AllNumeralChars(rest[..ScanExponent(rest).1])
  {
    if |rest| > 0 && (rest[0] == 'e' || rest[0] == 'E') {
      var v := rest[1..];
      var sl := SignLength(v);
      var w := v[sl..];
      var nd := LeadingDigits(w);
      if nd > 0 {
        LeadingDigitsSpan(w);
        assert rest[..1 + sl + nd] == [rest[0]] + v[..sl] + w[..nd];
      }
    }
  }

  /** The length of the mantissa `digits[.digits?]` or `.digits` at the
      start of `u`; 0 when `u` does not start with one. */
  function MantissaLength(u: string): (len: nat)
    ensures len <= |u|
  {
    var ni := LeadingDigits(u);
    if ni < |u| && u[ni] == '.' then
      var nf := LeadingDigits(u[ni + 1..]);
      if ni == 0 && nf == 0 then 0 else ni + 1 + nf
    else ni
  }

  /** The mantissa is made of numeral characters. */
  lemma MantissaNumeral(u: string)
    ensures AllNumeralChars(u[..MantissaLength(u)])
  {
    var ni := LeadingDigits(u);
    LeadingDigitsSpan(u);
    if ni < |u| && u[ni] == '.' {
      var nf := LeadingDigits(u[ni + 1..]);
      LeadingDigitsSpan(u[ni + 1..]);
      if ni > 0 || nf > 0 {
        assert u[..ni + 1 + nf] == u[..ni] + [u[ni]] + u[ni + 1..][..nf];
      }
    }
  }

  /** The values of the integer and fraction digits of the mantissa at the
      start of `u`, and the number of fraction digits. */
  function MantissaDigits(u: string): (nat, nat, nat) {
    var ni := LeadingDigits(u);
    LeadingDigitsSpan(u);
    var whole := DigitsValue(u[..ni]);
    if ni < |u| && u[ni] == '.' then
      var f := u[ni + 1..];
      var nf := LeadingDigits(f);
      LeadingDigitsSpan(f);
      (whole, DigitsValue(f[..nf]), nf)
    else (whole, 0, 0)
  }

  lemma NumeralConcat(a: string, b: string)
    requires AllNumeralChars(a) && AllNumeralChars(b)
    ensures AllNumeralChars(a + b)
  {
  }

  /** A sign, a mantissa and an exponent part are all numeral characters. */
  lemma NumeralPrefix(t: string, sl: nat, ml: nat, el: nat)
    requires sl == SignLength(t)
    requires ml <= |t| - sl && AllNumeralChars(t[sl..][..ml])
    requires el <= |t| - sl - ml && AllNumeralChars(t[sl..][ml..][..el])
    ensures AllNumeralChars(t[..sl + ml + el])
  {
    var u := t[sl..];
    assert AllNumeralChars(t[..sl]);
    NumeralConcat(t[..sl], u[..ml]);
    assert t[..sl + ml] == t[..sl] + u[..ml] by {
      SliceJoin(t, sl, ml);
    }
    NumeralConcat(t[..sl + ml], u[ml..][..el]);
    assert t[..sl + ml + el] == t[..sl + ml] + u[ml..][..el] by {
      SliceJoin(t, sl + ml, el);
      assert u[ml..][..el] == t[sl + ml..][..el];
    }
  }

  /** The first `i + n` elements are the first `i` and the `n` after them. */
  lemma SliceJoin(t: string, i: nat, n: nat)
    requires i + n <= |t|
    ensures t[..i + n] == t[..i] + t[i..][..n]
  {
    assert forall k :: 0 <= k < i + n ==> t[..i + n][k] == (t[..i] + t[i..][..n])[k];
  }

  /** The longest prefix of `t` that is a decimal literal
      `[+-](digits[.digits?] | .digits)[(e|E)[+-]digits]`, or None when no
      prefix is one. */
  function ScanDecimal(t: string): (r: Option<Scan>)
    ensures r.Some? ==> 0 < r.value.length <= |t|
  {
    var sl := SignLength(t);
    var u := t[sl..];
    var ml := MantissaLength(u);
    if ml == 0 then None
    else
      var ex := ScanExponent(u[ml..]);
      var m := MantissaDigits(u);
      Some(Scan(sl == 1 && t[0] == '-', m.0, m.1, m.2, ex.0, sl + ml + ex.1))
  }

  /** A recognised literal is made of numeral characters. */
  lemma ScanNumeral(t: string)
    requires ScanDecimal(t).Some?
    ensures AllNumeralChars(t[..ScanDecimal(t).value.length])
  {
    var sl := SignLength(t);
    var u := t[sl..];
    var ml := MantissaLength(u);
    var el := ScanExponent(u[ml..]).1;
    ScanLength(t);
    assert AllNumeralChars(t[..sl + ml + el]) by {
      MantissaNumeral(u);
      ExponentNumeral(u[ml..]);
      NumeralPrefix(t, sl, ml, el);
    }
  }

  /** A literal spans its sign, its mantissa and its exponent part. */
  lemma ScanLength(t: string)
    requires ScanDecimal(t).Some?
    ensures var u := t[SignLength(t)..]; var ml := MantissaLength(u);
      ScanDecimal(t).value.length == SignLength(t) + ml + ScanExponent(u[ml..]).1
  {
  }

  /** `parseInt(s, 10)`: skip leading whitespace, an optional sign, then the
      longest run of decimal digits; NaN (None) when that run is empty. */
  function ParseInt(s: string): (r: Option<int>)
  {
    var t := TrimStart(s);
    var sl := SignLength(t);
    var u := t[sl..];
    var n := LeadingDigits(u);
    if n == 0 then None
    else
      LeadingDigitsSpan(u);
      var mag: int := DigitsValue(u[..n]);
      Some(if sl == 1 && t[0] == '-' then -mag else mag)
  }

  /** `parseFloat(s)`: skip leading whitespace and read the longest decimal
      literal prefix; NaN when there is none. */
  function ParseFloat(s: string): (r: Num)
  {
    match ScanDecimal(TrimStart(s))
    case None => NaN
    case Some(sc) => Val(ScanValue(sc))
  }

  /** `Number(s)` for a string: the whitespace-trimmed string must be one
      decimal literal in full; the empty (or all-whitespace) string is 0. */
  function ToNumber(s: string): (r: Num)
  {
    var t := Trim(s);
    if t == "" then Val(0.0)
    else match ScanDecimal(t)
      case Some(sc) => if sc.length == |t| then Val(ScanValue(sc)) else NaN
      case None => NaN
  }

  /** `parseInt` reads the decimal rendering of `n` back as `n`, whatever
      non-digit text follows it (so "12abc" and "12.7" both read as 12). */
  lemma ParseIntShowNat(n: nat, rest: string)
    requires rest == [] || !IsDigit(rest[0])
    ensures ParseInt(ShowNat(n) + rest) == Some(n)
  {
    var s := ShowNat(n) + rest;
    assert s[0] == ShowNat(n)[0];
    TrimStartNoSpace(s);
    assert SignLength(s) == 0;
    assert s[0..] == s;
    LeadingDigitsAppend(ShowNat(n), rest);
    assert s[..|ShowNat(n)|] == ShowNat(n);
    DigitsValueShowNat(n);
  }

  /** Text whose first non-blank character (after an optional sign) is not a
      digit has no integer reading. */
  lemma ParseIntNoDigits(s: string)
    requires var t := TrimStart(s); var u := t[SignLength(t)..]; u == [] || !IsDigit(u[0])
    ensures ParseInt(s) == None
  {
  }

  /** A digit string is a whole mantissa, with no fraction digits. */
  lemma MantissaOfDigits(d: string)
    requires d != [] && AllDigits(d)
    ensures MantissaLength(d) == |d| && MantissaDigits(d) == (DigitsValue(d), 0, 0)
  {
    LeadingDigitsAppend(d, []);
    assert d + [] == d;
    assert d[..|d|] == d;
  }

  /** A digit string is read in full as a whole number. */
  lemma ScanOfDigits(d: string)
    requires d != [] && AllDigits(d)
    ensures ScanDecimal(d) == Some(Scan(false, DigitsValue(d), 0, 0, 0, |d|))
  {
    MantissaOfDigits(d);
    ScanWithoutExponent(d, 0, d);
  }

  /** A minus sign and a digit string are read in full as a negative whole
      number. */
  lemma ScanOfNegDigits(d: string)
    requires d != [] && AllDigits(d)
    ensures ScanDecimal("-" + d) == Some(Scan(true, DigitsValue(d), 0, 0, 0, |d| + 1))
  {
    var t := "-" + d;
    MantissaOfDigits(d);
    ScanWithoutExponent(t, 1, d);
  }

  /** Digits, a point and digits make a whole mantissa with that fraction. */
  lemma MantissaOfDecimal(w: string, f: string)
    requires w != [] && AllDigits(w) && f != [] && AllDigits(f)
    ensures var u := w + "." + f;
      MantissaLength(u) == |u| && MantissaDigits(u) == (DigitsValue(w), DigitsValue(f), |f|)
  {
    var u := w + "." + f;
    assert u == w + ("." + f);
    LeadingDigitsAppend(w, "." + f);
    assert u[..|w|] == w;
    assert u[|w| + 1..] == f;
    LeadingDigitsAppend(f, []);
    assert f + [] == f;
    assert f[..|f|] == f;
  }

  /** Digits, a point and digits are read in full as a decimal. */
  lemma ScanOfDecimal(t: string, w: string, f: string)
    requires w != [] && AllDigits(w) && f != [] && AllDigits(f) && t == w + "." + f
    ensures ScanDecimal(t) == Some(Scan(false, DigitsValue(w), DigitsValue(f), |f|, 0, |t|))
    ensures IsDigit(t[0]) && IsDigit(t[|t| - 1])
  {
    MantissaOfDecimal(w, f);
    assert t[0..] == t && t[0] == w[0] && t[|t| - 1] == f[|f| - 1];
    ScanWithoutExponent(t, 0, t);
  }

  /** Text with no surrounding blanks that is one literal in full. */
  lemma ToNumberWhole(s: string, sc: Scan)
    requires s != [] && (IsDigit(s[0]) || s[0] == '-') && IsDigit(s[|s| - 1])
    requires ScanDecimal(s) == Some(sc) && sc.length == |s|
    ensures ToNumber(s) == Val(ScanValue(sc))
  {
    DigitNotSpace(s[|s| - 1]);
    TrimStartNoSpace(s);
    TrimEndNoSpace(s);
    ToNumberOfScan(s, sc);
  }

  /** A literal that is a sign of length `sl` followed by a whole mantissa
      `u`, with no exponent. */
  lemma ScanWithoutExponent(t: string, sl: nat, u: string)
    requires sl == SignLength(t) && u == t[sl..]
    requires 0 < MantissaLength(u) == |u|
    ensures var m := MantissaDigits(u);
      ScanDecimal(t) == Some(Scan(sl == 1 && t[0] == '-', m.0, m.1, m.2, 0, |t|))
  {
    assert u[|u|..] == [];
  }

  /** `Number` of the decimal rendering of `n` is `n`. */
  lemma ToNumberShowNat(n: nat)
    ensures ToNumber(ShowNat(n)) == Val(n as real)
  {
    var s := ShowNat(n);
    TrimStartNoSpace(s);
    TrimEndNoSpace(s);
    ScanOfDigits(s);
    ScanValueWhole(false, DigitsValue(s), |s|);
    DigitsValueShowNat(n);
  }

  /** `Number` of a minus sign followed by the rendering of `n` is -n. */
  lemma ToNumberNegShowNat(n: nat)
    ensures ToNumber("-" + ShowNat(n)) == Val(-(n as real))
  {
    ToNumberNegDigits(ShowNat(n));
    DigitsValueShowNat(n);
  }

  /** `Number` of a minus sign followed by digits is minus their value. */
  lemma ToNumberNegDigits(d: string)
    requires d != [] && AllDigits(d)
    ensures ToNumber("-" + d) == Val(-(DigitsValue(d) as real))
  {
    ScanOfNegDigits(d);
    NegDigitsTrimmed(d);
    ToNumberNegWhole("-" + d, DigitsValue(d));
  }

  /** A trimmed text that one negative whole literal covers in full. */
  lemma ToNumberNegWhole(t: string, w: nat)
    requires t != [] && TrimStart(t) == t && TrimEnd(t) == t
    requires ScanDecimal(t) == Some(Scan(true, w, 0, 0, 0, |t|))
    ensures ToNumber(t) == Val(-(w as real))
  {
    ToNumberOfScan(t, Scan(true, w, 0, 0, 0, |t|));
    ScanValueWhole(true, w, |t|);
  }

  /** Text with no blanks around it that one literal covers in full is the
      value of that literal. */
  lemma ToNumberOfScan(t: string, sc: Scan)
    requires t != [] && TrimStart(t) == t && TrimEnd(t) == t
    requires ScanDecimal(t) == Some(sc) && sc.length == |t|
    ensures ToNumber(t) == Val(ScanValue(sc))
  {
  }

  /** A minus sign followed by digits has no blanks to trim. */
  lemma NegDigitsTrimmed(d: string)
    requires d != [] && AllDigits(d)
    ensures TrimStart("-" + d) == "-" + d && TrimEnd("-" + d) == "-" + d
  {
    var s := "-" + d;
    var c := d[|d| - 1];
    DigitNotSpace(c);
    assert s[0] == '-' && s[|s| - 1] == c;
    TrimStartNoSpace(s);
    TrimEndNoSpace(s);
  }

  /** `parseFloat` of the decimal rendering of `n` is `n`. */
  lemma ParseFloatShowNat(n: nat)
    ensures ParseFloat(ShowNat(n)) == Val(n as real)
  {
    var s := ShowNat(n);
    TrimStartNoSpace(s);
    ScanOfDigits(s);
    ScanValueWhole(false, DigitsValue(s), |s|);
    DigitsValueShowNat(n);
  }

  /** `Number` is NaN for any text holding a character that can appear
      neither in a decimal literal nor in surrounding whitespace. */
  lemma ToNumberForeignChar(s: string, i: nat)
    requires i < |s| && !IsNumeralChar(s[i]) && !IsSpace(s[i])
    ensures ToNumber(s) == NaN
  {
    TrimKeeps(s, i);
    var t := Trim(s);
    ScanStopsAt(t, i - (|s| - |TrimStart(s)|));
  }

  /** A literal never reaches past a character no literal contains. */
  lemma ScanStopsAt(t: string, j: nat)
    requires j < |t| && !IsNumeralChar(t[j])
    ensures ScanDecimal(t).None? || ScanDecimal(t).value.length <= j
  {
    var r := ScanDecimal(t);
    if r.Some? {
      ScanNumeral(t);
      assert forall m :: 0 <= m < r.value.length ==> t[..r.value.length][m] == t[m];
    }
  }

  /** `parseFloat` is NaN for text whose first non-blank character cannot
      start a decimal literal. */
  lemma ParseFloatNoNumeral(s: string)
    requires var t := TrimStart(s); t == [] || !IsNumeralChar(t[0])
    ensures ParseFloat(s) == NaN
  {
    var t := TrimStart(s);
    if ScanDecimal(t).Some? {
      ScanNumeral(t);
    }
  }

  /** JavaScript's `a % b` for a positive divisor: the remainder of
      truncating division, whose sign follows the dividend (Dafny's `%` is
      Euclidean). */
  function JsRem(a: int, b: int): (r: int)
    requires b > 0
    ensures -b < r < b
    ensures a >= 0 ==> 0 <= r && r == a % b
    ensures a < 0 ==> r <= 0 && -r == (-a) % b
  {
    if a >= 0 then a % b else -((-a) % b)
  }
}
