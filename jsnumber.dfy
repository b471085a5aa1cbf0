/** The two number parsers the extension's pages use on text: `parseInt(s, 10)`
    on record ids and `parseFloat(s)` on the bed and bath inputs. Both skip
    leading whitespace, read an optional sign and the longest run of digits
    that follows, and give `NaN` (here `None`) when there is none. */
module JsNumber {
  import opened Seqs
  import opened JsText

  function Pow10(n: nat): (r: nat)
    ensures r >= 1
  {
    if n == 0 then 1 else 10 * Pow10(n - 1)
  }

  /** The length of the sign `+` or `-` at the start of `t`, if any. */
  function SignLength(t: string): (n: nat)
    ensures n <= |t|
  {
    if t != [] && (t[0] == '-' || t[0] == '+') then 1 else 0
  }

  function Signed(t: string, v: real): real {
    if t != [] && t[0] == '-' then -v else v
  }

  /** `parseInt(s, 10)`: the integer written by the digits after the leading
      whitespace and an optional sign. */
  function ParseInt(s: string): (r: Option<int>)
  {
    var t := TrimStart(s);
    var u := t[SignLength(t)..];
    var n := DigitRun(u, 0);
    if n == 0 then None
    else
      var v: int := DigitsValue(u[..n]);
      Some(if t[0] == '-' then -v else v)
  }

  /** `parseInt(s, 10) || 0`: `NaN` counts as 0. */
  function ParseIntOrZero(s: string): int {
    ParseInt(s).GetOr(0)
  }

  /** The value of a string of fraction digits: `d` over `10^|d|`. */
  function Fraction(d: string): (r: real)
    requires AllDigits(d)
  {
    DigitsValue(d) as real / Pow10(|d|) as real
  }

  /** The number of fraction digits after the `n` integer digits of `u`: the
      digits that follow a `.` right after them, if there is one. */
  function FractionDigits(u: string, n: nat): (m: nat)
    requires n <= |u|
    ensures m > 0 ==> n < |u| && u[n] == '.' && n + 1 + m <= |u| && AllDigits(u[n + 1..n + 1 + m])
  {
    if n < |u| && u[n] == '.' then DigitRun(u, n + 1) else 0
  }

  /** The value of the fraction digits after the `n` integer digits of `u`. */
  function FractionValue(u: string, n: nat): real
    requires n <= |u|
  {
    var m := FractionDigits(u, n);
    if m == 0 then 0.0 else Fraction(u[n + 1..n + 1 + m])
  }

  /** A decimal without sign: integer digits, then an optional `.` and more
      digits; at least one digit is needed. */
  function UnsignedFloat(u: string): Option<real> {
    var n := DigitRun(u, 0);
    if n + FractionDigits(u, n) == 0 then None
    else Some(DigitsValue(u[..n]) as real + FractionValue(u, n))
  }

  /** `parseFloat(s)` for decimal notation: the digits after the leading
      whitespace and an optional sign, followed by an optional `.` and more
      digits; at least one digit is needed. */
  function ParseFloat(s: string): (r: Option<real>)
  {
    var t := TrimStart(s);
    match UnsignedFloat(t[SignLength(t)..])
    case None => None
    case Some(v) => Some(Signed(t, v))
  }

  /** `parseFloat(s) || 0`: `NaN` counts as 0. */
  function ParseFloatOrZero(s: string): real {
    ParseFloat(s).GetOr(0.0)
  }

  // ------------------------------------------------------------- properties

  lemma DigitsNotSpace(d: string)
    requires |d| >= 1 && AllDigits(d)
    ensures TrimStart(d) == d
  {
    assert !IsSpace(d[0]);
  }

  /** `parseInt(n.toString(), 10)` is `n`: an id written by `Date.now().toString()`
      reads back as the time it was made. */
  lemma ParseIntOfNatToString(n: nat)
    ensures ParseInt(NatToString(n)) == Some(n)
  {
    var d := NatToString(n);
    DigitsNotSpace(d);
    assert SignLength(d) == 0 && d[0..] == d;
    DigitRunAll(d, 0);
    assert d[..|d|] == d;
    DigitsValueOfNatToString(n);
  }

  /** `parseFloat(n.toString())` is `n`. */
  lemma ParseFloatOfNatToString(n: nat)
    ensures ParseFloat(NatToString(n)) == Some(n as real)
  {
    var d := NatToString(n);
    DigitsNotSpace(d);
    assert SignLength(d) == 0 && d[0..] == d;
    DigitRunAll(d, 0);
    assert d[..|d|] == d;
    DigitsValueOfNatToString(n);
  }

  /** A half step of the number inputs, `"<n>.5"`, is read as `n + 0.5`. */
  lemma ParseFloatOfHalf(n: nat)
    ensures ParseFloat(NatToString(n) + ".5") == Some(n as real + 0.5)
  {
    DigitsValueOfNatToString(n);
    ParseFloatPointFive(NatToString(n));
  }

  lemma ParseFloatPointFive(d: string)
    requires |d| >= 1 && AllDigits(d)
    ensures ParseFloat(d + ".5") == Some(DigitsValue(d) as real + 0.5)
  {
    var s := d + ".5";
    PointFiveShape(d, s);
    PointFiveRuns(d, s);
    ParseFloatHalfParts(s, d);
  }

  lemma PointFiveShape(d: string, s: string)
    requires |d| >= 1 && AllDigits(d) && s == d + ".5"
    ensures |s| == |d| + 2 && s[..|d|] == d && s[|d|] == '.' && s[|d| + 1..|d| + 2] == "5"
    ensures TrimStart(s) == s && SignLength(s) == 0
  {
    assert s[0] == d[0];
    DigitFirstUntrimmed(s);
  }

  lemma DigitFirstUntrimmed(s: string)
    requires |s| >= 1 && IsDigit(s[0])
    ensures TrimStart(s) == s && SignLength(s) == 0
  {
    assert !IsSpace(s[0]);
    TrimStartStops(s, 0);
    assert s[0..] == s;
  }

  lemma PointFiveRuns(d: string, s: string)
    requires AllDigits(d) && |s| == |d| + 2 && s[..|d|] == d && s[|d|] == '.' && s[|d| + 1..|d| + 2] == "5"
    ensures DigitRun(s, 0) == |d| && DigitRun(s, |d| + 1) == 1
  {
    DigitRunPrefix(s, d);
    assert s[|d| + 1] == '5';
    assert DigitRun(s, |d| + 2) == 0;
  }

  lemma FractionOfFive()
    ensures Fraction("5") == 0.5
  {
    assert DigitsValue("5") == 5 by { assert "5"[..0] == ""; }
  }

  /** `parseFloat` of a text that starts with `n` digits and ends in ".5". */
  lemma ParseFloatHalfParts(s: string, d: string)
    requires |d| < |s| && s[..|d|] == d && TrimStart(s) == s && SignLength(s) == 0
    requires DigitRun(s, 0) == |d| && s[|d|] == '.' && DigitRun(s, |d| + 1) == 1 && s[|d| + 1..|d| + 2] == "5"
    ensures ParseFloat(s) == Some(DigitsValue(d) as real + 0.5)
  {
    var n := |d|;
    assert s[SignLength(s)..] == s;
    assert FractionDigits(s, n) == 1;
    FractionOfFive();
    assert FractionValue(s, n) == 0.5;
  }

  /** A text without a digit is `NaN` to `parseFloat`. */
  lemma ParseFloatNoDigit(s: string)
    requires forall i :: 0 <= i < |s| ==> !IsDigit(s[i])
    ensures ParseFloat(s) == None
  {
    var t := TrimStart(s);
    var a := |s| - |t| + SignLength(t);
    var u := t[SignLength(t)..];
    assert u == s[a..];
    NoDigitSuffix(s, a);
    NoDigitUnsigned(u);
  }

  lemma NoDigitSuffix(s: string, a: nat)
    requires a <= |s| && forall i :: 0 <= i < |s| ==> !IsDigit(s[i])
    ensures forall i :: 0 <= i < |s| - a ==> !IsDigit(s[a..][i])
  {
    forall i | 0 <= i < |s| - a ensures !IsDigit(s[a..][i]) {
      assert s[a..][i] == s[a + i];
    }
  }

  lemma NoDigitUnsigned(u: string)
    requires forall i :: 0 <= i < |u| ==> !IsDigit(u[i])
    ensures UnsignedFloat(u) == None
  {
    assert DigitRun(u, 0) == 0;
    if 0 < |u| && u[0] == '.' {
      assert DigitRun(u, 1) == 0;
    }
  }

  lemma {:induction false} DigitRunPrefix(s: string, d: string)
    requires AllDigits(d) && |d| < |s| && s[..|d|] == d && !IsDigit(s[|d|])
    ensures DigitRun(s, 0) == |d|
  {
    DigitRunFrom(s, d, 0);
  }

  lemma {:induction false} DigitRunFrom(s: string, d: string, p: nat)
    requires AllDigits(d) && |d| < |s| && s[..|d|] == d && !IsDigit(s[|d|]) && p <= |d|
    ensures DigitRun(s, p) == |d| - p
    decreases |d| - p
  {
    if p < |d| {
      assert s[p] == d[p];
      DigitRunFrom(s, d, p + 1);
    }
  }
}
