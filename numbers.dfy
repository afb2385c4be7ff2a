/** JavaScript numbers as the pages use them: `Number(s)`, `parseFloat`,
    `toString`, `toFixed`, `Math.round` and the truncating `%`.
    A number is NaN or an exact rational; floating-point rounding is not
    modelled. */
module JsNumbers {
  import opened Options
  import opened JsText

  datatype JsNumber = NaN | Num(value: real)

  /** `a + b`, where NaN absorbs everything. */
  function Add(a: JsNumber, b: JsNumber): (r: JsNumber)
    ensures r.Num? <==> a.Num? && b.Num?
  {
    if a.Num? && b.Num? then Num(a.value + b.value) else NaN
  }

  function DigitValue(c: char): (d: nat)
    requires IsDigit(c)
    ensures d < 10
  {
    c as int - '0' as int
  }

  function DigitChar(d: nat): (c: char)
    requires d < 10
    ensures IsDigit(c) && DigitValue(c) == d
  {
    ('0' as int + d) as char
  }

  function Pow10(k: nat): (r: nat)
    ensures r >= 1
  {
    if k == 0 then 1 else 10 * Pow10(k - 1)
  }

  /** The value of a run of decimal digits, most significant first. */
  function DigitsValue(s: string): nat
    requires AllDigits(s)
  {
    if s == [] then 0 else 10 * DigitsValue(s[..|s| - 1]) + DigitValue(s[|s| - 1])
  }

  /** The decimal digits of `n` without leading zeros. */
  function NatToDecimal(n: nat): (r: string)
    ensures |r| >= 1 && AllDigits(r)
  {
    if n < 10 then [DigitChar(n)] else NatToDecimal(n / 10) + [DigitChar(n % 10)]
  }

  /** Reading back the digits of `n` gives `n`. */
  lemma {:induction false} DecimalRoundTrip(n: nat)
    ensures DigitsValue(NatToDecimal(n)) == n
  {
    if n >= 10 {
      var s := NatToDecimal(n);
      assert s[..|s| - 1] == NatToDecimal(n / 10);
      DecimalRoundTrip(n / 10);
    }
  }

  /** Distinct numbers have distinct decimal renderings. */
  lemma NatToDecimalInjective(a: nat, b: nat)
    requires NatToDecimal(a) == NatToDecimal(b)
    ensures a == b
  {
    DecimalRoundTrip(a);
    DecimalRoundTrip(b);
  }

  /** The length of the run of digits that starts `s`. */
  function LeadingDigits(s: string): (k: nat)
    ensures k <= |s| && AllDigits(s[..k])
    ensures k == |s| || !IsDigit(s[k])
    ensures AllDigits(s) ==> k == |s|
  {
    if s != [] && IsDigit(s[0]) then
      var k := 1 + LeadingDigits(s[1..]);
      assert s[..k] == [s[0]] + s[1..][..k - 1];
      k
    else 0
  }

  /** A decimal literal found at the start of a string: its sign, its whole
      and fraction digits, and how many characters it spans. */
  datatype Literal = Literal(negative: bool, whole: string, fraction: string, length: nat)
  {
    ghost predicate Valid()
    {
      AllDigits(whole) && AllDigits(fraction) && |whole| + |fraction| > 0
    }

    function Value(): real
      requires Valid()
    {
      var magnitude := DigitsValue(whole) as real + DigitsValue(fraction) as real / Pow10(|fraction|) as real;
      if negative then -magnitude else magnitude
    }
  }

  /** The longest prefix of `s` of the form `[+-]? digits ('.' digits?)?` or
      `[+-]? '.' digits`; there must be at least one digit. */
  function ScanLiteral(s: string): (r: Option<Literal>)
    ensures r.Some? ==> r.value.Valid() && r.value.length <= |s|
  {
    var signLen := if |s| > 0 && (s[0] == '+' || s[0] == '-') then 1 else 0;
    var u := s[signLen..];
    var w := LeadingDigits(u);
    var rest := u[w..];
    var hasDot := |rest| > 0 && rest[0] == '.';
    var f := if hasDot then LeadingDigits(rest[1..]) else 0;
    if w == 0 && f == 0 then None
    else
      Some(Literal(signLen == 1 && s[0] == '-', u[..w], if hasDot then rest[1..][..f] else "",
                   signLen + w + (if hasDot then 1 + f else 0)))
  }

  /** `parseFloat(s)`: leading whitespace is skipped and the longest literal
      prefix is read; without one the result is NaN. */
  function ParseFloat(s: string): JsNumber
  {
    match ScanLiteral(TrimStart(s))
    case None => NaN
    case Some(l) => Num(l.Value())
  }

  /** `Number(s)`: the trimmed string must be empty (giving 0) or consist of
      one literal and nothing else. */
  function StringToNumber(s: string): JsNumber
  {
    var t := Trim(s);
    if t == [] then Num(0.0)
    else match ScanLiteral(t)
      case Some(l) => if l.length == |t| then Num(l.Value()) else NaN
      case None => NaN
  }

  /** A run of digits is read in full as a whole number. */
  lemma ScanDigits(s: string)
    requires |s| > 0 && AllDigits(s)
    ensures ScanLiteral(s) == Some(Literal(false, s, "", |s|))
    ensures ScanLiteral(s).value.Value() == DigitsValue(s) as real
  {
    assert !(s[0] == '+' || s[0] == '-');
    assert s[0..] == s;
    var w := LeadingDigits(s);
    assert w == |s|;
    assert s[w..] == [];
    assert s[..w] == s;
    var l := Literal(false, s, "", |s|);
    assert l.Value() == DigitsValue(s) as real + DigitsValue("") as real / Pow10(0) as real;
  }

  /** Both `parseFloat` and `Number` read the decimal rendering of a natural
      number back as that number. */
  lemma {:induction false} ParseDecimal(n: nat)
    ensures ParseFloat(NatToDecimal(n)) == Num(n as real)
    ensures StringToNumber(NatToDecimal(n)) == Num(n as real)
  {
    var s := NatToDecimal(n);
    assert !IsWhitespace(s[0]);
    assert TrimStart(s) == s;
    assert !IsWhitespace(s[|s| - 1]);
    assert Trim(s) == s;
    ScanDigits(s);
    DecimalRoundTrip(n);
  }

  /** The fraction digits of `f` in [0, 1), at most `n` of them, stopping
      as soon as the rest is zero. */
  function FractionDigits(f: real, n: nat): (r: string)
    requires 0.0 <= f < 1.0
    ensures AllDigits(r)
    decreases n
  {
    if n == 0 || f == 0.0 then ""
    else
      var d := (f * 10.0).Floor;
      [DigitChar(d as nat)] + FractionDigits(f * 10.0 - d as real, n - 1)
  }

  /** `x.toString()` for a finite number in plain-digit form, which
      JavaScript uses for 1e-6 <= |x| < 1e21: a minus sign, the whole part
      and, if there is one, the fraction. */
  function NumberToString(x: real): string
  {
    if x < 0.0 then "-" + NonNegativeToString(-x) else NonNegativeToString(x)
  }

  function NonNegativeToString(x: real): string
    requires x >= 0.0
  {
    var w := x.Floor;
    var f := x - w as real;
    NatToDecimal(w as nat) + (if f == 0.0 then "" else "." + FractionDigits(f, 20))
  }

  function JsNumberToString(x: JsNumber): string
  {
    match x
    case NaN => "NaN"
    case Num(v) => NumberToString(v)
  }

  /** A whole number prints as its decimal digits, so reading it back
      gives the same number. */
  lemma WholeNumberToString(n: nat)
    ensures NumberToString(n as real) == NatToDecimal(n)
    ensures ParseFloat(NumberToString(n as real)) == Num(n as real)
    ensures StringToNumber(NumberToString(n as real)) == Num(n as real)
  {
    assert (n as real).Floor == n;
    assert NonNegativeToString(n as real) == NatToDecimal(n);
    ParseDecimal(n);
  }

  /** `Math.round(x)`: the nearest integer, halves rounded up. */
  function Round(x: real): int
  {
    (x + 0.5).Floor
  }

  /** `Math.round` lands within one half of its argument and prefers the
      upper neighbour on a tie. */
  lemma RoundNearest(x: real)
    ensures x - 0.5 < Round(x) as real <= x + 0.5
  {
  }

  /** Truncation toward zero. */
  function Trunc(x: real): int
  {
    if x >= 0.0 then x.Floor else -((-x).Floor)
  }

  /** JavaScript's `x % y`: the remainder takes the sign of `x`. */
  function Rem(x: real, y: real): real
    requires y != 0.0
  {
    x - y * Trunc(x / y) as real
  }

  /** `x.toFixed(d)` for a finite `x` with |x| < 1e21 (above that
      JavaScript returns the exponent form of `toString`): the magnitude is
      rounded half up to `d` fraction digits and the sign is written in
      front. */
  function ToFixed(x: real, d: nat): string
  {
    if x < 0.0 then "-" + FixedNonNegative(-x, d) else FixedNonNegative(x, d)
  }

  function FixedNonNegative(x: real, d: nat): string
    requires x >= 0.0
  {
    var n := RoundedScaled(x, d);
    if d == 0 then NatToDecimal(n)
    else NatToDecimal(DropDigits(n, d)) + "." + PadDigits(n, d)
  }

  /** `x` times ten to the `d`, rounded half up. */
  function RoundedScaled(x: real, d: nat): nat
    requires x >= 0.0
  {
    var p := Pow10(d) as real;
    MulNonNegative(x, p);
    (x * p + 0.5).Floor
  }

  lemma MulNonNegative(a: real, b: real)
    requires a >= 0.0 && b >= 0.0
    ensures a * b >= 0.0
  {
  }

  /** `v` with its last `d` decimal digits dropped. */
  function DropDigits(v: nat, d: nat): nat
  {
    if d == 0 then v else DropDigits(v / 10, d - 1)
  }

  /** The last `d` decimal digits of `v`, with leading zeros. */
  function PadDigits(v: nat, d: nat): (r: string)
    ensures |r| == d && AllDigits(r)
  {
    if d == 0 then "" else PadDigits(v / 10, d - 1) + [DigitChar(v % 10)]
  }

  /** `toFixed(0)` prints only digits; `toFixed(d)` for `d > 0` prints
      digits, a point and exactly `d` fraction digits. */
  lemma FixedShape(x: real, d: nat)
    requires x >= 0.0
    ensures d == 0 ==> |ToFixed(x, d)| >= 1 && AllDigits(ToFixed(x, d))
    ensures d > 0 ==> var s := ToFixed(x, d);
      |s| >= d + 2 && s[|s| - d - 1] == '.' && AllDigits(s[..|s| - d - 1]) && AllDigits(s[|s| - d..])
  {
    if d > 0 {
      var n := RoundedScaled(x, d);
      var w, f := NatToDecimal(DropDigits(n, d)), PadDigits(n, d);
      var s := ToFixed(x, d);
      assert s == w + "." + f;
      assert s[..|s| - d - 1] == w;
      assert s[|s| - d..] == f;
    }
  }

  /** A whole number prints under `toFixed(0)` as its decimal digits. */
  lemma FixedWhole(n: nat)
    ensures ToFixed(n as real, 0) == NatToDecimal(n)
  {
    assert RoundedScaled(n as real, 0) == n;
  }

  /** On whole non-negative operands `%` is the remainder of Euclidean
      division. */
  lemma RemWhole(n: nat, m: nat)
    requires m >= 1
    ensures Rem(n as real, m as real) == (n % m) as real
  {
    var q, k := n / m, n % m;
    var fr := k as real / m as real;
    assert n as real == q as real * m as real + k as real;
    assert fr * m as real == k as real;
    assert 0.0 <= fr < 1.0;
    DivideExactly(n as real, m as real, q as real + fr);
    assert (n as real / m as real).Floor == q;
  }

  /** For a non-negative dividend, adding the divisor leaves the
      remainder unchanged. */
  lemma RemPeriodic(x: real, m: real)
    requires x >= 0.0 && m > 0.0
    ensures Rem(x + m, m) == Rem(x, m)
  {
    var q := x / m;
    assert q * m == x;
    assert (q + 1.0) * m == x + m;
    DivideExactly(x + m, m, q + 1.0);
    assert q >= 0.0;
    assert Trunc(q + 1.0) == Trunc(q) + 1;
  }

  lemma DivideExactly(a: real, m: real, b: real)
    requires m != 0.0 && b * m == a
    ensures a / m == b
  {
    assert (a / m - b) * m == 0.0;
  }
}
