/** JavaScript numbers as far as the backend uses them: `parseFloat`,
    `Number(string)`, `parseInt`, division and `toFixed(2)`. Values are exact
    reals; NaN is a separate value, and there are no infinities. */
module JsNumber {
  import opened Text

  datatype Number = NaN | Num(v: real)

  /* ---------------- decimal digits ---------------- */

  function DigitVal(c: char): (d: nat)
    ensures d < 10
  {
    if IsDigit(c) then (c as int - '0' as int) else 0
  }

  function DigitChar(d: nat): (c: char)
    requires d < 10
    ensures IsDigit(c) && DigitVal(c) == d
  {
    ('0' as int + d) as char
  }

  /** Value of a string of decimal digits, most significant first. */
  function DigitsValue(s: string): nat {
    if s == [] then 0 else DigitsValue(s[..|s| - 1]) * 10 + DigitVal(s[|s| - 1])
  }

  function Pow10(k: nat): (p: nat)
    ensures p >= 1
  {
    if k == 0 then 1 else 10 * Pow10(k - 1)
  }

  /** Decimal rendering of a natural number (`String(n)`), without leading zeros. */
  function NatToString(n: nat): string
  {
    if n < 10 then [DigitChar(n)] else NatToString(n / 10) + [DigitChar(n % 10)]
  }

  lemma {:induction false} NatToStringShape(n: nat)
    ensures NatToString(n) != []
    ensures AllChars(NatToString(n), IsDigit)
    ensures n > 0 ==> NatToString(n)[0] != '0'
    ensures DigitsValue(NatToString(n)) == n
  {
    if n >= 10 {
      NatToStringShape(n / 10);
      var t := NatToString(n / 10);
      var s := t + [DigitChar(n % 10)];
      assert s[..|s| - 1] == t;
      assert s[0] == t[0];
    }
  }

  /** A string of `n` digits has a value below 10^n. */
  lemma {:induction false} DigitsValueBound(s: string)
    ensures DigitsValue(s) < Pow10(|s|)
  {
    if s != [] {
      DigitsValueBound(s[..|s| - 1]);
      assert DigitsValue(s[..|s| - 1]) + 1 <= Pow10(|s| - 1);
      assert DigitsValue(s) < (DigitsValue(s[..|s| - 1]) + 1) * 10;
    }
  }

  /** The value read back from a rendering `NatToString(n)` is `n` itself. */
  lemma {:induction false} NatToStringRoundTrip(n: nat)
    ensures DigitsValue(NatToString(n)) == n
  {
    NatToStringShape(n);
  }

  /** `parseInt(s, 10)` on a non-empty string of decimal digits. */
  function ParseIntDigits(s: string): nat {
    DigitsValue(s)
  }

  /* ---------------- parseFloat ---------------- */

  /** Value of the digits `frac` read after a decimal point: each digit counts
      a tenth of the one before it. */
  function FracValue(frac: string): real {
    if frac == [] then 0.0 else (DigitVal(frac[0]) as real + FracValue(frac[1..])) / 10.0
  }

  /** Value of `whole "." frac` where both parts are digit strings. */
  function DecimalValue(whole: string, frac: string): real {
    DigitsValue(whole) as real + FracValue(frac)
  }

  /** Two decimals are a number of hundredths. */
  lemma {:induction false} FracValueCents(frac: string)
    requires |frac| == 2
    ensures FracValue(frac) == DigitsValue(frac) as real / 100.0
  {
    var a, b := DigitVal(frac[0]), DigitVal(frac[1]);
    assert frac[1..][1..] == [];
    assert FracValue(frac[1..]) == b as real / 10.0;
    assert frac[..1][..0] == [];
    assert DigitsValue(frac[..1]) == a;
    assert DigitsValue(frac) == a * 10 + b;
  }

  /** What a scan for an unsigned decimal number from position `p` finds:
      digits, an optional '.' and digits, at least one digit in all. */
  datatype Scan = NoDigits | Decimal(value: real, end: nat)

  function DecimalAt(t: string, p: nat): (r: Scan)
    ensures r.Decimal? ==> p < r.end <= |t|
  {
    var d1 := DigitRun(t, p);
    var dot := p + d1 < |t| && t[p + d1] == '.';
    var d2 := if dot then DigitRun(t, p + d1 + 1) else 0;
    if d1 == 0 && d2 == 0 then NoDigits
    else
      var end := p + d1 + (if dot then 1 + d2 else 0);
      Decimal(DecimalValue(t[p..p + d1], if dot then t[p + d1 + 1..end] else []), end)
  }

  /** The length of a leading sign. */
  function SignLength(t: string): (n: nat)
    ensures n <= 1 && n <= |t|
  {
    if |t| > 0 && (t[0] == '-' || t[0] == '+') then 1 else 0
  }

  /** `v` with the sign `t` starts with. */
  function Signed(t: string, v: real): real {
    if |t| > 0 && t[0] == '-' then -v else v
  }

  /** `parseFloat`: the longest prefix (after leading whitespace) that reads as
      an optionally signed decimal number with an optional exponent; NaN when
      there is none. The prefix "Infinity" has no value here, since the model
      has no infinite numbers, and reads as NaN. */
  function ParseFloat(s: string): Number {
    var t := TrimStart(s);
    match DecimalAt(t, SignLength(t))
    case NoDigits => NaN
    case Decimal(v, end) => Num(Signed(t, Scale(v, ExponentAt(t, end))))
  }

  /** The power of ten an exponent part (`e` or `E`, an optional sign,
      digits) starting at `i` gives; 0 when no such part is there, as when
      the `e` is not followed by digits. */
  function ExponentAt(t: string, i: nat): int {
    if i < |t| && (t[i] == 'e' || t[i] == 'E') then
      var signed := i + 1 < |t| && (t[i + 1] == '-' || t[i + 1] == '+');
      var q := if signed then i + 2 else i + 1;
      var n := DigitRun(t, q);
      if n == 0 then 0
      else if signed && t[i + 1] == '-' then -(DigitsValue(t[q..q + n]) as int)
      else DigitsValue(t[q..q + n])
    else 0
  }

  /** `v` times ten to the power `e`. */
  function Scale(v: real, e: int): real
    decreases if e < 0 then -e else e
  {
    if e == 0 then v else if e > 0 then Scale(v, e - 1) * 10.0 else Scale(v, e + 1) / 10.0
  }

  /** `Scale` is multiplication by a power of ten, and division for a
      negative power. */
  lemma {:induction false} ScalePow10(v: real, k: nat)
    ensures Scale(v, k) == v * Pow10(k) as real
    ensures Scale(v, -(k as int)) == v / Pow10(k) as real
  {
    if k > 0 {
      ScalePow10(v, k - 1);
      var p := Pow10(k - 1) as real;
      assert Pow10(k) as real == 10.0 * p;
      assert Scale(v, k) == v * p * 10.0;
      assert Scale(v, -(k as int)) == v / p / 10.0;
    }
  }

  /** `Number(s)` for a string: the whole trimmed string must read as a
      plain decimal number; the empty string reads as 0. An exponent, a radix
      prefix or "Infinity" reads as NaN here. */
  function ToNumber(s: string): Number {
    var t := Trim(s);
    if t == [] then Num(0.0)
    else
      var d := DecimalAt(t, SignLength(t));
      if d.NoDigits? || d.end != |t| then NaN else Num(Signed(t, d.value))
  }

  /** A run of digits from `p` to `n`, not followed by a digit or a '.',
      scans as the value of those digits. */
  lemma {:induction false} DecimalAtWhole(t: string, p: nat, n: nat)
    requires p < n <= |t| && forall k :: p <= k < n ==> IsDigit(t[k])
    requires n < |t| ==> !IsDigit(t[n]) && t[n] != '.'
    ensures DecimalAt(t, p) == Decimal(DigitsValue(t[p..n]) as real, n)
  {
    if n < |t| { DigitRunUpTo(t, p, n); } else { DigitRunAll(t, p); }
    DecimalValueWhole(t[p..n]);
  }

  /** `parseFloat` reads "<whole>e<exp>" as the whole part times ten to the
      power of the exponent (`ScalePow10`). */
  lemma {:induction false} ParseFloatExponent(whole: string, exp: string)
    requires whole != [] && AllChars(whole, IsDigit)
    requires exp != [] && AllChars(exp, IsDigit)
    ensures ParseFloat(whole + "e" + exp) == Num(Scale(DigitsValue(whole) as real, DigitsValue(exp)))
  {
    var t := whole + "e" + exp;
    var n := |whole|;
    assert ExponentAt(t, n) == DigitsValue(exp) by {
      assert t[n] == 'e' && t[n + 1..] == exp;
      ExponentAtOf(t, n, exp);
    }
    assert t[..n] == whole && t[n] == 'e';
    ParseFloatScientific(t, whole, DigitsValue(exp));
  }

  /** `parseFloat` reads "<whole>e-<exp>" as the whole part divided by ten to
      the power of the exponent (`ScalePow10`). */
  lemma {:induction false} ParseFloatNegativeExponent(whole: string, exp: string)
    requires whole != [] && AllChars(whole, IsDigit)
    requires exp != [] && AllChars(exp, IsDigit)
    ensures ParseFloat(whole + "e-" + exp) == Num(Scale(DigitsValue(whole) as real, -(DigitsValue(exp) as int)))
  {
    var t := whole + "e-" + exp;
    var e := -(DigitsValue(exp) as int);
    assert |whole| < |t| && t[..|whole|] == whole && t[|whole|] == 'e' && ExponentAt(t, |whole|) == e by {
      NegativeExponentParts(whole, exp);
    }
    ParseFloatScientific(t, whole, e);
  }

  /** The parts of "<whole>e-<exp>": the whole part, the 'e', and the
      negated exponent. */
  lemma {:induction false} NegativeExponentParts(whole: string, exp: string)
    requires exp != [] && AllChars(exp, IsDigit)
    ensures var t := whole + "e-" + exp;
      |whole| < |t| && t[..|whole|] == whole && t[|whole|] == 'e'
      && ExponentAt(t, |whole|) == -(DigitsValue(exp) as int)
  {
    var t := whole + "e-" + exp;
    var n := |whole|;
    assert t[n] == 'e' && t[n + 1..] == "-" + exp;
    ExponentAtOf(t, n, exp);
    assert t[..n] == whole;
  }

  /** Digits followed by an exponent part: the digits' value scaled by it. */
  lemma {:induction false} ParseFloatScientific(t: string, whole: string, e: int)
    requires whole != [] && AllChars(whole, IsDigit)
    requires |whole| < |t| && t[..|whole|] == whole
    requires t[|whole|] == 'e' && ExponentAt(t, |whole|) == e
    ensures ParseFloat(t) == Num(Scale(DigitsValue(whole) as real, e))
  {
    var n := |whole|;
    assert IsDigit(t[0]) by { assert t[0] == whole[0]; }
    TrimStartAtDigit(t);
    assert DecimalAt(t, 0) == Decimal(DigitsValue(whole) as real, n) by {
      assert forall k :: 0 <= k < n ==> t[k] == whole[k];
      DecimalAtWhole(t, 0, n);
      assert t[0..n] == whole;
    }
    ParseFloatUnsigned(t, DigitsValue(whole) as real, n, e);
  }

  /** An exponent part that runs to the end of the text gives the value of
      its digits, negated after a '-'. */
  lemma {:induction false} ExponentAtOf(t: string, i: nat, exp: string)
    requires exp != [] && AllChars(exp, IsDigit)
    requires i < |t| && t[i] == 'e'
    requires t[i + 1..] == exp || t[i + 1..] == "-" + exp
    ensures t[i + 1..] == exp ==> ExponentAt(t, i) == DigitsValue(exp)
    ensures t[i + 1..] == "-" + exp ==> ExponentAt(t, i) == -(DigitsValue(exp) as int)
  {
    if t[i + 1..] == exp {
      assert IsDigit(exp[0]) && t[i + 1] == exp[0];
      DigitRunAll(t, i + 1);
      assert t[i + 1..|t|] == exp;
    } else {
      assert t[i + 1] == '-';
      DigitRunAll(t, i + 2);
      assert t[i + 2..|t|] == exp;
    }
  }

  /** A string of decimal digits is read by `Number` as its digit value. */
  lemma {:induction false} ToNumberDigits(s: string)
    requires s != [] && AllChars(s, IsDigit)
    ensures ToNumber(s) == Num(DigitsValue(s) as real)
  {
    TrimStartDigits(s);
    TrimEndDigits(s);
    assert Trim(s) == s;
    assert IsDigit(s[0]);
    DecimalAtWhole(s, 0, |s|);
    assert s[0..|s|] == s;
  }

  lemma {:induction false} TrimStartAtDigit(s: string)
    requires s != [] && IsDigit(s[0])
    ensures TrimStart(s) == s
  {
    assert !IsSpace(s[0]);
  }

  lemma {:induction false} TrimStartDigits(s: string)
    requires s != [] && AllChars(s, IsDigit)
    ensures TrimStart(s) == s
  {
    assert !IsSpace(s[0]);
  }

  lemma {:induction false} TrimEndDigits(s: string)
    requires s != [] && AllChars(s, IsDigit)
    ensures TrimEnd(s) == s
  {
    assert !IsSpace(s[|s| - 1]);
  }

  lemma {:induction false} DigitRunAll(s: string, i: nat)
    requires i <= |s|
    requires forall k :: i <= k < |s| ==> IsDigit(s[k])
    ensures DigitRun(s, i) == |s| - i
    decreases |s| - i
  {
    if i < |s| { DigitRunAll(s, i + 1); }
  }

  /** `parseFloat` reads a string of decimal digits as its digit value. */
  lemma {:induction false} ParseFloatDigits(s: string)
    requires s != [] && AllChars(s, IsDigit)
    ensures ParseFloat(s) == Num(DigitsValue(s) as real)
  {
    TrimStartDigits(s);
    assert IsDigit(s[0]);
    DecimalAtWhole(s, 0, |s|);
    assert s[0..|s|] == s;
    ParseFloatUnsigned(s, DigitsValue(s) as real, |s|, 0);
  }

  lemma {:induction false} DecimalValueWhole(s: string)
    ensures DecimalValue(s, []) == DigitsValue(s) as real
  {
  }

  /** `parseFloat` reads "<whole>.<frac>" as the decimal value of the two parts. */
  lemma {:induction false} ParseFloatDecimal(whole: string, frac: string)
    requires whole != [] && AllChars(whole, IsDigit)
    requires frac != [] && AllChars(frac, IsDigit)
    ensures ParseFloat(whole + "." + frac) == Num(DecimalValue(whole, frac))
  {
    var t := whole + "." + frac;
    assert IsDigit(t[0]);
    TrimStartDigits(whole);
    assert TrimStart(t) == t;
    DecimalAtFraction(whole, frac);
    ParseFloatUnsigned(t, DecimalValue(whole, frac), |t|, 0);
  }

  /** "<whole>.<frac>" scans whole as the decimal value of the two parts. */
  lemma {:induction false} DecimalAtFraction(whole: string, frac: string)
    requires whole != [] && AllChars(whole, IsDigit)
    requires frac != [] && AllChars(frac, IsDigit)
    ensures DecimalAt(whole + "." + frac, 0) == Decimal(DecimalValue(whole, frac), |whole| + 1 + |frac|)
  {
    var t := whole + "." + frac;
    DigitRunAll(whole, 0);
    DigitRunPrefix(t, whole);
    assert t[|whole|] == '.';
    DigitRunAll(t, |whole| + 1);
    assert t[0..|whole|] == whole;
    assert t[|whole| + 1..|t|] == frac;
  }

  /** `parseFloat` of an unsigned text without leading whitespace is its
      scanned value scaled by its exponent part. */
  lemma {:induction false} ParseFloatUnsigned(t: string, v: real, end: nat, e: int)
    requires TrimStart(t) == t && |t| > 0 && IsDigit(t[0])
    requires DecimalAt(t, 0) == Decimal(v, end) && ExponentAt(t, end) == e
    ensures ParseFloat(t) == Num(Scale(v, e))
  {
    assert SignLength(t) == 0;
  }

  /** A run of digits at the start of `t` that stops where the prefix `w` does. */
  lemma {:induction false} DigitRunPrefix(t: string, w: string)
    requires |w| < |t| && w == t[..|w|] && AllChars(w, IsDigit) && !IsDigit(t[|w|])
    ensures DigitRun(t, 0) == |w|
  {
    DigitRunUpTo(t, 0, |w|);
  }

  lemma {:induction false} DigitRunUpTo(t: string, i: nat, n: nat)
    requires i <= n < |t| && !IsDigit(t[n])
    requires forall k :: i <= k < n ==> IsDigit(t[k])
    ensures DigitRun(t, i) == n - i
    decreases n - i
  {
    if i < n { DigitRunUpTo(t, i + 1, n); }
  }

  /* ---------------- arithmetic ---------------- */

  /** Truncation toward zero (`ToIntegerOrInfinity` on a finite value). */
  function Trunc(x: real): (t: int)
    ensures x >= 0.0 ==> t as real <= x < t as real + 1.0
    ensures x < 0.0 ==> t as real - 1.0 < x <= t as real
  {
    if x >= 0.0 then x.Floor else -((-x).Floor)
  }

  /** `x / k` for a positive divisor. */
  function DivBy(x: Number, k: real): (r: Number)
    requires k > 0.0
    ensures r.NaN? <==> x.NaN?
    ensures x.Num? ==> r.v * k == x.v
  {
    match x
    case NaN => NaN
    case Num(v) => Num(v / k)
  }

  /** `x - 1`. */
  function MinusOne(x: Number): (r: Number)
    ensures r.NaN? <==> x.NaN?
    ensures x.Num? ==> r.v + 1.0 == x.v
  {
    match x
    case NaN => NaN
    case Num(v) => Num(v - 1.0)
  }

  /** `y` is a whole number of hundredths. */
  predicate IsCents(y: real) {
    (y * 100.0).Floor as real == y * 100.0
  }

  /** Rounding to two decimals, as `Number(x.toFixed(2))`: the nearest multiple
      of 0.01, halves away from zero. */
  function Round2(x: Number): (r: Number)
    ensures r.NaN? <==> x.NaN?
    ensures x.Num? ==> IsCents(r.v)
    ensures x.Num? && x.v >= 0.0 ==> -0.005 < r.v - x.v <= 0.005
    ensures x.Num? && x.v < 0.0 ==> -0.005 <= r.v - x.v < 0.005
  {
    match x
    case NaN => NaN
    case Num(v) =>
      if v >= 0.0 then RoundHalfUp(v); Num((v * 100.0 + 0.5).Floor as real / 100.0)
      else RoundHalfUp(-v); Num(-(((-v) * 100.0 + 0.5).Floor as real / 100.0))
  }

  /** Rounding a non-negative value half up to hundredths lands in the window
      around it, on a whole number of hundredths, and so does its negation. */
  lemma {:induction false} RoundHalfUp(w: real)
    requires w >= 0.0
    ensures var c := (w * 100.0 + 0.5).Floor as real / 100.0;
      IsCents(c) && IsCents(-c) && -0.005 < c - w <= 0.005
  {
    var k := (w * 100.0 + 0.5).Floor;
    assert k as real <= w * 100.0 + 0.5 < k as real + 1.0;
    var c := k as real / 100.0;
    assert c - w == (k as real - w * 100.0) / 100.0;
    CentsOf(k);
    CentsOf(-k);
    assert -c == (-k) as real / 100.0;
  }

  /** A whole number of hundredths is cents. */
  lemma {:induction false} CentsOf(k: int)
    ensures IsCents(k as real / 100.0)
  {
    assert (k as real / 100.0) * 100.0 == k as real;
  }

  /** The window of `Round2` holds one multiple of 0.01 only: any whole number
      of hundredths in it is the rounded value. */
  lemma {:induction false} Round2Unique(x: Number, n: int)
    requires x.Num?
    requires x.v >= 0.0 ==> -0.005 < n as real / 100.0 - x.v <= 0.005
    requires x.v < 0.0 ==> -0.005 <= n as real / 100.0 - x.v < 0.005
    ensures Round2(x) == Num(n as real / 100.0)
  {
    var r := Round2(x).v;
    var k := (r * 100.0).Floor;
    assert r == k as real / 100.0;
    assert -1.0 < (k - n) as real < 1.0;
  }

  /** A value that already has at most two decimals is left unchanged by `Round2`. */
  lemma {:induction false} Round2OfCents(n: int)
    ensures Round2(Num(n as real / 100.0)) == Num(n as real / 100.0)
  {
    var v := n as real / 100.0;
    if v >= 0.0 {
      assert v * 100.0 + 0.5 == n as real + 0.5;
      assert (n as real + 0.5).Floor == n;
    } else {
      assert (-v) * 100.0 + 0.5 == (-n) as real + 0.5;
      assert ((-n) as real + 0.5).Floor == -n;
    }
  }

  /** Truthiness of a JavaScript number: NaN and 0 are falsy. */
  predicate Truthy(x: Number) {
    x.Num? && x.v != 0.0
  }
}
