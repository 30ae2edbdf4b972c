/** The helper functions at the top of the price-recommendation service:
    reading Brazilian decimals, the per-kilogram price, the stored product
    name, the bulletin date, the source ranking and the locality strip. */
module PriceHelpers {
  import opened Wrappers
  import opened Text
  import opened JsNumber
  import opened JsDate
  import opened PriceAmounts
  import opened AgrolinkName

  /* ---------------- parseDecimal ---------------- */

  predicate IsNotDot(c: char) { c != '.' }

  /** `parseDecimal`: every '.' (thousands separator) dropped, the first ','
      read as the decimal point. */
  function ParseDecimal(v: string): Number {
    ReadNumber(Keep(v, IsNotDot))
  }

  /** The number of cents an amount "d.ddd,dd" denotes. */
  function AmountCents(m: string): nat
    requires |m| >= 3
  {
    DigitsValue(Keep(m[..|m| - 3], IsNotDot)) * 100 + DigitsValue(m[|m| - 2..])
  }

  /** An amount reads as its whole number of cents divided by 100, so it is
      never NaN. */
  lemma {:induction false} ParseDecimalAmount(m: string)
    requires AmountShape(m)
    ensures ParseDecimal(m) == Num(AmountCents(m) as real / 100.0)
  {
    var w := m[..|m| - 3];
    var f := m[|m| - 2..];
    var wd := Keep(w, IsNotDot);
    KeepAmount(m);
    WholeDigits(w);
    FracDigits(m);
    ReadNumberComma(wd, f);
    ParseDecimalOf(m, wd + "," + f);
    CentsValue(wd, f);
    CentsOf(m, wd, f);
  }

  /** Rounding an amount to two decimals changes nothing. */
  lemma {:induction false} Round2Amount(m: string)
    requires AmountShape(m)
    ensures Round2(ParseDecimal(m)) == ParseDecimal(m)
  {
    var x := ParseDecimal(m);
    assert x == Num(AmountCents(m) as real / 100.0) by {
      ParseDecimalAmount(m);
    }
    Round2OfCentsAt(x, AmountCents(m));
  }

  lemma {:induction false} Round2OfCentsAt(x: Number, n: int)
    requires x == Num(n as real / 100.0)
    ensures Round2(x) == x
  {
    Round2OfCents(n);
  }

  lemma {:induction false} ParseDecimalOf(m: string, t: string)
    requires Keep(m, IsNotDot) == t
    ensures ParseDecimal(m) == ReadNumber(t)
  {
  }

  lemma {:induction false} CentsOf(m: string, wd: string, f: string)
    requires |m| >= 3 && wd == Keep(m[..|m| - 3], IsNotDot) && f == m[|m| - 2..]
    requires ParseDecimal(m) == Num(DecimalValue(wd, f))
    requires DecimalValue(wd, f) == (DigitsValue(wd) * 100 + DigitsValue(f)) as real / 100.0
    ensures ParseDecimal(m) == Num(AmountCents(m) as real / 100.0)
  {
  }

  /** Dropping the dots of an amount leaves its whole part, the comma and the
      two decimals. */
  lemma {:induction false} KeepAmount(m: string)
    requires AmountShape(m)
    ensures Keep(m, IsNotDot) == Keep(m[..|m| - 3], IsNotDot) + "," + m[|m| - 2..]
  {
    var w, c := m[..|m| - 3], m[|m| - 3..];
    assert m == w + c;
    assert c == [',', m[|m| - 2], m[|m| - 1]];
    assert AllChars(c, IsNotDot);
    KeepTail(m, w, c);
  }

  /** A tail without dots is kept whole. */
  lemma {:induction false} KeepTail(m: string, w: string, c: string)
    requires m == w + c && AllChars(c, IsNotDot)
    ensures Keep(m, IsNotDot) == Keep(w, IsNotDot) + c
  {
    KeepConcat(w, c, IsNotDot);
    KeepAll(c, IsNotDot);
  }

  lemma {:induction false} FracDigits(m: string)
    requires AmountShape(m)
    ensures AllChars(m[|m| - 2..], IsDigit)
  {
    var f := m[|m| - 2..];
    forall k | 0 <= k < |f| ensures IsDigit(f[k]) { assert f[k] == m[|m| - 2 + k]; }
  }

  /** The digits before the comma survive the dot removal and are not empty. */
  lemma {:induction false} WholeDigits(w: string)
    requires w != [] && IsDigit(w[0]) && AllChars(w, IsDigitOrDot)
    ensures Keep(w, IsNotDot) != [] && AllChars(Keep(w, IsNotDot), IsDigit)
  {
    var wd := Keep(w, IsNotDot);
    assert wd == [w[0]] + Keep(w[1..], IsNotDot);
    KeepKeeps(w, IsNotDot, IsDigitOrDot);
    forall k | 0 <= k < |wd| ensures IsDigit(wd[k]) {
      assert IsNotDot(wd[k]) && IsDigitOrDot(wd[k]);
    }
  }

  lemma {:induction false} CentsValue(whole: string, frac: string)
    requires |frac| == 2
    ensures DecimalValue(whole, frac) == (DigitsValue(whole) * 100 + DigitsValue(frac)) as real / 100.0
  {
    FracValueCents(frac);
  }

  lemma ExampleAmountShape()
    ensures AmountShape("62,80")
  {
    assert "62,80"[..2] == "62";
  }

  lemma ExampleAmountCents()
    ensures AmountCents("62,80") == 6280
  {
    assert "62,80"[..2] == "62" && "62,80"[3..] == "80";
    KeepAll("62", IsNotDot);
    assert DigitsValue("62") == 62 && DigitsValue("80") == 80;
  }

  /** The bulletin price "62,80" reads as 62.8. */
  lemma ParseDecimalExample()
    ensures ParseDecimal("62,80") == Num(62.8)
  {
    ExampleAmountShape();
    ParseDecimalAmount("62,80");
    ExampleAmountCents();
  }

  /* ---------------- computePricePerKg ---------------- */

  /** `computePricePerKg`: the price of one kilogram, rounded to two decimals,
      when the weight is a positive number; null otherwise (null, 0, NaN). */
  function ComputePricePerKg(price: Number, unitKg: Option<Number>): (r: Option<Number>)
    ensures r.Some? <==> unitKg.Some? && unitKg.value.Num? && unitKg.value.v > 0.0
    ensures r.Some? ==> (r.value.NaN? <==> price.NaN?)
    ensures r.Some? && price.Num? ==> IsCents(r.value.v)
    ensures r.Some? && price.Num? ==> -0.005 <= r.value.v - price.v / unitKg.value.v <= 0.005
    ensures r.Some? && price.Num? && price.v >= 0.0 ==> r.value.v - price.v / unitKg.value.v > -0.005
    ensures r.Some? && price.Num? && price.v < 0.0 ==> r.value.v - price.v / unitKg.value.v < 0.005
  {
    if unitKg.Some? && Truthy(unitKg.value) && unitKg.value.v > 0.0
    then Some(Round2(DivBy(price, unitKg.value.v))) else None
  }

  /** 62.80 for a 10 kg box is 6.28 per kilogram. */
  lemma PricePerKgExample()
    ensures ComputePricePerKg(Num(62.8), Some(Num(10.0))) == Some(Num(6.28))
  {
    assert DivBy(Num(62.8), 10.0) == Num(628 as real / 100.0);
    Round2OfCents(628);
  }

  /* ---------------- sanitizeProductNameForDb ---------------- */

  /** `sanitizeProductNameForDb`: the cleaned name with long whitespace runs
      collapsed, trimmed and upper-cased; null when that is empty. */
  function SanitizeProductNameForDb(raw: string): (r: Option<string>)
    ensures r.Some? ==> r.value != []
  {
    var cleaned := ToUpper(Trim(ReplaceAll(CleanProductName(raw), LongSpacesMatch)));
    if cleaned == [] then None else Some(cleaned)
  }

  /** The collapse and trim are no-ops on a cleaned name: the stored name is
      the upper-cased cleaned name, and there is one exactly when the label
      has a non-whitespace character. */
  lemma {:induction false} SanitizeSpec(raw: string)
    ensures SanitizeProductNameForDb(raw).Some? <==> HasNonSpace(raw)
    ensures HasNonSpace(raw) ==> SanitizeProductNameForDb(raw) == Some(ToUpper(CleanProductName(raw)))
  {
    SanitizeOfClean(raw);
    CleanProductNameSpec(raw);
    assert CleanProductName(raw) == [] <==> !HasNonSpace(raw);
  }

  lemma {:induction false} SanitizeOfClean(raw: string)
    ensures var c := CleanProductName(raw);
      SanitizeProductNameForDb(raw) == if c == [] then None else Some(ToUpper(c))
  {
    CleanProductNameSpec(raw);
    UpperOfNormalized(CleanProductName(raw));
  }

  /** On a normalized name the collapse of long whitespace runs and the trim
      change nothing. */
  lemma {:induction false} UpperOfNormalized(c: string)
    requires IsNormalized(c)
    ensures ToUpper(Trim(ReplaceAll(c, LongSpacesMatch))) == ToUpper(c)
    ensures ToUpper(c) == [] <==> c == []
  {
    NormalizedNoLongSpaces(c);
    TrimNormalized(c);
  }

  /* ---------------- dates ---------------- */

  /** `s.padStart(2, '0')`. */
  function PadStart2(s: string): (r: string)
    ensures |r| >= 2 && |r| >= |s|
    ensures r[|r| - |s|..] == s
    ensures |s| >= 2 ==> r == s
  {
    if |s| >= 2 then s else if |s| == 1 then "0" + s else "00"
  }

  /** `parseDateBRtoUS`: "dd/mm/yyyy" to "yyyy-mm-dd". Without a '/' there is
      no month and `padStart` throws a TypeError (None); a missing year is
      printed as "undefined". */
  function ParseDateBRtoUS(dmy: string): Option<string> {
    var parts := Split(dmy, '/');
    if |parts| < 2 then None
    else
      var year := if |parts| >= 3 then parts[2] else "undefined";
      Some(year + "-" + PadStart2(parts[1]) + "-" + PadStart2(parts[0]))
  }

  /** `dateBRToUTCDate`: the pieces read by `Number` (a missing one is NaN)
      into `Date.UTC(yyyy, mm - 1, dd)`. `Ok(None)` is the invalid date and
      `Err` the TypeError of `parseDateBRtoUS`. */
  function DateBRToUTCDate(dmy: string): Result<Option<int>, string> {
    match ParseDateBRtoUS(dmy)
    case None => Err("TypeError")
    case Some(us) => Ok(DateOfParts(Split(us, '-')))
  }

  /** `Number` of the `k`-th piece; a missing piece is `undefined`, read as NaN. */
  function Piece(parts: seq<string>, k: nat): Number {
    if k < |parts| then ToNumber(parts[k]) else NaN
  }

  function DateOfParts(parts: seq<string>): Option<int> {
    DateUTC(Piece(parts, 0), MinusOne(Piece(parts, 1)), Piece(parts, 2))
  }

  /** The conversion throws exactly when the text has no '/'. */
  lemma {:induction false} DateBRError(dmy: string)
    ensures ParseDateBRtoUS(dmy).None? <==> '/' !in dmy
    ensures DateBRToUTCDate(dmy).Err? <==> '/' !in dmy
  {
    SplitFromCount(dmy, '/', []);
  }

  predicate DigitString(s: string) { AllChars(s, IsDigit) && s != [] }

  lemma {:induction false} DigitsNoSep(s: string, c: char)
    requires AllChars(s, IsDigit) && !IsDigit(c)
    ensures c !in s
  {
    forall k | 0 <= k < |s| ensures s[k] != c { assert IsDigit(s[k]); }
  }

  /** "dd/mm/yyyy" becomes "yyyy-mm-dd", split back into its three pieces. */
  lemma {:induction false} DateBRToUSDigits(d: string, m: string, y: string)
    requires |d| == 2 && |m| == 2 && DigitString(d) && DigitString(m) && DigitString(y)
    ensures ParseDateBRtoUS(d + "/" + m + "/" + y) == Some(y + "-" + m + "-" + d)
    ensures Split(y + "-" + m + "-" + d, '-') == [y, m, d]
  {
    DigitsNoSep(d, '/'); DigitsNoSep(m, '/'); DigitsNoSep(y, '/');
    DigitsNoSep(d, '-'); DigitsNoSep(m, '-'); DigitsNoSep(y, '-');
    SplitThree(d, m, y, '/');
    SplitThree(y, m, d, '-');
  }

  /** A bulletin date "dd/mm/yyyy" of a real calendar day (year 100 or later)
      becomes that day's midnight. */
  lemma {:induction false} DateBRToUTCDateCalendar(d: string, m: string, y: string)
    requires |d| == 2 && |m| == 2 && |y| == 4 && DigitString(d) && DigitString(m) && DigitString(y)
    requires DigitsValue(y) >= 100
    requires ValidCalendarDate(DigitsValue(y), DigitsValue(m), DigitsValue(d))
    ensures DateBRToUTCDate(d + "/" + m + "/" + y) == Ok(Some(CalendarDay(DigitsValue(y), DigitsValue(m), DigitsValue(d))))
  {
    var dmy := d + "/" + m + "/" + y;
    assert DateBRToUTCDate(dmy) == Ok(DateUTC(ToNumber(y), MinusOne(ToNumber(m)), ToNumber(d))) by {
      DateBRToUSDigits(d, m, y);
      DateOfPieces(dmy, y + "-" + m + "-" + d, y, m, d);
    }
    DateOfDigits(y, m, d);
  }

  lemma {:induction false} DateOfDigits(y: string, m: string, d: string)
    requires |y| == 4 && DigitString(d) && DigitString(m) && DigitString(y)
    requires DigitsValue(y) >= 100
    requires ValidCalendarDate(DigitsValue(y), DigitsValue(m), DigitsValue(d))
    ensures DateUTC(ToNumber(y), MinusOne(ToNumber(m)), ToNumber(d)) == Some(CalendarDay(DigitsValue(y), DigitsValue(m), DigitsValue(d)))
  {
    var yv, mv, dv := DigitsValue(y), DigitsValue(m), DigitsValue(d);
    ToNumberDigits(y);
    ToNumberDigits(m);
    ToNumberDigits(d);
    YearBound(y);
    DateUTCSame(ToNumber(y), MinusOne(ToNumber(m)), ToNumber(d), Num(yv as real), Num(mv as real - 1.0), Num(dv as real));
    DateUTCOfCalendar(yv, mv, dv);
  }

  lemma {:induction false} DateUTCSame(a: Number, b: Number, c: Number, a': Number, b': Number, c': Number)
    requires a == a' && b == b' && c == c'
    ensures DateUTC(a, b, c) == DateUTC(a', b', c')
  {
  }

  lemma {:induction false} YearBound(y: string)
    requires |y| == 4
    ensures DigitsValue(y) <= 9999
  {
    DigitsValueBound(y);
    assert Pow10(4) == 10000;
  }

  /** The conversion once the US form and its three pieces are known. */
  lemma {:induction false} DateOfPieces(dmy: string, us: string, a: string, b: string, c: string)
    requires ParseDateBRtoUS(dmy) == Some(us) && Split(us, '-') == [a, b, c]
    ensures DateBRToUTCDate(dmy) == Ok(DateUTC(ToNumber(a), MinusOne(ToNumber(b)), ToNumber(c)))
  {
    PieceOf(a, b, c);
  }

  lemma {:induction false} PieceOf(a: string, b: string, c: string)
    ensures Piece([a, b, c], 0) == ToNumber(a)
    ensures Piece([a, b, c], 1) == ToNumber(b)
    ensures Piece([a, b, c], 2) == ToNumber(c)
  {
  }

  /* ---------------- source ranking ---------------- */

  /** `prefRank`: an algorithm version starting with "ama" (any case) ranks 3,
      "agrolink" 2, anything else or none 1. */
  function PrefRank(alg: Option<string>): (r: int)
    ensures 1 <= r <= 3
  {
    var s := ToLower(if alg.Some? then alg.value else "");
    if EqAt(s, 0, "ama") then 3 else if EqAt(s, 0, "agrolink") then 2 else 1
  }

  /** The `CASE` of the SQL window query: `lower(v) LIKE 'ama%'` gives 2,
      `'agrolink%'` 1, anything else, NULL included, 0. */
  function SqlRank(alg: Option<string>): (r: int)
    ensures 0 <= r <= 2
  {
    match alg
    case None => 0
    case Some(v) =>
      if EqAt(ToLower(v), 0, "ama") then 2 else if EqAt(ToLower(v), 0, "agrolink") then 1 else 0
  }

  /** The two queries order the sources the same way. */
  lemma {:induction false} RanksAgree(alg: Option<string>)
    ensures SqlRank(alg) + 1 == PrefRank(alg)
  {
  }

  /** Any version starting with "ama", in any case, ranks 3. */
  lemma {:induction false} RankOfAma(v: string)
    ensures PrefRank(Some("ama" + v)) == 3
    ensures PrefRank(Some("AMA" + v)) == 3
  {
    ToLowerConcat("ama", v);
    ToLowerConcat("AMA", v);
    assert ToLower("ama") == "ama" && ToLower("AMA") == "ama";
    assert ("ama" + ToLower(v))[..3] == "ama";
  }

  /** Any version starting with "agrolink" ranks 2. */
  lemma {:induction false} RankOfAgrolink(v: string)
    ensures PrefRank(Some("agrolink" + v)) == 2
  {
    ToLowerConcat("agrolink", v);
    assert ToLower("agrolink") == "agrolink";
    var t := "agrolink" + ToLower(v);
    assert t[1] == 'g';
    assert !EqAt(t, 0, "ama") by {
      assert t[..3][1] == 'g';
    }
    assert t[..8] == "agrolink";
  }

  /* ---------------- stripLocalFrom ---------------- */

  /** The largest `k` in `[i, i + n]` at which `local` occurs, ignoring case. */
  function LastLocalFrom(s: string, i: nat, n: nat, local: string): (k: Option<nat>)
    ensures k.Some? ==> i <= k.value <= i + n && EqCIAt(s, k.value, local)
    ensures k.Some? ==> forall j :: k.value < j <= i + n ==> !EqCIAt(s, j, local)
    ensures k.None? ==> forall j :: i <= j <= i + n ==> !EqCIAt(s, j, local)
    decreases n
  {
    if EqCIAt(s, i + n, local) then Some(i + n)
    else if n == 0 then None
    else LastLocalFrom(s, i, n - 1, local)
  }

  /** `new RegExp('\\s*' + rxEscape(local) + '\\s*', 'i')` at position `i`:
      the leading `\s*` gives whitespace back until the escaped locality
      matches; the trailing one is greedy. The match becomes one space. */
  function LocalMatch(s: string, i: nat, local: string): Match {
    match LastLocalFrom(s, i, SpaceRun(s, i), local)
    case None => NoMatch
    case Some(k) => Match(k + |local| + SpaceRun(s, k + |local|) - i, " ")
  }

  /** `stripLocalFrom`: the first occurrence of the locality (with the
      whitespace around it) becomes a space, then the location suffixes go. */
  function StripLocalFrom(raw: string, local: string): string {
    var s := if local != [] then ReplaceFirst(raw, (t: string, i: nat) => LocalMatch(t, i, local)) else raw;
    StripLocationSuffix(s)
  }

  /** The stripped text is always space-normalized. */
  lemma {:induction false} StripLocalFromNormalized(raw: string, local: string)
    ensures IsNormalized(StripLocalFrom(raw, local))
  {
    var s := if local != [] then ReplaceFirst(raw, (t: string, i: nat) => LocalMatch(t, i, local)) else raw;
    NormSpacesShape(ReplaceAll(ReplaceAll(ReplaceAll(s, JuazeiroBaMatch), StateSuffixMatch), JuazeiroEndMatch));
  }

  /** A locality that does not occur in the text leaves only the suffix strip. */
  lemma {:induction false} StripLocalAbsent(raw: string, local: string)
    requires forall j :: 0 <= j <= |raw| ==> !EqCIAt(raw, j, local)
    ensures StripLocalFrom(raw, local) == StripLocationSuffix(raw)
  {
    if local != [] {
      var f := (t: string, i: nat) => LocalMatch(t, i, local);
      forall j | 0 <= j < |raw| ensures f(raw, j).NoMatch? {
        var n := SpaceRun(raw, j);
        var k := LastLocalFrom(raw, j, n, local);
        if k.Some? {
          EqCIAtBounds(raw, k.value, local);
        }
      }
      ReplaceFirstNoMatch(raw, 0, f);
      assert raw[0..] == raw;
    }
  }
}
