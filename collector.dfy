/** The Agrolink quote collector: the OCR price clean-up `normalizePreco` and
    the row filter and item assembly of `collectAgrolinkJuazeiro`. The
    browser, the screenshots and the OCR engine are outside the model: each
    table row arrives as its cell texts and the text read from its price box. */
module AgrolinkCollector {
  import opened Wrappers
  import opened Text
  import opened JsNumber
  import opened AgrolinkName
  import opened PriceHelpers
  import opened PriceService

  /* ---------------- normalizePreco ---------------- */

  /** `[\d.,]`. */
  predicate IsPriceChar(c: char) { IsDigit(c) || c == '.' || c == ',' }

  /** `/[.,]/.test(s)`. */
  predicate HasSeparator(s: string) {
    exists k :: 0 <= k < |s| && (s[k] == '.' || s[k] == ',')
  }

  /** `s.replace('.', ',')`: a string pattern replaces its first occurrence only. */
  function ReplaceFirstDot(s: string): (r: string)
    ensures |r| == |s|
  {
    if s == [] then [] else if s[0] == '.' then [','] + s[1..] else [s[0]] + ReplaceFirstDot(s[1..])
  }

  /** `normalizePreco`: keep digits, dots and commas; with a separator turn
      the first dot into a comma; a run of three or more digits gets a comma
      before its last two (leading zeros of the whole part dropped by
      `parseInt`); anything else is returned as kept. */
  function NormalizePreco(raw: string): string {
    var cleaned := Keep(raw, IsPriceChar);
    if cleaned == [] then []
    else if HasSeparator(cleaned) then ReplaceFirstDot(cleaned)
    else if |cleaned| >= 3 then
      NatToString(ParseIntDigits(cleaned[..|cleaned| - 2])) + "," + cleaned[|cleaned| - 2..]
    else cleaned
  }

  /** The first dot becomes a comma; every other character stays. */
  lemma {:induction false} ReplaceFirstDotSpec(s: string, k: nat)
    requires k < |s|
    ensures ReplaceFirstDot(s)[k] == if s[k] == '.' && forall j :: 0 <= j < k ==> s[j] != '.' then ',' else s[k]
  {
    if s[0] != '.' && k > 0 {
      ReplaceFirstDotSpec(s[1..], k - 1);
      assert forall j :: 1 <= j < k ==> s[1..][j - 1] == s[j];
    }
  }

  /** The value of digits followed by more digits. */
  lemma {:induction false} DigitsValueConcat(a: string, b: string)
    ensures DigitsValue(a + b) == DigitsValue(a) * Pow10(|b|) + DigitsValue(b)
    decreases |b|
  {
    if b == [] {
      assert a + b == a;
    } else {
      var b' := b[..|b| - 1];
      var d := DigitVal(b[|b| - 1]);
      DigitsValueConcat(a, b');
      assert (a + b)[..|a + b| - 1] == a + b';
      assert (a + b)[|a + b| - 1] == b[|b| - 1];
      var x, p, y := DigitsValue(a), Pow10(|b'|), DigitsValue(b');
      assert DigitsValue(a + b) == (x * p + y) * 10 + d;
      assert DigitsValue(b) == y * 10 + d;
      assert Pow10(|b|) == p * 10;
      ShiftDigit(x, p, y, d);
    }
  }

  lemma {:induction false} ShiftDigit(x: nat, p: nat, y: nat, d: nat)
    ensures (x * p + y) * 10 + d == x * (p * 10) + (y * 10 + d)
  {
  }

  /** The result holds only digits, dots and commas, and is empty exactly
      when the OCR text holds none of them. */
  lemma {:induction false} NormalizePrecoChars(raw: string)
    ensures AllChars(NormalizePreco(raw), IsPriceChar)
    ensures NormalizePreco(raw) == [] <==> Keep(raw, IsPriceChar) == []
  {
    var cleaned := Keep(raw, IsPriceChar);
    if cleaned != [] && HasSeparator(cleaned) {
      forall k | 0 <= k < |cleaned| ensures IsPriceChar(ReplaceFirstDot(cleaned)[k]) {
        ReplaceFirstDotSpec(cleaned, k);
      }
    } else if cleaned != [] && |cleaned| >= 3 {
      var w := NatToString(ParseIntDigits(cleaned[..|cleaned| - 2]));
      var f := cleaned[|cleaned| - 2..];
      NatToStringShape(ParseIntDigits(cleaned[..|cleaned| - 2]));
      var r := w + "," + f;
      forall k | 0 <= k < |r| ensures IsPriceChar(r[k]) {
        if k < |w| {
          assert r[k] == w[k];
        } else if k > |w| {
          assert r[k] == cleaned[|cleaned| - 2 + (k - |w| - 1)];
        }
      }
    }
  }

  /** A run of three or more digits reads back, through `parseDecimal`, as
      that many cents. */
  lemma {:induction false} NormalizePrecoDigits(s: string)
    requires |s| >= 3 && AllChars(s, IsDigit)
    ensures ParseDecimal(NormalizePreco(s)) == Num(DigitsValue(s) as real / 100.0)
  {
    NormalizePrecoOfDigits(s);
    CentsOfDigits(s, NatToString(DigitsValue(s[..|s| - 2])), s[|s| - 2..]);
  }

  /** The digits rewritten as "<whole>,<last two>" read back as cents. */
  lemma {:induction false} CentsOfDigits(s: string, w: string, f: string)
    requires |s| >= 3 && AllChars(s, IsDigit)
    requires w == NatToString(DigitsValue(s[..|s| - 2])) && f == s[|s| - 2..]
    ensures ParseDecimal(w + "," + f) == Num(DigitsValue(s) as real / 100.0)
  {
    CentsParts(s);
    ParseCents(w, f, DigitsValue(s));
  }

  /** `w` and `f` are the whole part and the two decimals of `v` cents. */
  predicate CentsShape(w: string, f: string, v: nat) {
    w != [] && AllChars(w, IsDigit) && |f| == 2 && AllChars(f, IsDigit)
    && v == DigitsValue(w) * 100 + DigitsValue(f)
  }

  /** The whole part rewritten without leading zeros and the last two digits
      still hold the digits' value in cents. */
  lemma {:induction false} CentsParts(s: string)
    requires |s| >= 3 && AllChars(s, IsDigit)
    ensures CentsShape(NatToString(DigitsValue(s[..|s| - 2])), s[|s| - 2..], DigitsValue(s))
  {
    DigitsSplit(s, |s| - 2);
    NatToStringShape(DigitsValue(s[..|s| - 2]));
    DigitsValueCents(s);
  }

  /** "<whole>,<two digits>" reads as the cents value `v` over 100. */
  lemma {:induction false} ParseCents(w: string, f: string, v: nat)
    requires CentsShape(w, f, v)
    ensures ParseDecimal(w + "," + f) == Num(v as real / 100.0)
  {
    ParseDecimalComma(w, f);
    CentsDecimal(w, f, v);
    SameNum(ParseDecimal(w + "," + f), DecimalValue(w, f), v as real / 100.0);
  }

  lemma {:induction false} SameNum(n: Number, x: real, y: real)
    requires n == Num(x) && x == y
    ensures n == Num(y)
  {
  }

  lemma {:induction false} DigitsSplit(s: string, n: nat)
    requires n <= |s| && AllChars(s, IsDigit)
    ensures AllChars(s[n..], IsDigit)
  {
    forall k | 0 <= k < |s| - n ensures IsDigit(s[n..][k]) { assert s[n..][k] == s[n + k]; }
  }

  lemma {:induction false} DigitsValueCents(s: string)
    requires |s| >= 2
    ensures DigitsValue(s) == DigitsValue(s[..|s| - 2]) * 100 + DigitsValue(s[|s| - 2..])
  {
    var head, f := s[..|s| - 2], s[|s| - 2..];
    DigitsValueConcat(head, f);
    assert s == head + f;
    assert Pow10(|f|) == 100;
  }

  /** `parseDecimal` reads "<whole>,<frac>" as the decimal value of the two parts. */
  lemma {:induction false} ParseDecimalComma(w: string, f: string)
    requires w != [] && AllChars(w, IsDigit) && f != [] && AllChars(f, IsDigit)
    ensures ParseDecimal(w + "," + f) == Num(DecimalValue(w, f))
  {
    var r := w + "," + f;
    assert AllChars(r, IsNotDot) by {
      forall k | 0 <= k < |r| ensures r[k] != '.' {
        if k < |w| {
          assert r[k] == w[k] && IsDigit(w[k]);
        } else if k > |w| {
          assert r[k] == f[k - |w| - 1];
        }
      }
    }
    KeepAll(r, IsNotDot);
    ReadNumberComma(w, f);
  }

  lemma {:induction false} CentsDecimal(w: string, f: string, v: nat)
    requires |f| == 2 && v == DigitsValue(w) * 100 + DigitsValue(f)
    ensures DecimalValue(w, f) == v as real / 100.0
  {
    FracValueCents(f);
  }

  /** Three or more digits get a comma before their last two. */
  lemma {:induction false} NormalizePrecoOfDigits(s: string)
    requires |s| >= 3 && AllChars(s, IsDigit)
    ensures NormalizePreco(s) == NatToString(DigitsValue(s[..|s| - 2])) + "," + s[|s| - 2..]
  {
    assert AllChars(s, IsPriceChar);
    KeepAll(s, IsPriceChar);
    assert !HasSeparator(s) by {
      forall k | 0 <= k < |s| ensures s[k] != '.' && s[k] != ',' { assert IsDigit(s[k]); }
    }
  }

  /** "62.80" becomes "62,80". */
  lemma NormalizePrecoDotExample()
    ensures NormalizePreco("62.80") == "62,80"
  {
    KeepAll("62.80", IsPriceChar);
    assert "62.80"[2] == '.';
  }

  /** "6280" becomes "62,80". */
  lemma NormalizePrecoDigitsExample()
    ensures NormalizePreco("6280") == "62,80"
  {
    KeepAll("6280", IsPriceChar);
    assert !HasSeparator("6280");
    assert "6280"[..2] == "62" && "6280"[2..] == "80";
    assert DigitsValue("62") == 62;
    assert NatToString(62) == "62";
  }

  /** One or two digits are returned as they are. */
  lemma {:induction false} NormalizePrecoShort(s: string)
    requires 1 <= |s| <= 2 && AllChars(s, IsDigit)
    ensures NormalizePreco(s) == s
  {
    assert AllChars(s, IsPriceChar);
    KeepAll(s, IsPriceChar);
    assert !HasSeparator(s) by {
      forall k | 0 <= k < |s| ensures s[k] != '.' && s[k] != ',' { assert IsDigit(s[k]); }
    }
  }

  /* ---------------- collectAgrolinkJuazeiro ---------------- */

  /** One row of the quotes table as the page shows it: the texts of its
      cells and, when the price box of its third cell is on screen, the text
      the OCR read from it (the retry with a larger image included). */
  datatype PageRow = PageRow(cells: seq<string>, ocrText: Option<string>)

  /** `/Juazeiro/i`. */
  predicate MentionsJuazeiro(s: string) {
    exists j: nat :: j <= |s| && EqCIAt(s, j, "Juazeiro")
  }

  /** What a table row contributes: nothing when it has fewer than four
      cells, another locality, no price box, or a price the clean-up
      empties; otherwise the quote, named and split from its product cell. */
  function RowItem(row: PageRow): Option<AgrolinkItem> {
    if |row.cells| < 4 then None
    else
      var produto := CollapseSpaces(Trim(row.cells[0]));
      var local := Trim(row.cells[1]);
      var data := Trim(row.cells[3]);
      if !MentionsJuazeiro(local) || row.ocrText.None? then None
      else
        var preco := NormalizePreco(Trim(row.ocrText.value));
        if preco == [] then None
        else
          var split := SplitSpec(produto);
          Some(AgrolinkItem(produto, split.name, split.unit, local, preco, data))
  }

  /** What each row contributes, in order. */
  function RowItems(rows: seq<PageRow>): (r: seq<Option<AgrolinkItem>>)
    ensures |r| == |rows|
    ensures forall i :: 0 <= i < |rows| ==> r[i] == RowItem(rows[i])
  {
    seq(|rows|, i requires 0 <= i < |rows| => RowItem(rows[i]))
  }

  /** The quotes of the table. */
  function Collected(rows: seq<PageRow>): seq<AgrolinkItem> {
    Somes(RowItems(rows))
  }

  lemma {:induction false} RowItemsStep(rows: seq<PageRow>, n: nat)
    requires n < |rows|
    ensures RowItems(rows[..n + 1]) == RowItems(rows[..n]) + [RowItem(rows[n])]
  {
    var l, p := RowItems(rows[..n + 1]), RowItems(rows[..n]);
    forall k | 0 <= k < n ensures l[k] == p[k] {
      assert rows[..n + 1][k] == rows[..n][k];
    }
    assert l[n] == RowItem(rows[n]) by { assert rows[..n + 1][n] == rows[n]; }
    SeqSnoc(l, p, RowItem(rows[n]));
  }

  /** A sequence that agrees with `p` and then ends in `x` is `p + [x]`. */
  lemma {:induction false} SeqSnoc<T>(l: seq<T>, p: seq<T>, x: T)
    requires |l| == |p| + 1 && l[|p|] == x
    requires forall k :: 0 <= k < |p| ==> l[k] == p[k]
    ensures l == p + [x]
  {
  }

  /** `collectAgrolinkJuazeiro` after the page is loaded: the loop over the
      table rows. */
  method CollectAgrolinkJuazeiro(rows: seq<PageRow>) returns (out: seq<AgrolinkItem>)
    ensures out == Collected(rows)
  {
    out := [];
    ghost var seen: seq<Option<AgrolinkItem>> := [];
    var i := 0;
    while i < |rows|
      invariant 0 <= i <= |rows|
      invariant seen == RowItems(rows[..i])
      invariant out == Somes(seen)
    {
      RowItemsStep(rows, i);
      var item := RowItem(rows[i]);
      SomesSnoc(seen, item);
      if item.Some? {
        out := out + [item.value];
      }
      seen := seen + [item];
      i := i + 1;
    }
    assert rows[..i] == rows;
  }

  /** A row gives a quote exactly when it has four cells, a Juazeiro
      locality and a price box whose text keeps a digit, dot or comma; the
      quote's name and unit are the split of its space-collapsed product
      cell, and its price is the cleaned OCR text. */
  lemma {:induction false} RowItemSpec(row: PageRow)
    ensures RowItem(row).Some? <==>
      |row.cells| >= 4 && MentionsJuazeiro(Trim(row.cells[1])) && row.ocrText.Some?
      && Keep(Trim(row.ocrText.value), IsPriceChar) != []
    ensures RowItem(row).Some? ==>
      var it := RowItem(row).value;
      var produto := CollapseSpaces(Trim(row.cells[0]));
      it.produto == produto && it.name == SplitSpec(produto).name && it.unit == SplitSpec(produto).unit
      && it.preco != [] && AllChars(it.preco, IsPriceChar) && MentionsJuazeiro(it.local)
  {
    if |row.cells| >= 4 && MentionsJuazeiro(Trim(row.cells[1])) && row.ocrText.Some? {
      var raw := Trim(row.ocrText.value);
      NormalizePrecoChars(raw);
      var preco := NormalizePreco(raw);
      if preco != [] {
        var produto := CollapseSpaces(Trim(row.cells[0]));
        var split := SplitSpec(produto);
        assert RowItem(row) == Some(AgrolinkItem(produto, split.name, split.unit, Trim(row.cells[1]), preco, Trim(row.cells[3])));
      } else {
        assert RowItem(row).None?;
      }
    } else {
      assert RowItem(row).None?;
    }
  }

  /** Every quote comes from a row that gives it, and every row that gives
      a quote has it collected; there is at most one quote per row. */
  lemma {:induction false} CollectedSpec(rows: seq<PageRow>, it: AgrolinkItem)
    ensures it in Collected(rows) <==> exists i :: 0 <= i < |rows| && RowItem(rows[i]) == Some(it)
    ensures |Collected(rows)| <= |rows|
  {
    var c := RowItems(rows);
    SomesMember(c, it);
    SomesCount(c);
    if it in Collected(rows) {
      var k :| 0 <= k < |c| && c[k] == Some(it);
      assert RowItem(rows[k]) == Some(it);
    }
    if exists i :: 0 <= i < |rows| && RowItem(rows[i]) == Some(it) {
      var i :| 0 <= i < |rows| && RowItem(rows[i]) == Some(it);
      SomesAt(c, i, it);
    }
  }
}
