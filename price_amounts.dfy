/** Brazilian price amounts such as "62,80" or "1.234,56": the pattern
    `\d{1,3}(?:\.\d{3})*,\d{2}` shared by the bulletin reader and the table
    formatter. */
module PriceAmounts {
  import opened Text

  predicate IsDigitOrDot(c: char) { IsDigit(c) || c == '.' }

  /** End of the greedy `(?:\.\d{3})*` starting at `j`. */
  function ThousandsEnd(s: string, j: nat): (e: nat)
    ensures j <= e <= |s| || e == j
    decreases |s| - j
  {
    if j + 4 <= |s| && s[j] == '.' && IsDigit(s[j + 1]) && IsDigit(s[j + 2]) && IsDigit(s[j + 3])
    then ThousandsEnd(s, j + 4) else j
  }

  /** The thousands groups hold only digits and dots. */
  lemma {:induction false} ThousandsEndChars(s: string, j: nat)
    ensures forall k :: j <= k < ThousandsEnd(s, j) ==> IsDigitOrDot(s[k])
    decreases |s| - j
  {
    if j + 4 <= |s| && s[j] == '.' && IsDigit(s[j + 1]) && IsDigit(s[j + 2]) && IsDigit(s[j + 3]) {
      ThousandsEndChars(s, j + 4);
    }
  }

  /** Length of the match of the amount pattern at position `i`, 0 when there
      is none. Backtracking never helps: fewer leading digits leave a digit,
      and fewer thousands groups leave a '.', where the pattern needs ','. */
  function AmountLen(s: string, i: nat): (n: nat)
    ensures n == 0 || (i + n <= |s| && n >= 4 && s[i + n - 3] == ',' && IsDigit(s[i]))
  {
    var run := DigitRun(s, i);
    var d := if run > 3 then 3 else run;
    var e := ThousandsEnd(s, i + d);
    if d > 0 && e + 3 <= |s| && s[e] == ',' && IsDigit(s[e + 1]) && IsDigit(s[e + 2])
    then e + 3 - i else 0
  }

  /** `[...s.matchAll(/…/g)]` from position `i`: the matched texts, left to
      right, each search resuming after the previous match. */
  function AmountsFrom(s: string, i: nat): (ms: seq<string>)
    decreases |s| - i
  {
    if i >= |s| then []
    else if AmountLen(s, i) > 0 then [s[i..i + AmountLen(s, i)]] + AmountsFrom(s, i + AmountLen(s, i))
    else AmountsFrom(s, i + 1)
  }

  function Amounts(s: string): seq<string> {
    AmountsFrom(s, 0)
  }

  /** `^\d{1,3}(?:\.\d{3})*,\d{2}$`: the whole token is one amount. */
  predicate IsAmount(t: string) {
    |t| > 0 && AmountLen(t, 0) == |t|
  }

  /** An amount exists in `s` from `i` on exactly when the pattern matches at
      some position from `i` on. */
  lemma {:induction false} AmountsFromNonEmpty(s: string, i: nat)
    ensures AmountsFrom(s, i) != [] <==> exists j :: i <= j < |s| && AmountLen(s, j) > 0
    decreases |s| - i
  {
    if i < |s| {
      if AmountLen(s, i) > 0 {
        assert AmountsFrom(s, i) != [];
      } else {
        AmountsFromNonEmpty(s, i + 1);
        ExistsPastFirst(i, |s|, (j: nat) => AmountLen(s, j) > 0);
      }
    }
  }

  /** Dropping a first position that fails `p` keeps whether some position
      satisfies it. */
  lemma {:induction false} ExistsPastFirst(i: nat, n: nat, p: nat -> bool)
    requires !p(i)
    ensures (exists j: nat :: i <= j < n && p(j)) <==> (exists j: nat :: i + 1 <= j < n && p(j))
  {
    if exists j: nat :: i <= j < n && p(j) {
      var j: nat :| i <= j < n && p(j);
      assert j != i;
    }
  }

  /** Every amount found has the shape of an amount. */
  lemma {:induction false} AmountsShape(s: string, i: nat)
    ensures forall k :: 0 <= k < |AmountsFrom(s, i)| ==> AmountShape(AmountsFrom(s, i)[k])
    decreases |s| - i
  {
    if i < |s| {
      var n := AmountLen(s, i);
      if n > 0 {
        AmountsShape(s, i + n);
        AmountAtShape(s, i);
      } else {
        AmountsShape(s, i + 1);
      }
    }
  }

  /** The text matched at one position has the shape of an amount. */
  lemma {:induction false} AmountAtShape(s: string, i: nat)
    requires AmountLen(s, i) > 0
    ensures AmountShape(s[i..i + AmountLen(s, i)])
  {
    var n := AmountLen(s, i);
    var m := s[i..i + n];
    assert m[n - 3] == s[i + n - 3];
    var e := ThousandsEnd(s, i + (if DigitRun(s, i) > 3 then 3 else DigitRun(s, i)));
    assert e + 3 - i == n;
    assert m[n - 2] == s[e + 1] && m[n - 1] == s[e + 2];
    assert m[0] == s[i];
    var run := DigitRun(s, i);
    var d := if run > 3 then 3 else run;
    ThousandsEndChars(s, i + d);
    var w := m[..n - 3];
    forall k | 0 <= k < |w| ensures IsDigitOrDot(w[k]) {
      assert w[k] == s[i + k];
    }
  }

  /** The shape of an amount: a leading digit, then digits and dots, then a
      final ",dd". */
  predicate AmountShape(m: string) {
    |m| >= 4 && IsDigit(m[0]) && AllChars(m[..|m| - 3], IsDigitOrDot)
    && m[|m| - 3] == ',' && IsDigit(m[|m| - 2]) && IsDigit(m[|m| - 1])
  }
}
