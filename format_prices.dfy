/** `formatProductPrices`: (name, price) pairs from rows of text tokens. A
    row contributes when one of its tokens is a whole price amount; its name
    is the text before the price, cut short at an earlier "PRODUTO(S)" token. */
module FormatPrices {
  import opened Wrappers
  import opened Text
  import opened PriceAmounts

  /** `/PRODUTOS?/i.test(t)`: the token contains "produto" in any case (the
      optional "S" never changes whether it matches). */
  predicate MentionsProduto(t: string) {
    exists j: nat :: j <= |t| && EqCIAt(t, j, "PRODUTO")
  }

  /** Where the name of a row ends: at the first token satisfying `isProd`
      when it comes before the price, otherwise at the price. */
  function NameEnd(tokens: seq<string>, priceIdx: nat, isProd: string -> bool): (e: nat)
    requires priceIdx < |tokens|
    ensures e <= priceIdx
    ensures e < priceIdx <==> exists j :: 0 <= j < priceIdx && isProd(tokens[j])
    ensures e < priceIdx ==> isProd(tokens[e]) && forall j :: 0 <= j < e ==> !isProd(tokens[j])
  {
    var prodIdx := FindIndex(tokens, isProd);
    if prodIdx > -1 && prodIdx < priceIdx then prodIdx else priceIdx
  }

  /** One row's pair, for the price test `isPrice` and the product-label
      test `isProd`. */
  function PairOf(tokens: seq<string>, isPrice: string -> bool, isProd: string -> bool): Option<(string, string)> {
    var priceIdx := FindIndex(tokens, isPrice);
    if priceIdx == -1 then None
    else
      var joined := Join(tokens[..NameEnd(tokens, priceIdx, isProd)], " ");
      if !HasNonSpace(joined) then None
      else Some((Trim(joined), tokens[priceIdx]))
  }

  /** What one row contributes. */
  function RowPair(tokens: seq<string>): Option<(string, string)> {
    PairOf(tokens, IsAmount, MentionsProduto)
  }

  /** The pairs of the rows that have one, in row order. */
  function Formatted(rows: seq<seq<string>>): seq<(string, string)> {
    Somes(MapSeq(rows, RowPair))
  }

  /** The loop over the rows. */
  method FormatProductPrices(rows: seq<seq<string>>) returns (items: seq<(string, string)>)
    ensures items == Formatted(rows)
  {
    items := [];
    var i := 0;
    while i < |rows|
      invariant 0 <= i <= |rows|
      invariant items == Formatted(rows[..i])
    {
      SomesMapStep(rows, RowPair, i);
      var pair := RowPair(rows[i]);
      if pair.Some? {
        items := items + [pair.value];
      }
      i := i + 1;
    }
    assert rows[..i] == rows;
  }

  /** A row with no price token gives nothing. */
  lemma {:induction false} PairOfNone(tokens: seq<string>, isPrice: string -> bool, isProd: string -> bool)
    requires forall k :: 0 <= k < |tokens| ==> !isPrice(tokens[k])
    ensures PairOf(tokens, isPrice, isProd).None?
  {
  }

  /** A row that gives a pair has as price its first price token and as
      name the trimmed, space-joined tokens before the name's end. */
  lemma {:induction false} PairOfSome(tokens: seq<string>, isPrice: string -> bool, isProd: string -> bool)
    requires PairOf(tokens, isPrice, isProd).Some?
    ensures var k := FindIndex(tokens, isPrice);
      0 <= k < |tokens| && isPrice(tokens[k]) && (forall j :: 0 <= j < k ==> !isPrice(tokens[j]))
      && PairOf(tokens, isPrice, isProd).value == (Trim(Join(tokens[..NameEnd(tokens, k, isProd)], " ")), tokens[k])
  {
  }

  /** The converse: a row whose first price token is at `k` gives a pair
      exactly when the text before the name's end has a non-space
      character, and then the pair is that text trimmed with that token. */
  lemma {:induction false} PairOfFirstPrice(tokens: seq<string>, isPrice: string -> bool, isProd: string -> bool, k: nat)
    requires k < |tokens| && isPrice(tokens[k]) && forall j :: 0 <= j < k ==> !isPrice(tokens[j])
    ensures var joined := Join(tokens[..NameEnd(tokens, k, isProd)], " ");
      (PairOf(tokens, isPrice, isProd).Some? <==> HasNonSpace(joined))
      && (HasNonSpace(joined) ==> PairOf(tokens, isPrice, isProd) == Some((Trim(joined), tokens[k])))
  {
    assert FindIndex(tokens, isPrice) == k;
  }

  /** A row gives a pair exactly when it has a whole-price token and the
      tokens before the name's end hold a non-space character. */
  lemma {:induction false} RowPairIff(tokens: seq<string>)
    ensures RowPair(tokens).Some? <==>
      exists k :: 0 <= k < |tokens| && IsAmount(tokens[k]) && (forall j :: 0 <= j < k ==> !IsAmount(tokens[j]))
        && HasNonSpace(Join(tokens[..NameEnd(tokens, k, MentionsProduto)], " "))
  {
    var f := FindIndex(tokens, IsAmount);
    if f >= 0 {
      PairOfFirstPrice(tokens, IsAmount, MentionsProduto, f);
      forall k | 0 <= k < |tokens| && IsAmount(tokens[k]) && (forall j :: 0 <= j < k ==> !IsAmount(tokens[j]))
        ensures k == f
      {
      }
    } else {
      PairOfNone(tokens, IsAmount, MentionsProduto);
    }
  }

  /** The name of a pair is never empty and neither starts nor ends with a
      space. */
  lemma {:induction false} PairOfName(tokens: seq<string>, isPrice: string -> bool, isProd: string -> bool)
    requires PairOf(tokens, isPrice, isProd).Some?
    ensures var name := PairOf(tokens, isPrice, isProd).value.0;
      name != [] && !IsSpace(name[0]) && !IsSpace(name[|name| - 1])
  {
    var priceIdx := FindIndex(tokens, isPrice);
    var joined := Join(tokens[..NameEnd(tokens, priceIdx, isProd)], " ");
    var k :| 0 <= k < |joined| && !IsSpace(joined[k]);
    TrimEmpty(joined);
    TrimEnds(joined);
  }

  /** The price of a pair is a whole-token amount, and has its shape. */
  lemma {:induction false} RowPriceShape(tokens: seq<string>)
    requires RowPair(tokens).Some?
    ensures IsAmount(RowPair(tokens).value.1) && AmountShape(RowPair(tokens).value.1)
  {
    var k := FindIndex(tokens, IsAmount);
    AmountAtShape(tokens[k], 0);
    assert tokens[k][0..AmountLen(tokens[k], 0)] == tokens[k];
  }

  /** Every pair comes from a row that gives it and every such row's pair
      is there: at most one pair per row. */
  lemma {:induction false} FormattedSpec(rows: seq<seq<string>>, pair: (string, string))
    ensures pair in Formatted(rows) <==> exists i :: 0 <= i < |rows| && RowPair(rows[i]) == Some(pair)
    ensures |Formatted(rows)| <= |rows|
  {
    var c := MapSeq(rows, RowPair);
    SomesMember(c, pair);
    SomesCount(c);
    if pair in Formatted(rows) {
      var k :| 0 <= k < |c| && c[k] == Some(pair);
      assert RowPair(rows[k]) == Some(pair);
    }
    if exists i :: 0 <= i < |rows| && RowPair(rows[i]) == Some(pair) {
      var i :| 0 <= i < |rows| && RowPair(rows[i]) == Some(pair);
      SomesAt(c, i, pair);
    }
  }
}
