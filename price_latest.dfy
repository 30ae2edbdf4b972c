/** The two "latest price" queries of the price-recommendation service, as
    pure functions of the table's rows: the latest row of one product
    (`getLatestByNamePreferAMA`) and the latest row of every product
    (`getLatestAllPreferAMA`), both preferring AMA rows, then Agrolink rows,
    then the newest. */
module PriceLatest {
  import opened Wrappers
  import opened Text
  import opened PriceHelpers
  import opened PriceStore
  import opened AgrolinkName

  /* ---------------- ranking ---------------- */

  /** `a` comes before `b` in the candidates' order: a higher source rank,
      or the same rank and a later `createdAt`. */
  predicate Beats(a: PriceRow, b: PriceRow, rank: Option<string> -> int) {
    var ra := rank(a.data.algorithmVersion);
    var rb := rank(b.data.algorithmVersion);
    ra > rb || (ra == rb && a.createdAt > b.createdAt)
  }

  /** The first row of `c` that no row beats: the first row of `c` sorted
      by the (stable) comparator. */
  function Best(c: seq<PriceRow>, rank: Option<string> -> int): (b: PriceRow)
    requires c != []
    ensures b in c
  {
    if |c| == 1 then c[0]
    else
      var b := Best(c[..|c| - 1], rank);
      if Beats(c[|c| - 1], b, rank) then c[|c| - 1] else b
  }

  /** No row beats the best one, and it beats every row before it. */
  lemma {:induction false} BestSpec(c: seq<PriceRow>, rank: Option<string> -> int)
    requires c != []
    ensures forall k :: 0 <= k < |c| ==> !Beats(c[k], Best(c, rank), rank)
    ensures exists i :: 0 <= i < |c| && c[i] == Best(c, rank)
                        && forall k :: 0 <= k < i ==> Beats(Best(c, rank), c[k], rank)
  {
    if |c| == 1 {
      assert c[0] == Best(c, rank);
    } else {
      var init := c[..|c| - 1];
      BestSpec(init, rank);
      var b := Best(init, rank);
      var i :| 0 <= i < |init| && init[i] == b && forall k :: 0 <= k < i ==> Beats(b, init[k], rank);
      assert forall k :: 0 <= k < |init| ==> init[k] == c[k];
      if Beats(c[|c| - 1], b, rank) {
        assert c[|c| - 1] == Best(c, rank);
      } else {
        assert c[i] == Best(c, rank);
      }
    }
  }

  /** The SQL `CASE` ranks and `prefRank` order rows the same way. */
  lemma {:induction false} BeatsAgree(a: PriceRow, b: PriceRow)
    ensures Beats(a, b, SqlRank) <==> Beats(a, b, PrefRank)
  {
    RanksAgree(a.data.algorithmVersion);
    RanksAgree(b.data.algorithmVersion);
  }

  /* ---------------- dates ---------------- */

  /** The latest date among the rows. */
  function MaxDate(c: seq<PriceRow>): (d: int)
    requires c != []
  {
    if |c| == 1 then c[0].data.date
    else
      var m := MaxDate(c[..|c| - 1]);
      if c[|c| - 1].data.date > m then c[|c| - 1].data.date else m
  }

  lemma {:induction false} MaxDateSpec(c: seq<PriceRow>)
    requires c != []
    ensures forall k :: 0 <= k < |c| ==> c[k].data.date <= MaxDate(c)
    ensures exists k :: 0 <= k < |c| && c[k].data.date == MaxDate(c)
  {
    if |c| == 1 {
      assert c[0].data.date == MaxDate(c);
    } else {
      var init := c[..|c| - 1];
      MaxDateSpec(init);
      assert forall k :: 0 <= k < |init| ==> init[k] == c[k];
      var k :| 0 <= k < |init| && init[k].data.date == MaxDate(init);
      assert c[k].data.date == MaxDate(init);
    }
  }

  /** The rows on day `d`. */
  function OnDate(c: seq<PriceRow>, d: int): seq<PriceRow> {
    Filter(c, (r: PriceRow) => r.data.date == d)
  }

  /** The rows on the latest day, which are never none. */
  lemma {:induction false} TopDateRows(c: seq<PriceRow>)
    requires c != []
    ensures OnDate(c, MaxDate(c)) != []
  {
    MaxDateSpec(c);
    var k :| 0 <= k < |c| && c[k].data.date == MaxDate(c);
    FilterMember(c, (r: PriceRow) => r.data.date == MaxDate(c), c[k]);
  }

  /** The row a set of same-product rows reports: the best on its latest day. */
  function Latest(c: seq<PriceRow>, rank: Option<string> -> int): Option<PriceRow> {
    if c == [] then None
    else
      var top := OnDate(c, MaxDate(c));
      if top == [] then None else Some(Best(top, rank))
  }

  /** Of non-empty rows, the reported one is there, is on their latest day
      and no row of that day beats it. */
  lemma {:induction false} LatestSpec(c: seq<PriceRow>, rank: Option<string> -> int)
    ensures Latest(c, rank).None? <==> c == []
    ensures Latest(c, rank).Some? ==>
      var w := Latest(c, rank).value;
      w in c && (forall r :: r in c ==> r.data.date <= w.data.date)
      && (forall r :: r in c && r.data.date == w.data.date ==> !Beats(r, w, rank))
  {
    if c != [] {
      var d := MaxDate(c);
      var f := (r: PriceRow) => r.data.date == d;
      var top := OnDate(c, d);
      TopDateRows(c);
      MaxDateSpec(c);
      var w := Best(top, rank);
      BestSpec(top, rank);
      FilterMember(c, f, w);
      forall r | r in c && r.data.date == w.data.date ensures !Beats(r, w, rank) {
        FilterMember(c, f, r);
        var k :| 0 <= k < |top| && top[k] == r;
      }
    }
  }

  /* ---------------- getLatestByNamePreferAMA ---------------- */

  /** `productName equals key, mode insensitive`. */
  predicate NameMatches(r: PriceRow, key: string) {
    ToLower(r.data.productName) == ToLower(key)
  }

  function MatchingRows(rows: seq<PriceRow>, key: string): seq<PriceRow> {
    Filter(rows, (r: PriceRow) => NameMatches(r, key))
  }

  /** The latest row of the product named `key`, case-insensitively. */
  function LatestByKey(rows: seq<PriceRow>, key: string): Option<PriceRow> {
    Latest(MatchingRows(rows, key), PrefRank)
  }

  /** `getLatestByNamePreferAMA(name)`: the query key is the cleaned name. */
  function LatestByNamePreferAma(rows: seq<PriceRow>, name: string): Option<PriceRow> {
    LatestByKey(rows, CleanProductName(name))
  }

  /** No matching row gives null; otherwise the result is a matching row on
      the product's latest date, and no matching row of that date has a
      better source or, with the same source, a later `createdAt`. */
  lemma {:induction false} LatestByKeySpec(rows: seq<PriceRow>, key: string)
    ensures LatestByKey(rows, key).None? <==> forall r :: r in rows ==> !NameMatches(r, key)
    ensures LatestByKey(rows, key).Some? ==>
      var w := LatestByKey(rows, key).value;
      w in rows && NameMatches(w, key)
      && (forall r :: r in rows && NameMatches(r, key) ==> r.data.date <= w.data.date)
      && (forall r :: r in rows && NameMatches(r, key) && r.data.date == w.data.date ==>
            !Beats(r, w, PrefRank))
  {
    var f := (r: PriceRow) => NameMatches(r, key);
    var m := MatchingRows(rows, key);
    LatestSpec(m, PrefRank);
    forall r | r in rows ensures r in m <==> NameMatches(r, key) {
      FilterMember(rows, f, r);
    }
    if m != [] {
      var w := LatestByKey(rows, key).value;
      FilterMember(rows, f, w);
    } else {
      forall r | r in rows ensures !NameMatches(r, key) {
        FilterMember(rows, f, r);
      }
    }
  }

  /** An AMA row of the latest date wins over every non-AMA row of that date. */
  lemma {:induction false} AmaPreferred(rows: seq<PriceRow>, key: string, a: PriceRow)
    requires a in rows && NameMatches(a, key) && PrefRank(a.data.algorithmVersion) == 3
    requires forall r :: r in rows && NameMatches(r, key) ==> r.data.date <= a.data.date
    ensures LatestByKey(rows, key).Some?
    ensures PrefRank(LatestByKey(rows, key).value.data.algorithmVersion) == 3
  {
    LatestByKeySpec(rows, key);
    var w := LatestByKey(rows, key).value;
    assert a.data.date <= w.data.date;
  }

  /* ---------------- getLatestAllPreferAMA ---------------- */

  /** `ORDER BY "productName" ASC`: code-point order on names. */
  predicate Less(a: string, b: string)
    decreases |a|
  {
    if a == [] then b != []
    else b != [] && (a[0] < b[0] || (a[0] == b[0] && Less(a[1..], b[1..])))
  }

  lemma {:induction false} LessIrreflexive(a: string)
    ensures !Less(a, a)
    decreases |a|
  {
    if a != [] { LessIrreflexive(a[1..]); }
  }

  lemma {:induction false} LessTransitive(a: string, b: string, c: string)
    requires Less(a, b) && Less(b, c)
    ensures Less(a, c)
    decreases |a|
  {
    if a != [] && a[0] == b[0] && b[0] == c[0] {
      LessTransitive(a[1..], b[1..], c[1..]);
    }
  }

  lemma {:induction false} LessTotal(a: string, b: string)
    requires a != b
    ensures Less(a, b) || Less(b, a)
    decreases |a|
  {
    if a != [] && b != [] && a[0] == b[0] {
      assert a == [a[0]] + a[1..] && b == [b[0]] + b[1..];
      LessTotal(a[1..], b[1..]);
    }
  }

  predicate StrictlySorted(s: seq<string>) {
    forall i, j :: 0 <= i < j < |s| ==> Less(s[i], s[j])
  }

  /** Inserts a name into a strictly sorted list unless it is there. */
  function Insert(s: seq<string>, n: string): (r: seq<string>)
    decreases |s|
  {
    if s == [] then [n]
    else if n == s[0] then s
    else if Less(n, s[0]) then [n] + s
    else [s[0]] + Insert(s[1..], n)
  }

  lemma {:induction false} InsertSpec(s: seq<string>, n: string)
    requires StrictlySorted(s)
    ensures StrictlySorted(Insert(s, n))
    ensures forall x :: x in Insert(s, n) <==> x in s || x == n
    decreases |s|
  {
    if s != [] && n != s[0] && !Less(n, s[0]) {
      var t := s[1..];
      assert StrictlySorted(t) by {
        forall i, j | 0 <= i < j < |t| ensures Less(t[i], t[j]) {
          assert t[i] == s[i + 1] && t[j] == s[j + 1];
        }
      }
      InsertSpec(t, n);
      LessTotal(n, s[0]);
      var r := [s[0]] + Insert(t, n);
      forall j | 1 <= j < |r| ensures Less(s[0], r[j]) {
        assert r[j] in Insert(t, n);
        if r[j] != n {
          var k :| 0 <= k < |t| && t[k] == r[j];
          assert s[k + 1] == r[j];
        }
      }
      forall i, j | 0 <= i < j < |r| ensures Less(r[i], r[j]) {
        if i > 0 {
          assert r[i] == Insert(t, n)[i - 1] && r[j] == Insert(t, n)[j - 1];
        }
      }
      assert s == [s[0]] + t;
    } else if s != [] && Less(n, s[0]) {
      var r := [n] + s;
      forall i, j | 0 <= i < j < |r| ensures Less(r[i], r[j]) {
        if i == 0 && j > 1 {
          LessTransitive(n, s[0], s[j - 1]);
        }
      }
    }
  }

  /** The distinct product names of the rows, in ascending order. */
  function Names(rows: seq<PriceRow>): seq<string> {
    if rows == [] then [] else Insert(Names(rows[..|rows| - 1]), rows[|rows| - 1].data.productName)
  }

  lemma {:induction false} NamesSpec(rows: seq<PriceRow>)
    ensures StrictlySorted(Names(rows))
    ensures forall n :: n in Names(rows) <==> exists r :: r in rows && r.data.productName == n
  {
    if rows != [] {
      var init := rows[..|rows| - 1];
      var last := rows[|rows| - 1];
      NamesSpec(init);
      InsertSpec(Names(init), last.data.productName);
      assert rows == init + [last];
      forall n | n in Names(rows) ensures exists r :: r in rows && r.data.productName == n {
        if n != last.data.productName {
          var r :| r in init && r.data.productName == n;
          assert r in rows;
        }
      }
      forall n | (exists r :: r in rows && r.data.productName == n) ensures n in Names(rows) {
        var r :| r in rows && r.data.productName == n;
        if r != last {
          assert r in init;
        }
      }
    }
  }

  /** The rows of the product named exactly `n` (`GROUP BY "productName"`). */
  function RowsNamed(rows: seq<PriceRow>, n: string): seq<PriceRow> {
    Filter(rows, (r: PriceRow) => r.data.productName == n)
  }

  /** The `rn = 1` row of each listed name. */
  function Winners(rows: seq<PriceRow>, names: seq<string>): (w: seq<Option<PriceRow>>)
    ensures |w| == |names|
  {
    if names == [] then [] else [Latest(RowsNamed(rows, names[0]), SqlRank)] + Winners(rows, names[1..])
  }

  /** `getLatestAllPreferAMA`. */
  function LatestAllPreferAma(rows: seq<PriceRow>): seq<PriceRow> {
    Somes(Winners(rows, Names(rows)))
  }

  lemma {:induction false} WinnersAt(rows: seq<PriceRow>, names: seq<string>, k: nat)
    requires k < |names|
    ensures Winners(rows, names)[k] == Latest(RowsNamed(rows, names[k]), SqlRank)
    decreases k
  {
    if k > 0 {
      WinnersAt(rows, names[1..], k - 1);
    }
  }

  /** The winner of a name that has rows: a row of that name on its latest
      date that no row of that name and date beats. */
  lemma {:induction false} WinnerSpec(rows: seq<PriceRow>, n: string, r0: PriceRow)
    requires r0 in rows && r0.data.productName == n
    ensures Latest(RowsNamed(rows, n), SqlRank).Some?
    ensures var w := Latest(RowsNamed(rows, n), SqlRank).value;
      w in rows && w.data.productName == n
      && (forall r :: r in rows && r.data.productName == n ==> r.data.date <= w.data.date)
      && (forall r :: r in rows && r.data.productName == n && r.data.date == w.data.date ==> !Beats(r, w, SqlRank))
  {
    var f := (x: PriceRow) => x.data.productName == n;
    var c := RowsNamed(rows, n);
    FilterMember(rows, f, r0);
    LatestSpec(c, SqlRank);
    var w := Latest(c, SqlRank).value;
    FilterMember(rows, f, w);
    forall r | r in rows && r.data.productName == n ensures r in c {
      FilterMember(rows, f, r);
    }
  }

  /** `w` is a latest row of its product: a row of the table on the
      product's latest date that no row of that product and date beats. */
  predicate IsLatestOf(rows: seq<PriceRow>, w: PriceRow) {
    w in rows
    && forall r :: r in rows && r.data.productName == w.data.productName ==>
         r.data.date <= w.data.date && (r.data.date == w.data.date ==> !Beats(r, w, SqlRank))
  }

  /** The result row of the `k`-th name. */
  lemma {:induction false} LatestAllShape(rows: seq<PriceRow>)
    ensures |LatestAllPreferAma(rows)| == |Names(rows)|
    ensures forall k :: 0 <= k < |Names(rows)| ==>
      LatestAllPreferAma(rows)[k].data.productName == Names(rows)[k] && IsLatestOf(rows, LatestAllPreferAma(rows)[k])
  {
    var names := Names(rows);
    var ws := Winners(rows, names);
    NamesSpec(rows);
    forall k | 0 <= k < |names|
      ensures ws[k].Some? && ws[k].value.data.productName == names[k] && IsLatestOf(rows, ws[k].value)
    {
      WinnersAt(rows, names, k);
      assert names[k] in names;
      var r0 :| r0 in rows && r0.data.productName == names[k];
      WinnerSpec(rows, names[k], r0);
    }
    SomesAll(ws);
  }

  /** One row per product name, in strictly ascending name order, and each
      is a latest row of its product. */
  lemma {:induction false} LatestAllSpec(rows: seq<PriceRow>, k: nat)
    requires k < |LatestAllPreferAma(rows)|
    ensures IsLatestOf(rows, LatestAllPreferAma(rows)[k])
    ensures forall j :: k < j < |LatestAllPreferAma(rows)| ==>
      Less(LatestAllPreferAma(rows)[k].data.productName, LatestAllPreferAma(rows)[j].data.productName)
  {
    LatestAllShape(rows);
    NamesSpec(rows);
  }

  /** Every product of the table has a row in the result. */
  lemma {:induction false} LatestAllCovers(rows: seq<PriceRow>, r: PriceRow)
    requires r in rows
    ensures exists k :: 0 <= k < |LatestAllPreferAma(rows)| && LatestAllPreferAma(rows)[k].data.productName == r.data.productName
  {
    LatestAllShape(rows);
    NamesSpec(rows);
    var names := Names(rows);
    assert r.data.productName in names;
    var k :| 0 <= k < |names| && names[k] == r.data.productName;
    assert LatestAllPreferAma(rows)[k].data.productName == r.data.productName;
  }
}
