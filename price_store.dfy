/** The `PriceRecommendation` table: one row per (productName, date), the
    compound unique key the upserts of the price service address. Dates are
    day numbers (every stored date is a UTC midnight). */
module PriceStore {
  import opened Wrappers
  import opened JsNumber

  /** The columns a writer supplies. */
  datatype RowData = RowData(
    productName: string,
    productUnit: Option<string>,
    unitKind: Option<string>,
    unitKg: Option<Number>,
    pricePerKg: Option<Number>,
    marketPrice: Number,
    suggestedPrice: Number,
    date: int,
    algorithmVersion: Option<string>)

  /** A stored row: the data and the `createdAt` the database stamped on insert. */
  datatype PriceRow = PriceRow(data: RowData, createdAt: int)

  function KeyOf(d: RowData): (string, int) {
    (d.productName, d.date)
  }

  function Key(r: PriceRow): (string, int) {
    KeyOf(r.data)
  }

  /** No two rows share a key. */
  predicate UniqueKeys(rows: seq<PriceRow>) {
    forall i, j :: 0 <= i < j < |rows| ==> Key(rows[i]) != Key(rows[j])
  }

  predicate HasKey(rows: seq<PriceRow>, key: (string, int)) {
    exists i :: 0 <= i < |rows| && Key(rows[i]) == key
  }

  /** Position of the row with `key`, if any. */
  function IndexOfKey(rows: seq<PriceRow>, key: (string, int)): (r: Option<nat>)
    ensures r.Some? ==> r.value < |rows| && Key(rows[r.value]) == key
    ensures r.None? <==> !HasKey(rows, key)
  {
    if rows == [] then None
    else if Key(rows[0]) == key then Some(0)
    else match IndexOfKey(rows[1..], key)
      case None => (assert forall i :: 1 <= i < |rows| ==> rows[i] == rows[1..][i - 1]; None)
      case Some(i) => Some(i + 1)
  }

  /** `createMany({ data, skipDuplicates: true })`: each row whose key is not yet
      present (in the table or earlier in the batch) is inserted, in order. */
  function SkipInserted(rows: seq<PriceRow>, data: seq<RowData>, now: int): (added: seq<PriceRow>)
    decreases |data|
  {
    if data == [] then []
    else if HasKey(rows, KeyOf(data[0])) then SkipInserted(rows, data[1..], now)
    else var r := PriceRow(data[0], now); [r] + SkipInserted(rows + [r], data[1..], now)
  }

  /** `upsert` on (productName, date). The update writes every column but the
      key and `createdAt`; since the key columns are equal, the row takes the
      new data and keeps its creation time. */
  function UpsertRows(rows: seq<PriceRow>, d: RowData, now: int): seq<PriceRow> {
    match IndexOfKey(rows, KeyOf(d))
    case Some(i) => rows[i := PriceRow(d, rows[i].createdAt)]
    case None => rows + [PriceRow(d, now)]
  }

  /* ---------------- properties of the writes ---------------- */

  lemma {:induction false} AppendFreshKey(rows: seq<PriceRow>, r: PriceRow)
    requires UniqueKeys(rows) && !HasKey(rows, Key(r))
    ensures UniqueKeys(rows + [r])
  {
    var t := rows + [r];
    forall i, j | 0 <= i < j < |t| ensures Key(t[i]) != Key(t[j]) {
      if j == |rows| {
        assert t[i] == rows[i];
      } else {
        assert t[i] == rows[i] && t[j] == rows[j];
      }
    }
  }

  /** Skip mode keeps keys unique, never changes an existing row, and inserts
      only rows whose key was absent. */
  lemma {:induction false} SkipInsertedSpec(rows: seq<PriceRow>, data: seq<RowData>, now: int)
    requires UniqueKeys(rows)
    ensures UniqueKeys(rows + SkipInserted(rows, data, now))
    ensures |SkipInserted(rows, data, now)| <= |data|
    ensures forall k :: 0 <= k < |SkipInserted(rows, data, now)| ==>
      !HasKey(rows, Key(SkipInserted(rows, data, now)[k])) && SkipInserted(rows, data, now)[k].createdAt == now
    decreases |data|
  {
    if data != [] {
      if HasKey(rows, KeyOf(data[0])) {
        SkipInsertedSpec(rows, data[1..], now);
      } else {
        var r := PriceRow(data[0], now);
        AppendFreshKey(rows, r);
        SkipInsertedSpec(rows + [r], data[1..], now);
        var rest := SkipInserted(rows + [r], data[1..], now);
        SkipStep(rows, data, now);
        assert SkipBase(rows, data[0], now) == rows + [r];
        forall k | 0 <= k < |rest| ensures !HasKey(rows, Key(rest[k])) {
          HasKeyPrefix(rows, [r], Key(rest[k]));
        }
      }
    }
  }

  /** A key present in a prefix is present in the whole. */
  lemma {:induction false} HasKeyPrefix(a: seq<PriceRow>, b: seq<PriceRow>, key: (string, int))
    ensures HasKey(a, key) ==> HasKey(a + b, key)
  {
    if HasKey(a, key) {
      var i :| 0 <= i < |a| && Key(a[i]) == key;
      assert (a + b)[i] == a[i];
    }
  }

  /** Every key of the batch is present in `rows`. */
  predicate AllPresent(rows: seq<PriceRow>, data: seq<RowData>) {
    forall k :: 0 <= k < |data| ==> HasKey(rows, KeyOf(data[k]))
  }

  lemma {:induction false} AllPresentCons(rows: seq<PriceRow>, data: seq<RowData>)
    requires data != []
    ensures AllPresent(rows, data) <==> HasKey(rows, KeyOf(data[0])) && AllPresent(rows, data[1..])
  {
    if HasKey(rows, KeyOf(data[0])) && AllPresent(rows, data[1..]) {
      forall k | 1 <= k < |data| ensures HasKey(rows, KeyOf(data[k])) {
        assert data[k] == data[1..][k - 1];
      }
    }
  }

  /** A batch whose keys are all present already inserts nothing. */
  lemma {:induction false} SkipAllPresent(rows: seq<PriceRow>, data: seq<RowData>, now: int)
    requires AllPresent(rows, data)
    ensures SkipInserted(rows, data, now) == []
    decreases |data|
  {
    if data != [] {
      AllPresentCons(rows, data);
      SkipAllPresent(rows, data[1..], now);
    }
  }

  /** After a skip-mode insert every key of the batch is in the table. */
  lemma {:induction false} SkipCoversBatch(rows: seq<PriceRow>, data: seq<RowData>, now: int)
    ensures AllPresent(rows + SkipInserted(rows, data, now), data)
    decreases |data|
  {
    if data != [] {
      var base := SkipBase(rows, data[0], now);
      var rest := SkipInserted(base, data[1..], now);
      SkipStep(rows, data, now);
      HasKeyPrefix(base, rest, KeyOf(data[0]));
      SkipCoversBatch(base, data[1..], now);
      AllPresentCons(base + rest, data);
    }
  }

  /** The table after the first row of a skip-mode batch is considered. */
  function SkipBase(rows: seq<PriceRow>, d: RowData, now: int): seq<PriceRow> {
    if HasKey(rows, KeyOf(d)) then rows else rows + [PriceRow(d, now)]
  }

  /** A skip-mode insert goes through `SkipBase` row by row, and the first
      row's key is present afterwards. */
  lemma {:induction false} SkipStep(rows: seq<PriceRow>, data: seq<RowData>, now: int)
    requires data != []
    ensures rows + SkipInserted(rows, data, now)
         == SkipBase(rows, data[0], now) + SkipInserted(SkipBase(rows, data[0], now), data[1..], now)
    ensures HasKey(SkipBase(rows, data[0], now), KeyOf(data[0]))
  {
    if !HasKey(rows, KeyOf(data[0])) {
      var r := PriceRow(data[0], now);
      assert (rows + [r])[|rows|] == r;
      SeqAssoc(rows, [r], SkipInserted(rows + [r], data[1..], now));
    }
  }

  /** Running the same batch a second time inserts nothing. */
  lemma {:induction false} SkipTwice(rows: seq<PriceRow>, data: seq<RowData>, now: int, later: int)
    ensures SkipInserted(rows + SkipInserted(rows, data, now), data, later) == []
  {
    SkipCoversBatch(rows, data, now);
    SkipAllPresent(rows + SkipInserted(rows, data, now), data, later);
  }

  /** An upsert loses no key. */
  lemma {:induction false} UpsertKeepsKeys(rows: seq<PriceRow>, d: RowData, now: int)
    ensures forall key :: HasKey(rows, key) ==> HasKey(UpsertRows(rows, d, now), key)
  {
    var t := UpsertRows(rows, d, now);
    forall key | HasKey(rows, key) ensures HasKey(t, key) {
      var i :| 0 <= i < |rows| && Key(rows[i]) == key;
      match IndexOfKey(rows, KeyOf(d))
      case Some(j) =>
        assert Key(t[i]) == key;
      case None =>
        assert t[i] == rows[i];
    }
  }

  lemma {:induction false} UpsertSpec(rows: seq<PriceRow>, d: RowData, now: int)
    requires UniqueKeys(rows)
    ensures var t := UpsertRows(rows, d, now);
      UniqueKeys(t) && HasKey(t, KeyOf(d))
      && (HasKey(rows, KeyOf(d)) ==> |t| == |rows|)
      && (!HasKey(rows, KeyOf(d)) ==> t == rows + [PriceRow(d, now)])
      && (forall i :: 0 <= i < |rows| && Key(rows[i]) != KeyOf(d) ==> t[i] == rows[i])
      && (forall i :: 0 <= i < |rows| && Key(rows[i]) == KeyOf(d) ==> t[i] == PriceRow(d, rows[i].createdAt))
  {
    var t := UpsertRows(rows, d, now);
    match IndexOfKey(rows, KeyOf(d))
    case Some(i) =>
      assert t[i] == PriceRow(d, rows[i].createdAt);
      assert Key(t[i]) == KeyOf(d);
    case None =>
      AppendFreshKey(rows, PriceRow(d, now));
      assert t[|rows|] == PriceRow(d, now);
  }

  /* ---------------- the table ---------------- */

  class PriceTable {
    var rows: seq<PriceRow>

    ghost predicate Valid()
      reads this
    {
      UniqueKeys(rows)
    }

    constructor ()
      ensures Valid() && rows == []
    {
      rows := [];
    }

    /** `createMany({ data, skipDuplicates: true })`, returning `count`. */
    method CreateManySkipDuplicates(data: seq<RowData>, now: int) returns (count: nat)
      requires Valid()
      modifies this
      ensures Valid()
      ensures rows == old(rows) + SkipInserted(old(rows), data, now)
      ensures count == |rows| - |old(rows)|
    {
      SkipInsertedSpec(rows, data, now);
      var added := SkipInserted(rows, data, now);
      rows := rows + added;
      count := |added|;
    }

    /** `upsert({ where: { productName_date }, update, create })`. */
    method Upsert(d: RowData, now: int)
      requires Valid()
      modifies this
      ensures Valid()
      ensures rows == UpsertRows(old(rows), d, now)
    {
      UpsertSpec(rows, d, now);
      rows := UpsertRows(rows, d, now);
    }
  }
}
