/** `syncPricesOnce`: try the AMA bulletin first and fall back to the
    Agrolink quotes when it fails or yields too few items. The bulletin's
    download and the Agrolink page are inputs: each is either its content or
    the error its fetch raised. */
module SyncPrices {
  import opened Wrappers
  import opened PriceStore
  import opened PriceService
  import opened AgrolinkCollector

  /** The defaults of `syncPricesOnce(minItems = 10, overwriteAgrolink = false)`. */
  const DefaultMinItems: int := 10
  const DefaultOverwrite: bool := false

  datatype Source = Ama | Agrolink

  /** `{ ok: true, source, amaCount, agrolink }`. */
  datatype SyncReport = SyncReport(source: Source, amaCount: nat, agrolink: Option<Counts>)

  /** The report (or the error that escapes) and the price table left behind. */
  datatype SyncOutcome = SyncOutcome(result: Result<SyncReport, string>, rows: seq<PriceRow>)

  /** How many items `extractData` returned, or None when it threw (the
      download failing included). */
  function AmaCount(bulletin: Result<string, string>): Option<nat> {
    if bulletin.Err? then None
    else match ExtractDataResult(bulletin.value)
      case Err(_) => None
      case Ok(pairs) => Some(|pairs|)
  }

  /** The table after the AMA attempt, whether or not it succeeded. */
  function AfterAma(rows: seq<PriceRow>, bulletin: Result<string, string>, now: int): seq<PriceRow> {
    if bulletin.Err? then rows else ExtractDataRows(rows, bulletin.value, now)
  }

  predicate AmaSuffices(bulletin: Result<string, string>, minItems: int) {
    AmaCount(bulletin).Some? && AmaCount(bulletin).value >= minItems
  }

  /** The table after the AMA attempt only appends to the table before it
      and keeps the keys unique. */
  lemma {:induction false} AfterAmaAppends(rows: seq<PriceRow>, bulletin: Result<string, string>, now: int)
    requires UniqueKeys(rows)
    ensures var mid := AfterAma(rows, bulletin, now);
      UniqueKeys(mid) && |rows| <= |mid| && mid[..|rows|] == rows
  {
    if bulletin.Ok? {
      ExtractDataAppends(rows, bulletin.value, now);
    } else {
      assert rows[..|rows|] == rows;
    }
  }

  /** The whole run as a function of the table and the two sources. */
  function Sync(rows: seq<PriceRow>, bulletin: Result<string, string>, page: Result<seq<PageRow>, string>,
                minItems: int, overwrite: bool, now: int): SyncOutcome
  {
    Decide(AmaCount(bulletin), AfterAma(rows, bulletin, now), page, minItems, overwrite, now)
  }

  /** The run once the AMA attempt has given `ama` items (None when it threw)
      and left the table `mid`. */
  function Decide(ama: Option<nat>, mid: seq<PriceRow>, page: Result<seq<PageRow>, string>,
                  minItems: int, overwrite: bool, now: int): SyncOutcome
  {
    if ama.Some? && ama.value >= minItems then SyncOutcome(Ok(SyncReport(Ama, ama.value, None)), mid)
    else if page.Err? then SyncOutcome(Err(page.error), mid)
    else
      var m := Materialize(mid, Converted(Collected(page.value)), overwrite, now);
      match m.result
      case Err(e) => SyncOutcome(Err(e), m.rows)
      case Ok(c) => SyncOutcome(Ok(SyncReport(Agrolink, 0, Some(c))), m.rows)
  }

  /** `syncPricesOnce(minItems, overwriteAgrolink)`. */
  method SyncPricesOnce(table: PriceTable, bulletin: Result<string, string>, page: Result<seq<PageRow>, string>,
                        minItems: int, overwrite: bool, now: int)
    returns (r: Result<SyncReport, string>)
    requires table.Valid()
    modifies table
    ensures table.Valid()
    ensures Sync(old(table.rows), bulletin, page, minItems, overwrite, now) == SyncOutcome(r, table.rows)
  {
    var ama := TryAma(table, bulletin, now);
    r := Fallback(table, ama, page, minItems, overwrite, now);
  }

  /** The `try` block up to the count: `extractData` and its item count. */
  method TryAma(table: PriceTable, bulletin: Result<string, string>, now: int) returns (ama: Option<nat>)
    requires table.Valid()
    modifies table
    ensures table.Valid()
    ensures ama == AmaCount(bulletin) && table.rows == AfterAma(old(table.rows), bulletin, now)
  {
    if bulletin.Err? {
      return None;
    }
    var res := ExtractData(table, bulletin.value, now);
    if res.Err? {
      return None;
    }
    return Some(|res.value|);
  }

  /** The count test and the Agrolink fallback. */
  method Fallback(table: PriceTable, ama: Option<nat>, page: Result<seq<PageRow>, string>,
                  minItems: int, overwrite: bool, now: int)
    returns (r: Result<SyncReport, string>)
    requires table.Valid()
    modifies table
    ensures table.Valid()
    ensures Decide(ama, old(table.rows), page, minItems, overwrite, now) == SyncOutcome(r, table.rows)
  {
    if ama.Some? && ama.value >= minItems {
      return Ok(SyncReport(Ama, ama.value, None));
    }
    if page.Err? {
      return Err(page.error);
    }
    var items := CollectAgrolinkJuazeiro(page.value);
    var m := MaterializeFromAgrolink(table, items, overwrite, now);
    if m.Err? {
      return Err(m.error);
    }
    return Ok(SyncReport(Agrolink, 0, Some(m.value)));
  }

  /** A run keeps the keys unique. It reports AMA exactly when the bulletin
      gave at least `minItems` items, and then never touches Agrolink; an
      Agrolink report carries an AMA count of 0 and the Agrolink counts; a run
      that fails has fallen back to Agrolink. */
  lemma {:induction false} SyncSpec(rows: seq<PriceRow>, bulletin: Result<string, string>, page: Result<seq<PageRow>, string>,
                 minItems: int, overwrite: bool, now: int)
    requires UniqueKeys(rows)
    ensures var o := Sync(rows, bulletin, page, minItems, overwrite, now);
      UniqueKeys(o.rows)
      && (o.result.Ok? && o.result.value.source == Ama <==> AmaSuffices(bulletin, minItems))
      && (AmaSuffices(bulletin, minItems) ==>
            o.rows == AfterAma(rows, bulletin, now) && o.result.value.amaCount >= minItems && o.result.value.agrolink.None?)
      && (o.result.Ok? && o.result.value.source == Agrolink ==>
            o.result.value.amaCount == 0 && o.result.value.agrolink.Some?)
      && (o.result.Err? ==> !AmaSuffices(bulletin, minItems))
  {
    AfterAmaAppends(rows, bulletin, now);
    DecideSpec(AmaCount(bulletin), AfterAma(rows, bulletin, now), page, minItems, overwrite, now);
  }

  lemma {:induction false} DecideSpec(ama: Option<nat>, mid: seq<PriceRow>, page: Result<seq<PageRow>, string>,
                   minItems: int, overwrite: bool, now: int)
    requires UniqueKeys(mid)
    ensures var o := Decide(ama, mid, page, minItems, overwrite, now);
      var suffices := ama.Some? && ama.value >= minItems;
      UniqueKeys(o.rows)
      && (o.result.Ok? && o.result.value.source == Ama <==> suffices)
      && (suffices ==> o.rows == mid && o.result.value.amaCount >= minItems && o.result.value.agrolink.None?)
      && (o.result.Ok? && o.result.value.source == Agrolink ==>
            o.result.value.amaCount == 0 && o.result.value.agrolink.Some?)
      && (o.result.Err? ==> !suffices)
      && (!overwrite ==> |mid| <= |o.rows| && o.rows[..|mid|] == mid)
      && (forall key :: HasKey(mid, key) ==> HasKey(o.rows, key))
  {
    var o := Decide(ama, mid, page, minItems, overwrite, now);
    if ama.Some? && ama.value >= minItems {
      assert o == SyncOutcome(Ok(SyncReport(Ama, ama.value, None)), mid);
      assert mid[..|mid|] == mid;
    } else if page.Err? {
      assert o == SyncOutcome(Err(page.error), mid);
      assert mid[..|mid|] == mid;
    } else {
      var m := Materialize(mid, Converted(Collected(page.value)), overwrite, now);
      FallbackKeepsTable(mid, Converted(Collected(page.value)), overwrite, now);
      assert o.rows == m.rows;
      assert o.result.Ok? ==> o.result.value == SyncReport(Agrolink, 0, Some(m.result.value));
    }
  }

  /** The Agrolink fallback keeps the keys unique and every stored key; without
      overwrite it keeps the stored rows at the front. */
  lemma {:induction false} FallbackKeepsTable(mid: seq<PriceRow>, conv: seq<Conversion>, overwrite: bool, now: int)
    requires UniqueKeys(mid)
    ensures var t := Materialize(mid, conv, overwrite, now).rows;
      UniqueKeys(t)
      && (!overwrite ==> |mid| <= |t| && t[..|mid|] == mid)
      && (forall key :: HasKey(mid, key) ==> HasKey(t, key))
  {
    if overwrite {
      MaterializeOverwriteSpec(mid, conv, now);
    } else {
      MaterializeSkipSpec(mid, conv, now);
      var t := Materialize(mid, conv, false, now).rows;
      forall key | HasKey(mid, key) ensures HasKey(t, key) {
        var i :| 0 <= i < |mid| && Key(mid[i]) == key;
        assert t[i] == t[..|mid|][i];
      }
    }
  }

  /** Without overwrite nothing already stored is changed or removed: the
      table before the run, and the rows the AMA attempt added, stay at the
      front of the table afterwards. */
  lemma {:induction false} SyncKeepsStoredRows(rows: seq<PriceRow>, bulletin: Result<string, string>, page: Result<seq<PageRow>, string>,
                            minItems: int, now: int)
    requires UniqueKeys(rows)
    ensures var o := Sync(rows, bulletin, page, minItems, false, now);
      var mid := AfterAma(rows, bulletin, now);
      |rows| <= |mid| <= |o.rows| && o.rows[..|mid|] == mid && o.rows[..|rows|] == rows
  {
    var mid := AfterAma(rows, bulletin, now);
    AfterAmaAppends(rows, bulletin, now);
    DecideSpec(AmaCount(bulletin), mid, page, minItems, false, now);
    PrefixTrans(rows, mid, Sync(rows, bulletin, page, minItems, false, now).rows);
  }

  /** With overwrite no key already stored is lost, though its row may be
      replaced. */
  lemma {:induction false} SyncOverwriteKeepsKeys(rows: seq<PriceRow>, bulletin: Result<string, string>, page: Result<seq<PageRow>, string>,
                               minItems: int, now: int, key: (string, int))
    requires UniqueKeys(rows) && HasKey(rows, key)
    ensures HasKey(Sync(rows, bulletin, page, minItems, true, now).rows, key)
  {
    var mid := AfterAma(rows, bulletin, now);
    AfterAmaAppends(rows, bulletin, now);
    var i :| 0 <= i < |rows| && Key(rows[i]) == key;
    assert mid[i] == mid[..|rows|][i];
    DecideSpec(AmaCount(bulletin), mid, page, minItems, true, now);
  }
}
