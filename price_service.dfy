/** The ingestion side of the price-recommendation service: reading the AMA
    bulletin (`extractProducts`, `extractData`) and materializing Agrolink
    quotes (`materializeFromAgrolink`) into the price table. */
module PriceService {
  import opened Wrappers
  import opened Text
  import opened JsNumber
  import opened PriceAmounts
  import opened AgrolinkName
  import opened PriceHelpers
  import opened PriceStore

  /* ---------------- extractProducts ---------------- */

  /** One bulletin product: its name line, the last price of its price line
      and its measure line. */
  datatype Item = Item(name: string, price: string, measure: string)

  /** `/^data[:\s]/i`: a "Data:" label line. */
  predicate IsDateLabel(s: string) {
    |s| > 4 && (s[0] == 'd' || s[0] == 'D') && (s[1] == 'a' || s[1] == 'A')
    && (s[2] == 't' || s[2] == 'T') && (s[3] == 'a' || s[3] == 'A') && (s[4] == ':' || IsSpace(s[4]))
  }

  /** What a price line contributes, given its amounts and the two lines
      above it: an item when it holds an amount and the name line is neither
      blank nor a date label. */
  function ItemFrom(prices: seq<string>, nameLine: string, measLine: string): Option<Item> {
    if prices == [] || IsDateLabel(nameLine) || !HasNonSpace(nameLine) then None
    else Some(Item(Trim(ReplaceAll(nameLine, LongSpacesMatch)), prices[|prices| - 1], NormSpaces(measLine)))
  }

  /** What line `i` contributes. */
  function ItemAt(lines: seq<string>, i: nat): Option<Item>
    requires 2 <= i < |lines|
  {
    ItemFrom(Amounts(lines[i]), lines[i - 2], lines[i - 1])
  }

  /** What lines 2 to `n - 1` contribute, in line order. */
  function LineItems(lines: seq<string>, n: nat): (r: seq<Option<Item>>)
    requires n <= |lines|
    ensures |r| == if n < 2 then 0 else n - 2
  {
    if n <= 2 then [] else LineItems(lines, n - 1) + [ItemAt(lines, n - 1)]
  }

  /** The bulletin's items. */
  function Products(lines: seq<string>): seq<Item> {
    Somes(LineItems(lines, |lines|))
  }

  lemma {:induction false} LineItemsStep(lines: seq<string>, n: nat)
    requires 2 <= n < |lines|
    ensures LineItems(lines, n + 1) == LineItems(lines, n) + [ItemAt(lines, n)]
  {
  }

  /** The line `i` of a price line without amount, or under a blank or label
      line, gives nothing. */
  lemma {:induction false} ItemAtNone(lines: seq<string>, i: nat)
    requires 2 <= i < |lines|
    requires Amounts(lines[i]) == [] || IsDateLabel(lines[i - 2]) || !HasNonSpace(lines[i - 2])
    ensures ItemAt(lines, i) == None
  {
  }

  /** `extractProducts`: the loop over the lines from the third on. */
  method ExtractProducts(lines: seq<string>) returns (items: seq<Item>)
    ensures items == Products(lines)
  {
    items := [];
    if |lines| < 2 {
      return;
    }
    ghost var seen: seq<Option<Item>> := [];
    var i := 2;
    while i < |lines|
      invariant 2 <= i <= |lines|
      invariant seen == LineItems(lines, i)
      invariant items == Somes(seen)
    {
      LineItemsStep(lines, i);
      var item := ItemAt(lines, i);
      SomesSnoc(seen, item);
      if item.Some? {
        items := items + [item.value];
      }
      seen := seen + [item];
      i := i + 1;
    }
  }

  /** A price line gives an item exactly when it holds an amount and the
      name line is a non-blank, non-label line; the item's price is the last
      amount, its name is not empty and its measure is space-normalized. */
  lemma {:induction false} ItemFromSpec(prices: seq<string>, nameLine: string, measLine: string)
    ensures ItemFrom(prices, nameLine, measLine).Some? <==>
      prices != [] && !IsDateLabel(nameLine) && HasNonSpace(nameLine)
    ensures ItemFrom(prices, nameLine, measLine).Some? ==>
      var it := ItemFrom(prices, nameLine, measLine).value;
      it.price == prices[|prices| - 1] && it.name != [] && IsNormalized(it.measure)
  {
    if ItemFrom(prices, nameLine, measLine).Some? {
      LongSpacesKeepNonSpace(nameLine);
      TrimEmpty(ReplaceAll(nameLine, LongSpacesMatch));
      NormSpacesShape(measLine);
    }
  }

  /** The price of every bulletin item has the shape of an amount. */
  lemma {:induction false} ItemAtPrice(lines: seq<string>, i: nat)
    requires 2 <= i < |lines|
    requires ItemAt(lines, i).Some?
    ensures AmountShape(ItemAt(lines, i).value.price)
  {
    var prices := Amounts(lines[i]);
    ItemFromSpec(prices, lines[i - 2], lines[i - 1]);
    AmountsShape(lines[i], 0);
    assert prices[|prices| - 1] in prices;
  }

  /** The contribution of line `k + 2`. */
  lemma {:induction false} LineItemsAt(lines: seq<string>, n: nat, k: nat)
    requires k + 2 < n <= |lines|
    ensures LineItems(lines, n)[k] == ItemAt(lines, k + 2)
    decreases n
  {
    LineItemsStep(lines, n - 1);
    if k + 2 < n - 1 {
      LineItemsAt(lines, n - 1, k);
      PrefixIndex(LineItems(lines, n - 1), [ItemAt(lines, n - 1)], k);
    } else {
      LastIndex(LineItems(lines, n - 1), ItemAt(lines, n - 1));
    }
  }

  /** Every item comes from some line from 2 on. */
  lemma {:induction false} ProductsSound(lines: seq<string>, it: Item)
    requires it in Products(lines)
    ensures exists i :: 2 <= i < |lines| && ItemAt(lines, i) == Some(it)
  {
    var c := LineItems(lines, |lines|);
    SomesMember(c, it);
    var k :| 0 <= k < |c| && c[k] == Some(it);
    LineItemsAt(lines, |lines|, k);
  }

  /** Every line from 2 on that gives an item has it in the result. */
  lemma {:induction false} ProductsComplete(lines: seq<string>, i: nat, it: Item)
    requires 2 <= i < |lines| && ItemAt(lines, i) == Some(it)
    ensures it in Products(lines)
  {
    LineItemsAt(lines, |lines|, i - 2);
    SomesAt(LineItems(lines, |lines|), i - 2, it);
  }

  /** At most one item per line, and none from the first two lines. */
  lemma {:induction false} ProductsCount(lines: seq<string>)
    requires |lines| >= 2
    ensures |Products(lines)| <= |lines| - 2
  {
    SomesCount(LineItems(lines, |lines|));
  }

  /** Lines without amounts give no items. */
  lemma {:induction false} ProductsNoAmounts(lines: seq<string>)
    requires forall i :: 0 <= i < |lines| ==> Amounts(lines[i]) == []
    ensures Products(lines) == []
  {
    var c := LineItems(lines, |lines|);
    forall k | 0 <= k < |c| ensures c[k].None? {
      LineItemsAt(lines, |lines|, k);
      ItemAtNone(lines, k + 2);
    }
    SomesNone(c);
  }

  /* ---------------- AMA rows ---------------- */

  /** The `algorithmVersion` tags of the two sources. */
  const AmaVersion: string := "ama-pdf-v1"
  const AgrolinkVersion: string := "agrolink-ocr-v1"

  /** The error a write of a row with an invalid date fails with. */
  const InvalidDate: string := "Invalid Date"

  /** `/KG\b/` at position `j`. */
  predicate KgWordAt(m: string, j: nat) {
    EqAt(m, j, "KG") && IsBoundary(m, j + 2)
  }

  /** `/UNID/` at position `j`. */
  predicate UnidAt(m: string, j: nat) {
    EqAt(m, j, "UNID")
  }

  /** The AMA measure rule on the upper-cased measure: "KG" as a word end gives
      kind Kg, else "UNID" gives Un, else no kind. */
  function AmaKind(measure: string): (k: Option<string>)
    ensures k.Some? ==> k.value == "Kg" || k.value == "Un"
  {
    var m := ToUpper(measure);
    if exists j: nat :: j <= |m| && KgWordAt(m, j) then Some("Kg")
    else if exists j: nat :: j <= |m| && UnidAt(m, j) then Some("Un")
    else None
  }

  /** The row an AMA item becomes, dated with the bulletin's day; none when
      its name cleans to nothing. */
  function AmaRow(it: Item, day: int): Option<RowData> {
    AmaRowOf(SanitizeProductNameForDb(it.name), AmaKind(it.measure), ParseDecimal(it.price), day)
  }

  /** The row of a sanitized name, a measure kind and a price. */
  function AmaRowOf(name: Option<string>, kind: Option<string>, priceNum: Number, day: int): Option<RowData> {
    match name
    case None => None
    case Some(productName) =>
      var kg := if kind == Some("Kg") then Some(Num(1.0)) else None;
      Some(RowData(productName, None, kind, kg, ComputePricePerKg(priceNum, kg), priceNum, priceNum, day, Some(AmaVersion)))
  }

  /** The `map`/`filter` of `extractData`: the rows of the items with a name. */
  function AmaRows(items: seq<Item>, day: int): seq<RowData> {
    Somes(AmaCandidates(items, day))
  }

  function AmaCandidates(items: seq<Item>, day: int): (r: seq<Option<RowData>>)
    ensures |r| == |items|
  {
    seq(|items|, k requires 0 <= k < |items| => AmaRow(items[k], day))
  }

  /** Whether some item has a name that survives sanitizing. */
  predicate AnyNamed(items: seq<Item>) {
    exists k :: 0 <= k < |items| && HasNonSpace(items[k].name)
  }

  /** An AMA item gives a row exactly when its name has a non-blank
      character; the row carries the upper-cased cleaned name, the bulletin
      day, the AMA version and the bulletin price as both prices. */
  lemma {:induction false} AmaRowSpec(it: Item, day: int)
    ensures AmaRow(it, day).Some? <==> HasNonSpace(it.name)
    ensures AmaRow(it, day).Some? ==>
      var d := AmaRow(it, day).value;
      d.productName == ToUpper(CleanProductName(it.name)) && d.date == day
      && d.algorithmVersion == Some(AmaVersion) && d.productUnit.None?
      && d.marketPrice == ParseDecimal(it.price) && d.suggestedPrice == d.marketPrice
  {
    SanitizeSpec(it.name);
  }

  /** A kilogram measure gives weight 1 and a per-kilogram price equal to the
      price; any other measure gives neither. */
  lemma {:induction false} AmaRowWeight(it: Item, day: int)
    requires AmountShape(it.price)
    requires AmaRow(it, day).Some?
    ensures var d := AmaRow(it, day).value;
      (d.unitKind == Some("Kg") ==> d.unitKg == Some(Num(1.0)) && d.pricePerKg == Some(d.marketPrice))
      && (d.unitKind != Some("Kg") ==> d.unitKg.None? && d.pricePerKg.None?)
  {
    var p := ParseDecimal(it.price);
    Round2Amount(it.price);
    DivByOne(p);
  }

  lemma {:induction false} DivByOne(p: Number)
    ensures DivBy(p, 1.0) == p
  {
  }

  /** A row is written for an item exactly when the item gives one. */
  lemma {:induction false} AmaRowsSpec(items: seq<Item>, day: int, d: RowData)
    ensures d in AmaRows(items, day) <==> exists k :: 0 <= k < |items| && AmaRow(items[k], day) == Some(d)
  {
    var c := AmaCandidates(items, day);
    SomesMember(c, d);
    if exists k :: 0 <= k < |items| && AmaRow(items[k], day) == Some(d) {
      var k :| 0 <= k < |items| && AmaRow(items[k], day) == Some(d);
      assert c[k] == Some(d);
    }
  }

  /** Every AMA row has a non-empty name, the AMA version and the bulletin
      day, and there is at most one per item. */
  lemma {:induction false} AmaRowsNamed(items: seq<Item>, day: int, d: RowData)
    requires d in AmaRows(items, day)
    ensures |AmaRows(items, day)| <= |items|
    ensures d.productName != [] && d.algorithmVersion == Some(AmaVersion) && d.date == day
  {
    SomesCount(AmaCandidates(items, day));
    AmaRowsSpec(items, day, d);
    var k :| 0 <= k < |items| && AmaRow(items[k], day) == Some(d);
  }

  /** There are rows to write exactly when some item has a non-blank name,
      whatever the day. */
  lemma {:induction false} AmaRowsEmpty(items: seq<Item>, day: int)
    ensures AmaRows(items, day) != [] <==> AnyNamed(items)
  {
    var c := AmaCandidates(items, day);
    SomesEmpty(c);
    forall k | 0 <= k < |items| ensures c[k].Some? <==> HasNonSpace(items[k].name) {
      AmaRowSpec(items[k], day);
    }
  }

  /* ---------------- extractData ---------------- */

  /** `\d{2}\/\d{2}\/\d{4}` at position `i`. */
  predicate DateAt(s: string, i: nat) {
    i + 10 <= |s| && IsDigit(s[i]) && IsDigit(s[i + 1]) && s[i + 2] == '/'
    && IsDigit(s[i + 3]) && IsDigit(s[i + 4]) && s[i + 5] == '/'
    && IsDigit(s[i + 6]) && IsDigit(s[i + 7]) && IsDigit(s[i + 8]) && IsDigit(s[i + 9])
  }

  /** Position of the first date in `s` from `i` on (`text.match`). */
  function FindDate(s: string, i: nat): (r: Option<nat>)
    ensures r.Some? ==> i <= r.value && DateAt(s, r.value)
    ensures r.Some? ==> forall j :: i <= j < r.value ==> !DateAt(s, j)
    ensures r.None? ==> forall j :: i <= j < |s| ==> !DateAt(s, j)
    decreases |s| - i
  {
    if i >= |s| then None else if DateAt(s, i) then Some(i) else FindDate(s, i + 1)
  }

  /** `text.split(/\r?\n/).map(l => l.trim()).filter(Boolean)`. */
  function UsefulLines(ls: seq<string>): (r: seq<string>)
    ensures forall k :: 0 <= k < |r| ==> r[k] != []
  {
    if ls == [] then []
    else (if Trim(ls[0]) != [] then [Trim(ls[0])] else []) + UsefulLines(ls[1..])
  }

  function BulletinLines(text: string): seq<string> {
    UsefulLines(Lines(text))
  }

  function BulletinItems(text: string): seq<Item> {
    Products(BulletinLines(text))
  }

  /** The day of the bulletin's first date, when it is a valid date. */
  function BulletinDay(text: string): Option<int> {
    match FindDate(text, 0)
    case None => None
    case Some(k) =>
      match DateBRToUTCDate(text[k..k + 10])
      case Ok(Some(day)) => Some(day)
      case _ => None
  }

  /** A matched date holds a '/', so reading it never throws. */
  lemma {:induction false} FoundDateParses(s: string, i: nat)
    requires DateAt(s, i)
    ensures DateBRToUTCDate(s[i..i + 10]).Ok?
  {
    assert s[i..i + 10][2] == '/';
    DateBRError(s[i..i + 10]);
  }

  /** The (name, price) pairs `extractData` returns. */
  function Pairs(items: seq<Item>): (r: seq<(string, string)>)
    ensures |r| == |items|
    ensures forall k :: 0 <= k < |items| ==> r[k] == (items[k].name, items[k].price)
  {
    if items == [] then [] else [(items[0].name, items[0].price)] + Pairs(items[1..])
  }

  /** What `extractData` returns for a bulletin text, or the error it throws. */
  function ExtractDataResult(text: string): Result<seq<(string, string)>, string> {
    if FindDate(text, 0).None? then Err("Data não encontrada no PDF")
    else if BulletinDay(text).None? && AnyNamed(BulletinItems(text)) then Err(InvalidDate)
    else Ok(Pairs(BulletinItems(text)))
  }

  /** The price table after `extractData`: the AMA rows appended in
      skip-duplicates mode when the bulletin's date is valid. */
  function ExtractDataRows(rows: seq<PriceRow>, text: string, now: int): seq<PriceRow> {
    match BulletinDay(text)
    case Some(day) => rows + SkipInserted(rows, AmaRows(BulletinItems(text), day), now)
    case None => rows
  }

  /** `extractData` only appends: the stored rows stay as they were and the
      keys stay unique; it writes nothing when it fails, and with a valid
      date every AMA row of the bulletin has its key stored afterwards. */
  lemma {:induction false} ExtractDataAppends(rows: seq<PriceRow>, text: string, now: int)
    requires UniqueKeys(rows)
    ensures var t := ExtractDataRows(rows, text, now);
      UniqueKeys(t) && |rows| <= |t| && t[..|rows|] == rows
      && (ExtractDataResult(text).Err? ==> t == rows)
      && (BulletinDay(text).Some? ==> AllPresent(t, AmaRows(BulletinItems(text), BulletinDay(text).value)))
  {
    match BulletinDay(text)
    case None =>
    case Some(day) =>
      var data := AmaRows(BulletinItems(text), day);
      var t := rows + SkipInserted(rows, data, now);
      assert t[..|rows|] == rows;
      SkipInsertedSpec(rows, data, now);
      SkipCoversBatch(rows, data, now);
  }

  /** `extractData` once the bulletin's text is known (the download and the
      PDF reading are outside the model): without a date it fails and writes
      nothing; otherwise it inserts the AMA rows in skip-duplicates mode and
      returns the pairs. An invalid date makes the insert fail. */
  method ExtractData(table: PriceTable, text: string, now: int) returns (r: Result<seq<(string, string)>, string>)
    requires table.Valid()
    modifies table
    ensures table.Valid()
    ensures FindDate(text, 0).None? ==> r.Err? && table.rows == old(table.rows)
    ensures BulletinDay(text).Some? ==>
      r == Ok(Pairs(BulletinItems(text)))
      && table.rows == old(table.rows) + SkipInserted(old(table.rows), AmaRows(BulletinItems(text), BulletinDay(text).value), now)
    ensures FindDate(text, 0).Some? && BulletinDay(text).None? ==>
      table.rows == old(table.rows)
      && r == (if AnyNamed(BulletinItems(text)) then Err(InvalidDate) else Ok(Pairs(BulletinItems(text))))
    ensures r == ExtractDataResult(text) && table.rows == ExtractDataRows(old(table.rows), text, now)
  {
    var k := FindDate(text, 0);
    if k.None? {
      return Err("Data não encontrada no PDF");
    }
    var priceDate := DateBRToUTCDate(text[k.value..k.value + 10]);
    FoundDateParses(text, k.value);
    var lines := UsefulLines(Lines(text));
    var items := ExtractProducts(lines);
    r := StoreAmaRows(table, items, priceDate.value, now);
  }

  /** Step 6 of `extractData`: the rows of the named items, dated `date`, are
      inserted in skip-duplicates mode, and the pairs are returned. With an
      invalid date the insert fails, unless there is nothing to insert. */
  method StoreAmaRows(table: PriceTable, items: seq<Item>, date: Option<int>, now: int)
    returns (r: Result<seq<(string, string)>, string>)
    requires table.Valid()
    modifies table
    ensures table.Valid()
    ensures date.Some? ==>
      r == Ok(Pairs(items)) && table.rows == old(table.rows) + SkipInserted(old(table.rows), AmaRows(items, date.value), now)
    ensures date.None? ==>
      table.rows == old(table.rows) && r == (if AnyNamed(items) then Err(InvalidDate) else Ok(Pairs(items)))
  {
    if date.Some? {
      var rows := AmaRows(items, date.value);
      if rows != [] {
        var _ := table.CreateManySkipDuplicates(rows, now);
      } else {
        assert old(table.rows) + SkipInserted(old(table.rows), rows, now) == table.rows;
      }
    } else if AnyNamed(items) {
      return Err(InvalidDate);
    }
    return Ok(Pairs(items));
  }

  /* ---------------- materializeFromAgrolink ---------------- */

  /** A quote collected from the Agrolink table. */
  datatype AgrolinkItem = AgrolinkItem(produto: string, name: string, unit: Option<string>,
                                       local: string, preco: string, data: string)

  /** The row an Agrolink item becomes: `Ok(None)` when its name cleans to
      nothing (the date is then never read), `Err` when its date throws or is
      invalid. */
  function AgrolinkRow(it: AgrolinkItem): Result<Option<RowData>, string> {
    var raw := StripLocalFrom(if it.produto != [] then it.produto else it.name, it.local);
    var split := SplitSpec(raw);
    AgrolinkRowOf(SanitizeProductNameForDb(if split.name != [] then split.name else raw), split.unit,
                  ParseUnitDetails(split.unit), ParseDecimal(it.preco), DateBRToUTCDate(it.data))
  }

  /** The row of a sanitized name, a unit and its details, a price and a date. */
  function AgrolinkRowOf(name: Option<string>, unit: Option<string>, details: UnitDetails, priceNum: Number,
                         date: Result<Option<int>, string>): Result<Option<RowData>, string> {
    match name
    case None => Ok(None)
    case Some(productName) =>
      match date
      case Err(e) => Err(e)
      case Ok(None) => Err(InvalidDate)
      case Ok(Some(day)) =>
        Ok(Some(RowData(productName, unit, details.unitKind, details.unitKg,
                        ComputePricePerKg(priceNum, details.unitKg), priceNum, priceNum, day, Some(AgrolinkVersion))))
  }

  /** A written Agrolink row: a non-empty name, the Agrolink version, equal
      market and suggested prices, and the per-kilogram price of its own price
      and weight. */
  predicate WellFormedAgrolinkRow(d: RowData) {
    d.productName != [] && d.algorithmVersion == Some(AgrolinkVersion)
    && d.suggestedPrice == d.marketPrice && d.pricePerKg == ComputePricePerKg(d.marketPrice, d.unitKg)
  }

  /** The name `materializeFromAgrolink` sanitizes: the product text with
      the location stripped, reduced to its product part when the split finds
      one. */
  function AgrolinkRawName(it: AgrolinkItem): string {
    var raw := StripLocalFrom(if it.produto != [] then it.produto else it.name, it.local);
    var split := SplitSpec(raw);
    if split.name != [] then split.name else raw
  }

  /** An item whose name cleans to nothing is skipped without reading its
      date; otherwise a throwing date or an invalid date fails, and a valid
      one gives a well-formed row of that day. */
  lemma {:induction false} AgrolinkRowSpec(it: AgrolinkItem)
    ensures AgrolinkRow(it) == Ok(None) <==> !HasNonSpace(AgrolinkRawName(it))
    ensures HasNonSpace(AgrolinkRawName(it)) ==>
      match DateBRToUTCDate(it.data)
      case Err(e) => AgrolinkRow(it) == Err(e)
      case Ok(None) => AgrolinkRow(it) == Err(InvalidDate)
      case Ok(Some(day)) =>
        AgrolinkRow(it).Ok? && AgrolinkRow(it).value.Some?
        && WellFormedAgrolinkRow(AgrolinkRow(it).value.value) && AgrolinkRow(it).value.value.date == day
  {
    var raw := StripLocalFrom(if it.produto != [] then it.produto else it.name, it.local);
    var split := SplitSpec(raw);
    var name := if split.name != [] then split.name else raw;
    SanitizeSpec(name);
    AgrolinkRowOfSpec(SanitizeProductNameForDb(name), split.unit,
                      ParseUnitDetails(split.unit), ParseDecimal(it.preco), DateBRToUTCDate(it.data));
  }

  lemma {:induction false} AgrolinkRowOfSpec(name: Option<string>, unit: Option<string>, details: UnitDetails, priceNum: Number,
                          date: Result<Option<int>, string>)
    requires name.Some? ==> name.value != []
    ensures var r := AgrolinkRowOf(name, unit, details, priceNum, date);
      (r == Ok(None) <==> name.None?)
      && (name.Some? && date.Err? ==> r == Err(date.error))
      && (name.Some? && date == Ok(None) ==> r == Err(InvalidDate))
      && (name.Some? && date.Ok? && date.value.Some? ==>
            r.Ok? && r.value.Some? && WellFormedAgrolinkRow(r.value.value) && r.value.value.date == date.value.value)
  {
  }

  /** Every row skip mode writes is well formed. */
  lemma {:induction false} AgrolinkRowsWellFormed(items: seq<AgrolinkItem>, d: RowData)
    requires AgrolinkRows(items).Ok? && d in AgrolinkRows(items).value
    ensures WellFormedAgrolinkRow(d)
  {
    var conv := Converted(items);
    CollectRowsMember(conv, d);
    var k :| 0 <= k < |conv| && conv[k] == Ok(Some(d));
    ConvertedAt(items, k);
    AgrolinkRowSpec(items[k]);
  }

  /** What converting one item gives. */
  type Conversion = Result<Option<RowData>, string>

  /** The conversion of every item, in order. */
  function Converted(items: seq<AgrolinkItem>): (r: seq<Conversion>)
    ensures |r| == |items|
  {
    seq(|items|, k requires 0 <= k < |items| => AgrolinkRow(items[k]))
  }

  lemma {:induction false} ConvertedAt(items: seq<AgrolinkItem>, i: nat)
    requires i < |items|
    ensures Converted(items)[i] == AgrolinkRow(items[i])
  {
  }

  /** A conversion failure the `map` throws itself. An invalid date is not
      one: `new Date` does not throw, so the row carries the invalid date on
      to `createMany`, which refuses the whole batch. */
  predicate Thrown(c: Conversion) {
    c.Err? && c.error != InvalidDate
  }

  /** The first failure the `map` throws, in item order. */
  function FirstThrown(conv: seq<Conversion>): Option<string> {
    if conv == [] then None
    else if Thrown(conv[0]) then Some(conv[0].error)
    else FirstThrown(conv[1..])
  }

  /** The rows the `filter` keeps: those of the converted items, in order. */
  function RowsOf(conv: seq<Conversion>): seq<RowData> {
    if conv == [] then []
    else (if conv[0].Ok? then AsSeq(conv[0].value) else []) + RowsOf(conv[1..])
  }

  /** Some item's date is invalid. */
  predicate HasInvalidDate(conv: seq<Conversion>) {
    exists k :: 0 <= k < |conv| && conv[k] == Err(InvalidDate)
  }

  /** Skip mode's `map`/`filter` and the validation of `createMany`: the
      first failure the `map` throws; otherwise the refusal of an invalid
      date; otherwise the rows to insert. */
  function CollectRows(conv: seq<Conversion>): Result<seq<RowData>, string> {
    match FirstThrown(conv)
    case Some(e) => Err(e)
    case None => if HasInvalidDate(conv) then Err(InvalidDate) else Ok(RowsOf(conv))
  }

  /** `FirstThrown` is the first thrown failure, and none exactly when no
      item throws. */
  lemma {:induction false} FirstThrownSpec(conv: seq<Conversion>)
    ensures FirstThrown(conv).None? <==> forall k :: 0 <= k < |conv| ==> !Thrown(conv[k])
    ensures FirstThrown(conv).Some? ==>
      exists k :: 0 <= k < |conv| && Thrown(conv[k]) && conv[k].error == FirstThrown(conv).value
        && forall j :: 0 <= j < k ==> !Thrown(conv[j])
  {
    if conv != [] {
      var rest := conv[1..];
      FirstThrownSpec(rest);
      assert forall k :: 1 <= k < |conv| ==> rest[k - 1] == conv[k];
      if !Thrown(conv[0]) && FirstThrown(rest).Some? {
        var k :| 0 <= k < |rest| && Thrown(rest[k]) && rest[k].error == FirstThrown(rest).value
          && forall j :: 0 <= j < k ==> !Thrown(rest[j]);
        assert forall j :: 1 <= j < k + 1 ==> conv[j] == rest[j - 1];
        assert Thrown(conv[k + 1]) && conv[k + 1].error == FirstThrown(conv).value;
      }
    }
  }

  /** Skip mode, one item at a time: a converted item adds its rows, a
      thrown failure fails the batch with its own error, and an invalid date
      fails it unless a later item throws. */
  lemma {:induction false} CollectRowsStep(conv: seq<Conversion>)
    requires conv != []
    ensures conv[0].Ok? ==>
      CollectRows(conv) == (match CollectRows(conv[1..]) case Err(e) => Err(e) case Ok(r) => Ok(AsSeq(conv[0].value) + r))
    ensures Thrown(conv[0]) ==> CollectRows(conv) == Err(conv[0].error)
    ensures conv[0] == Err(InvalidDate) ==>
      CollectRows(conv) == (if FirstThrown(conv[1..]).Some? then Err(FirstThrown(conv[1..]).value) else Err(InvalidDate))
  {
    var rest := conv[1..];
    assert forall k :: 1 <= k < |conv| ==> rest[k - 1] == conv[k];
    if conv[0].Ok? {
      if HasInvalidDate(conv) {
        var k :| 0 <= k < |conv| && conv[k] == Err(InvalidDate);
        assert rest[k - 1] == Err(InvalidDate);
      }
      if HasInvalidDate(rest) {
        var k :| 0 <= k < |rest| && rest[k] == Err(InvalidDate);
        assert conv[k + 1] == Err(InvalidDate);
      }
    } else if conv[0] == Err(InvalidDate) {
      assert HasInvalidDate(conv);
    }
  }

  function AgrolinkRows(items: seq<AgrolinkItem>): Result<seq<RowData>, string> {
    CollectRows(Converted(items))
  }

  /** What overwrite mode leaves behind: the table, the count of upserts, and
      the error that stopped the loop, if any. */
  datatype Outcome = Outcome(rows: seq<PriceRow>, written: nat, error: Option<string>)

  /** The overwrite loop on the converted items: each row is upserted in
      turn, a row-less item is skipped and a failure stops the loop. */
  function UpsertAll(rows: seq<PriceRow>, conv: seq<Conversion>, now: int): Outcome
    decreases |conv|
  {
    if conv == [] then Outcome(rows, 0, None)
    else match conv[0]
      case Err(e) => Outcome(rows, 0, Some(e))
      case Ok(None) => UpsertAll(rows, conv[1..], now)
      case Ok(Some(d)) =>
        var o := UpsertAll(UpsertRows(rows, d, now), conv[1..], now);
        Outcome(o.rows, o.written + 1, o.error)
  }

  /** One step of the overwrite loop. */
  lemma {:induction false} UpsertAllStep(rows: seq<PriceRow>, conv: seq<Conversion>, i: nat, now: int)
    requires i < |conv|
    ensures conv[i].Err? ==> UpsertAll(rows, conv[i..], now) == Outcome(rows, 0, Some(conv[i].error))
    ensures conv[i] == Ok(None) ==> UpsertAll(rows, conv[i..], now) == UpsertAll(rows, conv[i + 1..], now)
    ensures conv[i].Ok? && conv[i].value.Some? ==>
      var o := UpsertAll(UpsertRows(rows, conv[i].value.value, now), conv[i + 1..], now);
      UpsertAll(rows, conv[i..], now) == Outcome(o.rows, o.written + 1, o.error)
  {
    assert conv[i..][0] == conv[i];
    assert conv[i..][1..] == conv[i + 1..];
  }

  /** Skip mode fails exactly when some item fails. */
  lemma {:induction false} CollectRowsOk(conv: seq<Conversion>)
    ensures CollectRows(conv).Ok? <==> forall k :: 0 <= k < |conv| ==> conv[k].Ok?
  {
    FirstThrownSpec(conv);
    if CollectRows(conv).Ok? {
      forall k | 0 <= k < |conv| ensures conv[k].Ok? {
        assert !Thrown(conv[k]);
        assert conv[k] != Err(InvalidDate);
      }
    }
  }

  /** The `filter` keeps the rows of the items that have one, and no other. */
  lemma {:induction false} RowsOfMember(conv: seq<Conversion>, d: RowData)
    ensures d in RowsOf(conv) <==> exists k :: 0 <= k < |conv| && conv[k] == Ok(Some(d))
  {
    if conv != [] {
      var rest := conv[1..];
      RowsOfMember(rest, d);
      if exists k :: 0 <= k < |rest| && rest[k] == Ok(Some(d)) {
        var k :| 0 <= k < |rest| && rest[k] == Ok(Some(d));
        assert conv[k + 1] == Ok(Some(d));
      }
      if exists k :: 0 <= k < |conv| && conv[k] == Ok(Some(d)) {
        var k :| 0 <= k < |conv| && conv[k] == Ok(Some(d));
        if k > 0 {
          assert rest[k - 1] == Ok(Some(d));
        }
      }
    }
  }

  /** Skip mode writes the rows of the items that have one, and no other. */
  lemma {:induction false} CollectRowsMember(conv: seq<Conversion>, d: RowData)
    requires CollectRows(conv).Ok?
    ensures d in CollectRows(conv).value <==> exists k :: 0 <= k < |conv| && conv[k] == Ok(Some(d))
  {
    RowsOfMember(conv, d);
  }

  /** Skip mode's error: when some item throws, the first such item's own
      error, wherever an invalid date stands; otherwise the invalid date's. */
  lemma {:induction false} CollectRowsFailure(conv: seq<Conversion>)
    ensures (exists k :: 0 <= k < |conv| && Thrown(conv[k])) ==>
      exists k :: 0 <= k < |conv| && Thrown(conv[k]) && CollectRows(conv) == Err(conv[k].error)
        && forall j :: 0 <= j < k ==> !Thrown(conv[j])
    ensures (forall k :: 0 <= k < |conv| ==> !Thrown(conv[k])) && HasInvalidDate(conv) ==>
      CollectRows(conv) == Err(InvalidDate)
  {
    FirstThrownSpec(conv);
  }

  /** An invalid date followed by a thrown TypeError: skip mode fails with
      the TypeError, overwrite mode with the invalid date. */
  lemma SkipReportsThrownFirst(rows: seq<PriceRow>, now: int)
    ensures var conv := [Err(InvalidDate), Err("TypeError")];
      Materialize(rows, conv, false, now).result == Err("TypeError")
      && Materialize(rows, conv, true, now).result == Err(InvalidDate)
  {
    var conv: seq<Conversion> := [Err(InvalidDate), Err("TypeError")];
    assert Thrown(conv[1]) && !Thrown(conv[0]);
    assert conv[1..][1..] == [];
    assert FirstThrown(conv[1..]) == Some("TypeError");
    CollectRowsStep(conv);
    assert CollectRows(conv) == Err("TypeError");
    assert UpsertAll(rows, conv, now).error == Some(InvalidDate);
  }

  /** The two modes fail together, and without a failure overwrite mode
      upserts as many rows as skip mode would insert. When no item throws,
      both fail with the invalid date. */
  lemma {:induction false} UpsertAllMatchesCollect(rows: seq<PriceRow>, conv: seq<Conversion>, now: int)
    ensures var o := UpsertAll(rows, conv, now);
      (o.error.None? <==> CollectRows(conv).Ok?)
      && (CollectRows(conv).Ok? ==> o.written == |CollectRows(conv).value|)
      && ((forall k :: 0 <= k < |conv| ==> !Thrown(conv[k])) && CollectRows(conv).Err? ==>
            o.error == Some(CollectRows(conv).error))
    decreases |conv|
  {
    if conv != [] {
      var rest := conv[1..];
      assert forall k :: 1 <= k < |conv| ==> rest[k - 1] == conv[k];
      CollectRowsStep(conv);
      FirstThrownSpec(rest);
      match conv[0]
      case Err(_) =>
      case Ok(None) =>
        UpsertAllMatchesCollect(rows, rest, now);
      case Ok(Some(d)) =>
        UpsertAllMatchesCollect(UpsertRows(rows, d, now), rest, now);
    }
  }

  /** Overwrite mode stops at the first failing item, with its error. */
  lemma {:induction false} UpsertAllFirstFailure(rows: seq<PriceRow>, conv: seq<Conversion>, now: int)
    ensures var o := UpsertAll(rows, conv, now);
      o.error.Some? ==>
        exists k :: 0 <= k < |conv| && conv[k] == Err(o.error.value) && forall j :: 0 <= j < k ==> conv[j].Ok?
    decreases |conv|
  {
    if conv != [] {
      var rest := conv[1..];
      match conv[0]
      case Err(_) =>
      case Ok(x) =>
        var t := if x.Some? then UpsertRows(rows, x.value, now) else rows;
        UpsertAllFirstFailure(t, rest, now);
        var o := UpsertAll(t, rest, now);
        if o.error.Some? {
          var k :| 0 <= k < |rest| && rest[k] == Err(o.error.value) && forall j :: 0 <= j < k ==> rest[j].Ok?;
          assert conv[k + 1] == rest[k];
          assert forall j :: 1 <= j < k + 1 ==> conv[j] == rest[j - 1];
        }
    }
  }

  /** Overwrite mode keeps the keys unique, loses no key, and when it does
      not fail every row it was given is stored under its key. */
  lemma {:induction false} UpsertAllKeys(rows: seq<PriceRow>, conv: seq<Conversion>, now: int)
    requires UniqueKeys(rows)
    ensures var o := UpsertAll(rows, conv, now);
      UniqueKeys(o.rows) && o.written <= |conv|
      && (forall key :: HasKey(rows, key) ==> HasKey(o.rows, key))
      && (o.error.None? ==> forall k :: 0 <= k < |conv| && conv[k].Ok? && conv[k].value.Some? ==>
            HasKey(o.rows, KeyOf(conv[k].value.value)))
    decreases |conv|
  {
    if conv != [] {
      var rest := conv[1..];
      assert forall k :: 1 <= k < |conv| ==> rest[k - 1] == conv[k];
      match conv[0]
      case Err(_) =>
      case Ok(None) =>
        UpsertAllKeys(rows, rest, now);
      case Ok(Some(d)) =>
        var t := UpsertRows(rows, d, now);
        UpsertSpec(rows, d, now);
        UpsertKeepsKeys(rows, d, now);
        UpsertAllKeys(t, rest, now);
    }
  }

  /** `{ coletados, gravados }`: items collected and rows written. */
  datatype Counts = Counts(coletados: nat, gravados: nat)

  /** What `materializeFromAgrolink` returns (or the error it throws) and
      the price table it leaves, for the conversions of the collected items. */
  datatype Materialization = Materialization(result: Result<Counts, string>, rows: seq<PriceRow>)

  function Materialize(rows: seq<PriceRow>, conv: seq<Conversion>, overwrite: bool, now: int): Materialization {
    if !overwrite then
      match CollectRows(conv)
      case Err(e) => Materialization(Err(e), rows)
      case Ok(data) => Materialization(Ok(Counts(|conv|, |SkipInserted(rows, data, now)|)), rows + SkipInserted(rows, data, now))
    else
      var o := UpsertAll(rows, conv, now);
      Materialization(if o.error.Some? then Err(o.error.value) else Ok(Counts(|conv|, o.written)), o.rows)
  }

  /** A batch of conversions fails exactly when one of them does. */
  lemma {:induction false} CollectRowsErr(conv: seq<Conversion>)
    ensures CollectRows(conv).Err? <==> exists k :: 0 <= k < |conv| && conv[k].Err?
  {
    CollectRowsOk(conv);
  }

  /** Skip mode fails, writing nothing, exactly when some item fails to
      convert (with the error `CollectRowsFailure` names); otherwise it only appends: the stored rows stay as they were,
      the keys stay unique, and every converted row has its key stored. */
  lemma {:induction false} MaterializeSkipSpec(rows: seq<PriceRow>, conv: seq<Conversion>, now: int)
    requires UniqueKeys(rows)
    ensures var m := Materialize(rows, conv, false, now);
      UniqueKeys(m.rows) && |rows| <= |m.rows| && m.rows[..|rows|] == rows
      && (m.result.Err? <==> exists k :: 0 <= k < |conv| && conv[k].Err?)
      && (m.result.Err? ==> m.rows == rows)
      && (m.result.Ok? ==>
            m.result.value.coletados == |conv| && m.result.value.gravados <= |conv|
            && (forall k :: 0 <= k < |conv| && conv[k].Ok? && conv[k].value.Some? ==> HasKey(m.rows, KeyOf(conv[k].value.value))))
  {
    CollectRowsErr(conv);
    match CollectRows(conv)
    case Err(_) =>
    case Ok(data) =>
      var t := rows + SkipInserted(rows, data, now);
      assert t[..|rows|] == rows;
      SkipInsertedSpec(rows, data, now);
      SkipCoversBatch(rows, data, now);
      UpsertAllMatchesCollect(rows, conv, now);
      UpsertAllKeys(rows, conv, now);
      forall k | 0 <= k < |conv| && conv[k].Ok? && conv[k].value.Some?
        ensures HasKey(t, KeyOf(conv[k].value.value))
      {
        CollectRowsMember(conv, conv[k].value.value);
      }
  }

  /** Overwrite mode fails exactly when some item fails to convert (and
      then so does skip mode), with the error of the first failing item, which
      is skip mode's error when no item throws; it keeps the keys unique,
      loses no stored key, and when it succeeds every converted row has its
      key stored and one write was counted per converted row. */
  lemma {:induction false} MaterializeOverwriteSpec(rows: seq<PriceRow>, conv: seq<Conversion>, now: int)
    requires UniqueKeys(rows)
    ensures var m := Materialize(rows, conv, true, now);
      UniqueKeys(m.rows)
      && (forall key :: HasKey(rows, key) ==> HasKey(m.rows, key))
      && (m.result.Err? <==> exists k :: 0 <= k < |conv| && conv[k].Err?)
      && (m.result.Err? ==>
            Materialize(rows, conv, false, now).result.Err?
            && (exists k :: 0 <= k < |conv| && conv[k] == Err(m.result.error) && forall j :: 0 <= j < k ==> conv[j].Ok?)
            && ((forall k :: 0 <= k < |conv| ==> !Thrown(conv[k])) ==> m.result == Materialize(rows, conv, false, now).result))
      && (m.result.Ok? ==>
            CollectRows(conv).Ok? && m.result.value.coletados == |conv|
            && m.result.value.gravados == |CollectRows(conv).value|
            && (forall k :: 0 <= k < |conv| && conv[k].Ok? && conv[k].value.Some? ==> HasKey(m.rows, KeyOf(conv[k].value.value))))
  {
    CollectRowsErr(conv);
    UpsertAllMatchesCollect(rows, conv, now);
    UpsertAllFirstFailure(rows, conv, now);
    UpsertAllKeys(rows, conv, now);
  }

  /** `materializeFromAgrolink(overwriteExisting)` on the collected items
      (the collector itself is outside the model): skip mode without
      overwrite, upsert mode with it. */
  method MaterializeFromAgrolink(table: PriceTable, items: seq<AgrolinkItem>, overwrite: bool, now: int)
    returns (r: Result<Counts, string>)
    requires table.Valid()
    modifies table
    ensures table.Valid()
    ensures Materialize(old(table.rows), Converted(items), overwrite, now) == Materialization(r, table.rows)
  {
    var conv := Converted(items);
    if !overwrite {
      r := MaterializeSkip(table, conv, now);
    } else {
      r := MaterializeOverwrite(table, conv, now);
    }
  }

  /** Skip mode: the `map` throws the first failure it meets; otherwise the
      rows of all converted items go to `createMany` at once, which refuses
      the whole batch when a date is invalid and otherwise keeps the rows
      already stored under the same key. A failure writes nothing. */
  method MaterializeSkip(table: PriceTable, conv: seq<Conversion>, now: int)
    returns (r: Result<Counts, string>)
    requires table.Valid()
    modifies table
    ensures table.Valid()
    ensures CollectRows(conv).Err? ==>
      r == Err(CollectRows(conv).error) && table.rows == old(table.rows)
    ensures CollectRows(conv).Ok? ==>
      var data := CollectRows(conv).value;
      table.rows == old(table.rows) + SkipInserted(old(table.rows), data, now)
      && r == Ok(Counts(|conv|, |table.rows| - |old(table.rows)|))
    ensures Materialize(old(table.rows), conv, false, now) == Materialization(r, table.rows)
  {
    var thrown := FirstThrown(conv);
    if thrown.Some? {
      return Err(thrown.value);
    }
    if HasInvalidDate(conv) {
      return Err(InvalidDate);
    }
    var data := RowsOf(conv);
    if data == [] {
      assert old(table.rows) + SkipInserted(old(table.rows), data, now) == table.rows;
      return Ok(Counts(|conv|, 0));
    }
    var count := table.CreateManySkipDuplicates(data, now);
    return Ok(Counts(|conv|, count));
  }

  /** Overwrite mode: the converted items are upserted one by one; a failure
      stops the loop, leaving the earlier upserts in place. */
  method MaterializeOverwrite(table: PriceTable, conv: seq<Conversion>, now: int)
    returns (r: Result<Counts, string>)
    requires table.Valid()
    modifies table
    ensures table.Valid()
    ensures var o := UpsertAll(old(table.rows), conv, now);
      table.rows == o.rows
      && r == (if o.error.Some? then Err(o.error.value) else Ok(Counts(|conv|, o.written)))
    ensures Materialize(old(table.rows), conv, true, now) == Materialization(r, table.rows)
  {
    var gravados := 0;
    var i := 0;
    while i < |conv|
      invariant 0 <= i <= |conv|
      invariant table.Valid()
      invariant var o := UpsertAll(table.rows, conv[i..], now);
        UpsertAll(old(table.rows), conv, now) == Outcome(o.rows, gravados + o.written, o.error)
    {
      UpsertAllStep(table.rows, conv, i, now);
      match conv[i] {
        case Err(e) =>
          return Err(e);
        case Ok(None) =>
        case Ok(Some(d)) =>
          table.Upsert(d, now);
          gravados := gravados + 1;
      }
      i := i + 1;
    }
    assert conv[i..] == [];
    return Ok(Counts(|conv|, gravados));
  }
}
