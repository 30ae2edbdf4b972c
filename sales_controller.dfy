/** `SaleController`: the totals of the producer and buyer listings, the
    input checks of the freight and decision handlers, and the mapping of
    service failures to HTTP statuses. */
module SalesController {
  import opened Wrappers
  import opened Text
  import CT = ContractTemplate
  import opened SalesService

  /** An HTTP answer: status and message. */
  datatype Reply = Reply(status: int, message: string)

  /** The answer of a listing: status, message, the number of sales and
      their total. */
  datatype ListReply = ListReply(status: int, message: string, count: nat, total: real)

  /** `message.includes(w)`. */
  predicate Includes(s: string, w: string) {
    exists j: nat :: j <= |s| && EqAt(s, j, w)
  }

  const NotFoundWord := "não encontrado"

  /* ---------------- totals ---------------- */

  /** `boughtProducts.reduce((acc, p) => acc + p.value * p.amount, 0)`, the
      line total of the listings as written. */
  function ListedLinesTotal(lines: seq<Line>): real {
    if lines == [] then 0.0
    else ListedLinesTotal(lines[..|lines| - 1]) + lines[|lines| - 1].value * lines[|lines| - 1].amount
  }

  /** The line total the listings evidently mean: a stored line's value is
      already its price times its amount, so the values are summed. */
  function LinesTotal(lines: seq<Line>): real {
    if lines == [] then 0.0 else LinesTotal(lines[..|lines| - 1]) + lines[|lines| - 1].value
  }

  /** The outer `reduce`: each sale's lines plus its transport value. */
  function SalesTotal(sales: seq<Sale>): real {
    if sales == [] then 0.0
    else SalesTotal(sales[..|sales| - 1]) + LinesTotal(sales[|sales| - 1].lines) + sales[|sales| - 1].transportValue
  }

  /** The total of two lists of lines is the sum of their totals. */
  lemma {:induction false} LinesTotalAppend(a: seq<Line>, b: seq<Line>)
    ensures LinesTotal(a + b) == LinesTotal(a) + LinesTotal(b)
  {
    if b != [] {
      assert (a + b)[..|a + b| - 1] == a + b[..|b| - 1];
      assert (a + b)[|a + b| - 1] == b[|b| - 1];
      LinesTotalAppend(a, b[..|b| - 1]);
    } else {
      assert a + b == a;
    }
  }

  /** The total of two lists of sales is the sum of their totals: the
      total does not depend on how the listing is split. */
  lemma {:induction false} SalesTotalAppend(a: seq<Sale>, b: seq<Sale>)
    ensures SalesTotal(a + b) == SalesTotal(a) + SalesTotal(b)
  {
    if b != [] {
      assert (a + b)[..|a + b| - 1] == a + b[..|b| - 1];
      assert (a + b)[|a + b| - 1] == b[|b| - 1];
      SalesTotalAppend(a, b[..|b| - 1]);
    } else {
      assert a + b == a;
    }
  }

  /** `minPrice * amount` summed over lines: what the lines are charged. */
  function ChargedTotal(cat: Catalog, lines: seq<Line>): real
    requires forall k :: 0 <= k < |lines| ==> lines[k].sellingUnitProductId in cat.units
  {
    if lines == [] then 0.0
    else
      var l := lines[|lines| - 1];
      ChargedTotal(cat, lines[..|lines| - 1]) + cat.units[l.sellingUnitProductId].minPrice * l.amount
  }

  /** `minPrice * amount * amount` summed over lines. */
  function SquaredTotal(cat: Catalog, lines: seq<Line>): real
    requires forall k :: 0 <= k < |lines| ==> lines[k].sellingUnitProductId in cat.units
  {
    if lines == [] then 0.0
    else
      var l := lines[|lines| - 1];
      SquaredTotal(cat, lines[..|lines| - 1]) + cat.units[l.sellingUnitProductId].minPrice * l.amount * l.amount
  }

  /** Since a stored line's value is already its unit's minimum price times
      its amount, the listing's line total multiplies by the amount a
      second time. */
  lemma {:induction false} StoredLinesTotal(cat: Catalog, lines: seq<Line>)
    requires PricedLines(cat, lines).Ok?
    ensures forall k :: 0 <= k < |lines| ==> lines[k].sellingUnitProductId in cat.units
    ensures ListedLinesTotal(PricedLines(cat, lines).value) == SquaredTotal(cat, lines)
  {
    PricedLinesSpec(cat, lines);
    var out := PricedLines(cat, lines).value;
    PrefixesPriced(cat, lines, out, |lines|);
    assert lines[..|lines|] == lines && out[..|out|] == out;
  }

  lemma {:induction false} PrefixesPriced(cat: Catalog, lines: seq<Line>, out: seq<Line>, n: nat)
    requires n <= |lines| == |out|
    requires forall k :: 0 <= k < |lines| ==>
      lines[k].sellingUnitProductId in cat.units
      && out[k] == Priced(lines[k], cat.units[lines[k].sellingUnitProductId].minPrice)
    ensures ListedLinesTotal(out[..n]) == SquaredTotal(cat, lines[..n])
  {
    if n > 0 {
      PrefixesPriced(cat, lines, out, n - 1);
      assert out[..n][..n - 1] == out[..n - 1];
      assert lines[..n][..n - 1] == lines[..n - 1];
    }
  }

  /** A sale of one line of two units at 10.0 a unit is stored with value
      20.0 and listed as worth 40.0. */
  lemma DoubleCountedExample()
    ensures var cat := Catalog({}, {}, {}, map[], map["p" := ProductInfo("Alho", true)], map["u" := UnitInfo("p", 10.0)]);
      var stored := PricedLines(cat, [Line("p", "u", 99.0, 2.0)]);
      stored == Ok([Line("p", "u", 20.0, 2.0)]) && ListedLinesTotal(stored.value) == 40.0
  {
    var cat := Catalog({}, {}, {}, map[], map["p" := ProductInfo("Alho", true)], map["u" := UnitInfo("p", 10.0)]);
    var lines := [Line("p", "u", 99.0, 2.0)];
    assert lines[1..] == [];
    assert LineError(cat, lines[0]).None?;
    assert PricedLines(cat, lines[1..]) == Ok([]);
    assert cat.units[lines[0].sellingUnitProductId].minPrice == 10.0;
    assert Priced(lines[0], 10.0) == Line("p", "u", 20.0, 2.0);
    assert [Line("p", "u", 20.0, 2.0)] + [] == [Line("p", "u", 20.0, 2.0)];
    assert PricedLines(cat, lines) == Ok([Line("p", "u", 20.0, 2.0)]);
    var stored := [Line("p", "u", 20.0, 2.0)];
    assert stored[..0] == [];
  }

  /** The corrected total of stored lines is what they are charged: each
      unit's minimum price times the amount, counted once. */
  lemma {:induction false} StoredLinesCharged(cat: Catalog, lines: seq<Line>)
    requires PricedLines(cat, lines).Ok?
    ensures forall k :: 0 <= k < |lines| ==> lines[k].sellingUnitProductId in cat.units
    ensures LinesTotal(PricedLines(cat, lines).value) == ChargedTotal(cat, lines)
  {
    PricedLinesSpec(cat, lines);
    var out := PricedLines(cat, lines).value;
    PrefixesCharged(cat, lines, out, |lines|);
    assert lines[..|lines|] == lines && out[..|out|] == out;
  }

  lemma {:induction false} PrefixesCharged(cat: Catalog, lines: seq<Line>, out: seq<Line>, n: nat)
    requires n <= |lines| == |out|
    requires forall k :: 0 <= k < |lines| ==>
      lines[k].sellingUnitProductId in cat.units
      && out[k] == Priced(lines[k], cat.units[lines[k].sellingUnitProductId].minPrice)
    ensures LinesTotal(out[..n]) == ChargedTotal(cat, lines[..n])
  {
    if n > 0 {
      PrefixesCharged(cat, lines, out, n - 1);
      assert out[..n][..n - 1] == out[..n - 1];
      assert lines[..n][..n - 1] == lines[..n - 1];
    }
  }

  /** The outer `reduce` as written: each sale's listed line total, value
      times amount, plus its transport value. */
  function ListedSalesTotal(sales: seq<Sale>): real {
    if sales == [] then 0.0
    else
      var last := sales[|sales| - 1];
      ListedSalesTotal(sales[..|sales| - 1]) + ListedLinesTotal(last.lines) + last.transportValue
  }

  /** Stored lines as `create` and `update` write them: each names a unit of
      the catalog and is worth the unit's minimum price times its amount. */
  predicate StoredPriced(cat: Catalog, lines: seq<Line>) {
    forall k :: 0 <= k < |lines| ==>
      lines[k].sellingUnitProductId in cat.units
      && lines[k].value == cat.units[lines[k].sellingUnitProductId].minPrice * lines[k].amount
  }

  /** Priced lines are stored priced. */
  lemma {:induction false} PricedAreStored(cat: Catalog, lines: seq<Line>)
    requires PricedLines(cat, lines).Ok?
    ensures StoredPriced(cat, PricedLines(cat, lines).value)
  {
    PricedLinesSpec(cat, lines);
  }

  /** Per sale, the charged line total plus the transport value. */
  function ChargedSalesTotal(cat: Catalog, sales: seq<Sale>): real
    requires forall i :: 0 <= i < |sales| ==> StoredPriced(cat, sales[i].lines)
  {
    if sales == [] then 0.0
    else
      var last := sales[|sales| - 1];
      assert StoredPriced(cat, last.lines);
      ChargedSalesTotal(cat, sales[..|sales| - 1]) + ChargedTotal(cat, last.lines) + last.transportValue
  }

  /** Per sale, the minimum price times the amount squared, plus the
      transport value. */
  function SquaredSalesTotal(cat: Catalog, sales: seq<Sale>): real
    requires forall i :: 0 <= i < |sales| ==> StoredPriced(cat, sales[i].lines)
  {
    if sales == [] then 0.0
    else
      var last := sales[|sales| - 1];
      assert StoredPriced(cat, last.lines);
      SquaredSalesTotal(cat, sales[..|sales| - 1]) + SquaredTotal(cat, last.lines) + last.transportValue
  }

  /** On stored lines the listed line total is the squared one. */
  lemma {:induction false} StoredListedSquared(cat: Catalog, lines: seq<Line>)
    requires StoredPriced(cat, lines)
    ensures ListedLinesTotal(lines) == SquaredTotal(cat, lines)
  {
    if lines != [] {
      var init := lines[..|lines| - 1];
      assert StoredPriced(cat, init) by {
        forall k | 0 <= k < |init| ensures init[k] == lines[k] { }
      }
      StoredListedSquared(cat, init);
    }
  }

  /** On stored lines the summed values are the charged total. */
  lemma {:induction false} StoredSummedCharged(cat: Catalog, lines: seq<Line>)
    requires StoredPriced(cat, lines)
    ensures LinesTotal(lines) == ChargedTotal(cat, lines)
  {
    if lines != [] {
      var init := lines[..|lines| - 1];
      assert StoredPriced(cat, init) by {
        forall k | 0 <= k < |init| ensures init[k] == lines[k] { }
      }
      StoredSummedCharged(cat, init);
    }
  }

  /** As written, a listing of stored sales totals each unit's minimum price
      times the amount squared, plus the transport values. */
  lemma {:induction false} ListedSalesSquared(cat: Catalog, sales: seq<Sale>)
    requires forall i :: 0 <= i < |sales| ==> StoredPriced(cat, sales[i].lines)
    ensures ListedSalesTotal(sales) == SquaredSalesTotal(cat, sales)
  {
    if sales != [] {
      var init := sales[..|sales| - 1];
      assert forall i :: 0 <= i < |init| ==> init[i] == sales[i];
      ListedSalesSquared(cat, init);
      StoredListedSquared(cat, sales[|sales| - 1].lines);
    }
  }

  /** The corrected total of stored sales charges each unit's minimum price
      times the amount once, plus the transport values. */
  lemma {:induction false} SalesTotalCharged(cat: Catalog, sales: seq<Sale>)
    requires forall i :: 0 <= i < |sales| ==> StoredPriced(cat, sales[i].lines)
    ensures SalesTotal(sales) == ChargedSalesTotal(cat, sales)
  {
    if sales != [] {
      var init := sales[..|sales| - 1];
      assert forall i :: 0 <= i < |init| ==> init[i] == sales[i];
      SalesTotalCharged(cat, init);
      StoredSummedCharged(cat, sales[|sales| - 1].lines);
    }
  }

  /* ---------------- the listings ---------------- */

  /** `getSalesForProducer` and `getPurchasesForBuyer` once the service has
      answered: the number of sales and their total, or the failure's
      status. `refusal` is "não é um producer" or "não é um buyer". */
  function ListingReply(userId: string, result: Result<seq<Sale>, SaleError>, ok: string, refusal: string,
                        failed: string): (r: ListReply)
    ensures userId == [] ==> r.status == 400
    ensures userId != [] && result.Ok? ==>
      r == ListReply(200, ok, |result.value|, SalesTotal(result.value))
    ensures userId != [] && result.Err? ==>
      r.status == (if Includes(Message(result.error), NotFoundWord) || Includes(Message(result.error), refusal)
                   then 404 else 500)
  {
    if userId == [] then ListReply(400, "userId deve ser uma string (UUID) válida", 0, 0.0)
    else match result
      case Ok(sales) => ListReply(200, ok, |sales|, SalesTotal(sales))
      case Err(e) =>
        if Includes(Message(e), NotFoundWord) || Includes(Message(e), refusal) then ListReply(404, Message(e), 0, 0.0)
        else ListReply(500, failed, 0, 0.0)
  }

  /** The listing reply as written: it differs from `ListingReply` only in
      the 200 reply's total, which is `ListedSalesTotal`. */
  function ListingReplyAsWritten(userId: string, result: Result<seq<Sale>, SaleError>, ok: string, refusal: string,
                                 failed: string): (r: ListReply)
    ensures var c := ListingReply(userId, result, ok, refusal, failed);
      r.status == c.status && r.message == c.message && r.count == c.count
    ensures userId != [] && result.Ok? ==> r.total == ListedSalesTotal(result.value)
    ensures !(userId != [] && result.Ok?) ==> r == ListingReply(userId, result, ok, refusal, failed)
  {
    var c := ListingReply(userId, result, ok, refusal, failed);
    if userId != [] && result.Ok? then c.(total := ListedSalesTotal(result.value)) else c
  }

  /** One sale of one stored line of two units worth 20.0 and no freight:
      the listing as written answers 40.0, the corrected one 20.0. */
  lemma {:induction false} DoubleCountedListing(userId: string, sale: Sale, ok: string, refusal: string, failed: string)
    requires userId != [] && sale.lines == [Line("p", "u", 20.0, 2.0)] && sale.transportValue == 0.0
    ensures ListingReplyAsWritten(userId, Ok([sale]), ok, refusal, failed) == ListReply(200, ok, 1, 40.0)
    ensures ListingReply(userId, Ok([sale]), ok, refusal, failed) == ListReply(200, ok, 1, 20.0)
  {
    var lines := sale.lines;
    assert lines[..0] == [];
    assert ListedLinesTotal(lines) == 40.0;
    assert LinesTotal(lines) == 20.0;
    assert [sale][..0] == [] && [sale][0] == sale;
    assert ListedSalesTotal([sale]) == 40.0;
    assert SalesTotal([sale]) == 20.0;
  }

  function ProducerReply(userId: string, result: Result<seq<Sale>, SaleError>): ListReply {
    ListingReply(userId, result, "Vendas do producer obtidas com sucesso", "não é um producer",
                 "Failed to fetch producer sales")
  }

  function BuyerReply(userId: string, result: Result<seq<Sale>, SaleError>): ListReply {
    ListingReply(userId, result, "Compras do buyer obtidas com sucesso", "não é um buyer",
                 "Failed to fetch buyer purchases")
  }

  /** The message of an unknown buyer, address, payment method, transport
      type or product holds "não encontrado", whatever the id. */
  lemma {:induction false} NotFoundMessages(e: SaleError)
    requires e.BuyerNotFound? || e.AddressNotFound? || e.PaymentMethodNotFound?
             || e.TransportTypeNotFound? || e.ProductNotFound?
    ensures Includes(Message(e), NotFoundWord)
  {
    match e
    case BuyerNotFound(id) => NotFoundSuffix("Usuário comprador (buyerId=" + id);
    case AddressNotFound(id) => NotFoundSuffix("Endereço (addressId=" + id);
    case PaymentMethodNotFound(id) => NotFoundSuffix("Método de pagamento (paymentMethodId=" + id);
    case TransportTypeNotFound(id) => NotFoundSuffix("Tipo de transporte (transportTypeId=" + id);
    case ProductNotFound(id) => NotFoundSuffix("Produto (productId=" + id);
  }

  /** A message ending in ") não encontrado" includes the word. */
  lemma {:induction false} NotFoundSuffix(x: string)
    ensures Includes(x + ") não encontrado", NotFoundWord)
  {
    var m := x + ") não encontrado";
    assert m == (x + ") ") + NotFoundWord;
    IncludesSuffix(x + ") ", NotFoundWord);
  }

  /** A text includes its own suffix. */
  lemma {:induction false} IncludesSuffix(p: string, w: string)
    ensures Includes(p + w, w)
  {
    assert (p + w)[|p|..|p| + |w|] == w;
    assert EqAt(p + w, |p|, w);
  }

  /** An unknown buyer of a purchase listing answers 404 with the service's
      message. */
  lemma {:induction false} UnknownBuyerListing(userId: string)
    requires userId != []
    ensures BuyerReply(userId, Err(UserNotFound(userId)))
      == ListReply(404, "Usuário (userId=" + userId + ") não encontrado", 0, 0.0)
  {
    NotFoundSuffix("Usuário (userId=" + userId);
  }

  /* ---------------- create, update ---------------- */

  /** The `catch` of `create`: a message holding "não encontrado" and a
      foreign-key refusal are the client's fault (400), anything else 500. */
  function CreateReply(result: Result<Sale, SaleError>): (r: Reply)
    ensures result.Ok? <==> r.status == 201
    ensures result.Err? ==>
      (r.status == 400 <==> Includes(Message(result.error), NotFoundWord) || result.error.ForeignKeyViolation?)
    ensures r.status in {201, 400, 500}
  {
    match result
    case Ok(_) => Reply(201, "")
    case Err(e) =>
      if Includes(Message(e), NotFoundWord) then Reply(400, Message(e))
      else if e.ForeignKeyViolation? then
        Reply(400, "Erro de referência: Verifique se todos os IDs informados existem no banco de dados.")
      else Reply(500, "Failed to create sale")
  }

  /** A sale whose buyer, address, payment method, transport type or a
      product is unknown is refused with 400. */
  lemma {:induction false} CreateUnknownReferenceIs400(e: SaleError)
    requires e.BuyerNotFound? || e.AddressNotFound? || e.PaymentMethodNotFound?
             || e.TransportTypeNotFound? || e.ProductNotFound? || e.ForeignKeyViolation?
    ensures CreateReply(Err(e)).status == 400
  {
    if !e.ForeignKeyViolation? {
      NotFoundMessages(e);
    }
  }

  /** `update` answers 500 on every failure. */
  function UpdateReply(result: Result<Sale, SaleError>): (r: Reply)
    ensures r.status == (if result.Ok? then 200 else 500)
  {
    if result.Ok? then Reply(200, "") else Reply(500, "Failed to update sale")
  }

  /* ---------------- freight and decision ---------------- */

  /** The checked inputs of `calculateFreight`: the id is given and both
      distance and price per kilometre are numbers. */
  function FreightInput(id: string, distanceKm: CT.JsValue, pricePerKm: CT.JsValue): (r: Option<(real, real)>)
    ensures r.Some? <==> id != [] && distanceKm.Num? && pricePerKm.Num?
  {
    if id == [] || !distanceKm.Num? || !pricePerKm.Num? then None
    else Some((NumOf(distanceKm), NumOf(pricePerKm)))
  }

  /** The value of a number; NaN, which has no value, reads as zero. */
  function NumOf(v: CT.JsValue): real
    requires v.Num?
  {
    var n := CT.NumValue(v);
    if n.Num? then n.v else 0.0
  }

  /** `calculateFreight`: 400 on bad input, else the service's freight
      (200) or its message (500). */
  function FreightReply(id: string, distanceKm: CT.JsValue, pricePerKm: CT.JsValue,
                        run: (real, real) -> Result<Freight, SaleError>): (r: Reply)
    ensures FreightInput(id, distanceKm, pricePerKm).None? <==> r.status == 400
    ensures FreightInput(id, distanceKm, pricePerKm).Some? ==>
      var inp := FreightInput(id, distanceKm, pricePerKm).value;
      r.status == (if run(inp.0, inp.1).Ok? then 200 else 500)
  {
    var inp := FreightInput(id, distanceKm, pricePerKm);
    if inp.None? then Reply(400, "Parâmetros inválidos.")
    else match run(inp.value.0, inp.value.1)
      case Ok(_) => Reply(200, "Frete calculado com sucesso.")
      case Err(e) => Reply(500, Message(e))
  }

  /** `setSellerDecision`: 400 unless `approved` is a boolean, else the
      service's sale (200) or its message (500). */
  function DecisionReply(approved: CT.JsValue, run: bool -> Result<Sale, SaleError>): (r: Reply)
    ensures !approved.Bool? <==> r.status == 400
    ensures approved.Bool? ==> r.status == (if run(approved.b).Ok? then 200 else 500)
  {
    if !approved.Bool? then Reply(400, "Campo 'approved' deve ser boolean.")
    else match run(approved.b)
      case Ok(_) => Reply(200, "")
      case Err(e) => Reply(500, Message(e))
  }

  /** Text "true" is not a decision. */
  lemma {:induction false} DecisionNeedsBoolean(run: bool -> Result<Sale, SaleError>)
    ensures DecisionReply(CT.Str("true"), run).status == 400
    ensures DecisionReply(CT.Num("1"), run).status == 400
  {
  }
}
