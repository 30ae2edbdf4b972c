/** The sales of `SaleService`: creation with its checks in order and line
    prices taken from the selling units, partial updates, the freight and the
    seller's decision. */
module SalesService {
  import opened Wrappers

  const PlacedStatus := "Pedido realizado!"
  const ApprovedStatus := "Aprovado pelo vendedor"
  const RefusedStatus := "Recusado pelo vendedor"

  /** The status a seller's decision sets. */
  function DecisionStatus(approved: bool): string {
    if approved then ApprovedStatus else RefusedStatus
  }

  /** A bought product of a sale: its value is the line's price. */
  datatype Line = Line(productId: string, sellingUnitProductId: string, value: real, amount: real)

  datatype Sale = Sale(
    id: string,
    transportTypeId: string,
    createdAt: int,
    shippedAt: Option<int>,
    arrivedAt: Option<int>,
    transportValue: real,
    cargoWeightKg: Option<real>,
    productRating: real,
    sellerRating: real,
    status: string,
    sellerApproved: Option<bool>,
    addressId: Option<string>,
    paymentMethodId: string,
    buyerId: string,
    paymentCompleted: bool,
    lines: seq<Line>)

  /** The body of `create`; an absent optional field is `None`. */
  datatype NewSale = NewSale(
    transportTypeId: string,
    createdAt: Option<int>,
    shippedAt: Option<int>,
    arrivedAt: Option<int>,
    transportValue: real,
    cargoWeightKg: Option<real>,
    productRating: Option<real>,
    sellerRating: Option<real>,
    status: Option<string>,
    sellerApproved: Option<bool>,
    addressId: Option<string>,
    paymentMethodId: string,
    buyerId: string,
    paymentCompleted: Option<bool>,
    lines: seq<Line>)

  /** The body of `update`. A field is `None` when undefined; the dates are
      `Some` only when truthy; `sellerApproved` and `addressId` may be given
      as null (`Some(None)`). */
  datatype SalePatch = SalePatch(
    transportTypeId: Option<string>,
    createdAt: Option<int>,
    shippedAt: Option<int>,
    arrivedAt: Option<int>,
    transportValue: Option<real>,
    cargoWeightKg: Option<real>,
    productRating: Option<real>,
    sellerRating: Option<real>,
    sellerApproved: Option<Option<bool>>,
    status: Option<string>,
    addressId: Option<Option<string>>,
    paymentMethodId: Option<string>,
    paymentCompleted: Option<bool>,
    buyerId: Option<string>,
    lines: Option<seq<Line>>)

  /** A patch that names no field. */
  const NoChange := SalePatch(None, None, None, None, None, None, None, None, None, None, None, None, None, None, None)

  datatype ProductInfo = ProductInfo(name: string, active: bool)
  datatype UnitInfo = UnitInfo(productId: string, minPrice: real)

  /** What the sale service reads of the other tables. */
  datatype Catalog = Catalog(
    users: set<string>,
    addresses: set<string>,
    paymentMethods: set<string>,
    freight: map<string, real>,
    products: map<string, ProductInfo>,
    units: map<string, UnitInfo>)

  /** The failures of the service, each with the message it throws. */
  datatype SaleError =
    | BuyerNotFound(buyerId: string)
    | AddressNotFound(addressId: string)
    | PaymentMethodNotFound(paymentMethodId: string)
    | TransportTypeNotFound(transportTypeId: string)
    | NoProducts
    | ProductNotFound(productId: string)
    | ProductInactive(name: string)
    | UnitNotFound(unitId: string)
    | UnitOfOtherProduct(unitId: string, productId: string)
    | SaleNotFound(saleId: string)
    /** The buyer of a purchase listing does not exist. */
    | UserNotFound(userId: string)
    /** The store refuses a reference to a missing row (Prisma's P2003). */
    | ForeignKeyViolation
    /** The store finds no row to update (Prisma's P2025). */
    | RecordNotFound
    /** A read of a field of a missing related row. */
    | MissingRelation

  function Message(e: SaleError): string {
    match e
    case BuyerNotFound(id) => "Usuário comprador (buyerId=" + id + ") não encontrado"
    case AddressNotFound(id) => "Endereço (addressId=" + id + ") não encontrado"
    case PaymentMethodNotFound(id) => "Método de pagamento (paymentMethodId=" + id + ") não encontrado"
    case TransportTypeNotFound(id) => "Tipo de transporte (transportTypeId=" + id + ") não encontrado"
    case NoProducts => "É necessário informar pelo menos um produto para comprar"
    case ProductNotFound(id) => "Produto (productId=" + id + ") não encontrado"
    case ProductInactive(name) => "Produto \"" + name + "\" não está ativo"
    case UnitNotFound(id) => "Unidade de venda (sellingUnitProductId=" + id + ") não encontrada"
    case UnitOfOtherProduct(u, p) => "A unidade de venda " + u + " não pertence ao produto " + p
    case SaleNotFound(id) => "Venda (saleDataId=" + id + ") não encontrada"
    case UserNotFound(id) => "Usuário (userId=" + id + ") não encontrado"
    case ForeignKeyViolation => "Foreign key constraint failed"
    case RecordNotFound => "Record to update not found."
    case MissingRelation => "Cannot read properties of null"
  }

  /* ---------------- line prices ---------------- */

  /** A line priced by its selling unit: the client's value is replaced by
      minimum price times amount. */
  function Priced(l: Line, minPrice: real): (r: Line)
    ensures r.productId == l.productId && r.sellingUnitProductId == l.sellingUnitProductId && r.amount == l.amount
    ensures r.value == minPrice * l.amount
  {
    l.(value := minPrice * l.amount)
  }

  /** The failure of one line at creation: the product must exist and be
      active, the selling unit exist and belong to the product. */
  function LineError(cat: Catalog, l: Line): (r: Option<SaleError>)
    ensures r.None? <==>
      l.productId in cat.products && cat.products[l.productId].active
      && l.sellingUnitProductId in cat.units && cat.units[l.sellingUnitProductId].productId == l.productId
  {
    if l.productId !in cat.products then Some(ProductNotFound(l.productId))
    else if !cat.products[l.productId].active then Some(ProductInactive(cat.products[l.productId].name))
    else if l.sellingUnitProductId !in cat.units then Some(UnitNotFound(l.sellingUnitProductId))
    else if cat.units[l.sellingUnitProductId].productId != l.productId
    then Some(UnitOfOtherProduct(l.sellingUnitProductId, l.productId))
    else None
  }

  predicate LineAccepted(cat: Catalog, l: Line) {
    LineError(cat, l).None?
  }

  /** The lines of `create` with their computed values, or the failure of
      the first line that fails. */
  function PricedLines(cat: Catalog, lines: seq<Line>): Result<seq<Line>, SaleError>
    decreases |lines|
  {
    if lines == [] then Ok([])
    else
      var e := LineError(cat, lines[0]);
      if e.Some? then Err(e.value)
      else
        match PricedLines(cat, lines[1..])
        case Err(err) => Err(err)
        case Ok(rest) => Ok([Priced(lines[0], cat.units[lines[0].sellingUnitProductId].minPrice)] + rest)
  }

  /** Creation prices every line or fails: it succeeds exactly when every
      line is accepted, and then each stored line keeps product, unit and
      amount and is worth its unit's minimum price times its amount. */
  lemma {:induction false} PricedLinesSpec(cat: Catalog, lines: seq<Line>)
    ensures PricedLines(cat, lines).Ok? <==> forall k :: 0 <= k < |lines| ==> LineAccepted(cat, lines[k])
    ensures PricedLines(cat, lines).Ok? ==>
      var out := PricedLines(cat, lines).value;
      |out| == |lines|
      && forall k :: 0 <= k < |lines| ==>
        out[k] == Priced(lines[k], cat.units[lines[k].sellingUnitProductId].minPrice)
    ensures PricedLines(cat, lines).Err? ==>
      exists k :: 0 <= k < |lines| && LineError(cat, lines[k]) == Some(PricedLines(cat, lines).error)
    decreases |lines|
  {
    if lines != [] {
      PricedLinesSpec(cat, lines[1..]);
      assert forall k :: 1 <= k < |lines| ==> lines[k] == lines[1..][k - 1];
      if PricedLines(cat, lines).Err? && LineError(cat, lines[0]).None? {
        var k :| 0 <= k < |lines[1..]| && LineError(cat, lines[1..][k]) == Some(PricedLines(cat, lines).error);
        assert lines[k + 1] == lines[1..][k];
      }
    }
  }

  /** The failure of one line at update: only the selling unit must exist. */
  function RepriceError(cat: Catalog, l: Line): (r: Option<SaleError>)
    ensures r.None? <==> l.sellingUnitProductId in cat.units
  {
    if l.sellingUnitProductId !in cat.units then Some(UnitNotFound(l.sellingUnitProductId)) else None
  }

  /** The replacement lines of `update` with their computed values. */
  function RepricedLines(cat: Catalog, lines: seq<Line>): Result<seq<Line>, SaleError>
    decreases |lines|
  {
    if lines == [] then Ok([])
    else
      var e := RepriceError(cat, lines[0]);
      if e.Some? then Err(e.value)
      else
        match RepricedLines(cat, lines[1..])
        case Err(err) => Err(err)
        case Ok(rest) => Ok([Priced(lines[0], cat.units[lines[0].sellingUnitProductId].minPrice)] + rest)
  }

  /** The update reprices every line whose selling unit exists, with no
      check of the product. */
  lemma {:induction false} RepricedLinesSpec(cat: Catalog, lines: seq<Line>)
    ensures RepricedLines(cat, lines).Ok? <==> forall k :: 0 <= k < |lines| ==> lines[k].sellingUnitProductId in cat.units
    ensures RepricedLines(cat, lines).Ok? ==>
      var out := RepricedLines(cat, lines).value;
      |out| == |lines|
      && forall k :: 0 <= k < |lines| ==>
        out[k] == Priced(lines[k], cat.units[lines[k].sellingUnitProductId].minPrice)
    decreases |lines|
  {
    if lines != [] {
      RepricedLinesSpec(cat, lines[1..]);
      assert forall k :: 1 <= k < |lines| ==> lines[k] == lines[1..][k - 1];
    }
  }

  /** An accepted line is repriced to the same value at update as at
      creation. */
  lemma {:induction false} CreateAndUpdatePriceAlike(cat: Catalog, lines: seq<Line>)
    requires PricedLines(cat, lines).Ok?
    ensures RepricedLines(cat, lines) == PricedLines(cat, lines)
    decreases |lines|
  {
    if lines != [] {
      CreateAndUpdatePriceAlike(cat, lines[1..]);
    }
  }

  /* ---------------- creation ---------------- */

  /** `if (data.addressId)`: an address is checked only when given and not
      empty. */
  predicate AddressGiven(a: Option<string>) {
    a.Some? && a.value != []
  }

  /** The checks of `create` before the lines, in order. */
  function CreateError(cat: Catalog, data: NewSale): (r: Option<SaleError>)
    ensures r.None? <==>
      data.buyerId in cat.users
      && (AddressGiven(data.addressId) ==> data.addressId.value in cat.addresses)
      && data.paymentMethodId in cat.paymentMethods
      && data.transportTypeId in cat.freight
      && data.lines != []
    ensures data.buyerId !in cat.users ==> r == Some(BuyerNotFound(data.buyerId))
  {
    if data.buyerId !in cat.users then Some(BuyerNotFound(data.buyerId))
    else if AddressGiven(data.addressId) && data.addressId.value !in cat.addresses
    then Some(AddressNotFound(data.addressId.value))
    else if data.paymentMethodId !in cat.paymentMethods then Some(PaymentMethodNotFound(data.paymentMethodId))
    else if data.transportTypeId !in cat.freight then Some(TransportTypeNotFound(data.transportTypeId))
    else if data.lines == [] then Some(NoProducts)
    else None
  }

  /** The row `create` writes, with the defaults of the absent fields. */
  function NewRow(id: string, data: NewSale, lines: seq<Line>, now: int): (s: Sale)
    ensures s.status == (if data.status.Some? then data.status.value else PlacedStatus)
    ensures s.productRating == (if data.productRating.Some? then data.productRating.value else 0.0)
    ensures s.sellerRating == (if data.sellerRating.Some? then data.sellerRating.value else 0.0)
    ensures s.paymentCompleted == (data.paymentCompleted == Some(true))
    ensures s.sellerApproved == data.sellerApproved && s.addressId == data.addressId
    ensures s.createdAt == (if data.createdAt.Some? then data.createdAt.value else now)
  {
    Sale(id, data.transportTypeId,
         if data.createdAt.Some? then data.createdAt.value else now,
         data.shippedAt, data.arrivedAt, data.transportValue, data.cargoWeightKg,
         if data.productRating.Some? then data.productRating.value else 0.0,
         if data.sellerRating.Some? then data.sellerRating.value else 0.0,
         if data.status.Some? then data.status.value else PlacedStatus,
         data.sellerApproved, data.addressId, data.paymentMethodId, data.buyerId,
         if data.paymentCompleted.Some? then data.paymentCompleted.value else false,
         lines)
  }

  /** A body with only the required fields gives a placed sale, unrated,
      unpaid, with no seller decision and no address. */
  lemma {:induction false} NewRowDefaults(id: string, data: NewSale, lines: seq<Line>, now: int)
    requires data.createdAt.None? && data.productRating.None? && data.sellerRating.None?
    requires data.status.None? && data.sellerApproved.None? && data.addressId.None? && data.paymentCompleted.None?
    ensures var s := NewRow(id, data, lines, now);
      s.status == "Pedido realizado!" && s.productRating == 0.0 && s.sellerRating == 0.0
      && !s.paymentCompleted && s.sellerApproved.None? && s.addressId.None? && s.createdAt == now
  {
  }

  /* ---------------- updates ---------------- */

  function Pick<T>(o: Option<T>, old_: T): T {
    if o.Some? then o.value else old_
  }

  /** The columns an update writes: every defined field, the status forced
      by a seller decision, the repriced lines when given. */
  function Patched(s: Sale, p: SalePatch, lines: Option<seq<Line>>): (r: Sale)
    ensures r.id == s.id
    ensures p.sellerApproved == Some(Some(true)) ==> r.status == ApprovedStatus
    ensures p.sellerApproved == Some(Some(false)) ==> r.status == RefusedStatus
    ensures p.sellerApproved.None? || p.sellerApproved == Some(None) ==> r.status == Pick(p.status, s.status)
    ensures r.lines == Pick(lines, s.lines)
  {
    Sale(s.id,
         Pick(p.transportTypeId, s.transportTypeId),
         Pick(p.createdAt, s.createdAt),
         if p.shippedAt.Some? then p.shippedAt else s.shippedAt,
         if p.arrivedAt.Some? then p.arrivedAt else s.arrivedAt,
         Pick(p.transportValue, s.transportValue),
         if p.cargoWeightKg.Some? then p.cargoWeightKg else s.cargoWeightKg,
         Pick(p.productRating, s.productRating),
         Pick(p.sellerRating, s.sellerRating),
         if p.sellerApproved == Some(Some(true)) then ApprovedStatus
         else if p.sellerApproved == Some(Some(false)) then RefusedStatus
         else Pick(p.status, s.status),
         Pick(p.sellerApproved, s.sellerApproved),
         Pick(p.addressId, s.addressId),
         Pick(p.paymentMethodId, s.paymentMethodId),
         Pick(p.buyerId, s.buyerId),
         Pick(p.paymentCompleted, s.paymentCompleted),
         Pick(lines, s.lines))
  }

  /** A patch that names nothing changes nothing. */
  lemma {:induction false} PatchNothing(s: Sale)
    ensures Patched(s, NoChange, None) == s
  {
  }

  /** The row after a seller's decision. */
  function Decided(s: Sale, approved: bool): (r: Sale)
    ensures r.sellerApproved == Some(approved) && r.status == DecisionStatus(approved)
    ensures r.(sellerApproved := s.sellerApproved, status := s.status) == s
  {
    s.(sellerApproved := Some(approved), status := DecisionStatus(approved))
  }

  /** An update that carries only a decision does what `setSellerDecision`
      does, and the decision outranks a status given beside it. */
  lemma {:induction false} UpdateDecisionIsSellerDecision(s: Sale, approved: bool, status: Option<string>)
    ensures Patched(s, NoChange.(sellerApproved := Some(Some(approved)), status := status), None) == Decided(s, approved)
  {
  }

  /** A seller decision and the status agree. */
  predicate DecisionAgrees(s: Sale) {
    (s.sellerApproved == Some(true) ==> s.status == ApprovedStatus)
    && (s.sellerApproved == Some(false) ==> s.status == RefusedStatus)
  }

  /** Every way of recording a decision leaves it in agreement with the
      status. */
  lemma {:induction false} DecisionsAgree(s: Sale, p: SalePatch, lines: Option<seq<Line>>, approved: bool)
    requires p.sellerApproved.Some? && p.sellerApproved.value.Some?
    ensures DecisionAgrees(Patched(s, p, lines)) && DecisionAgrees(Decided(s, approved))
  {
  }

  /** Every reference an `update` writes names an existing row: the buyer,
      a non-null address, the payment method, the transport type and the
      product of each replacement line. */
  predicate PatchRefsKnown(cat: Catalog, p: SalePatch) {
    (p.buyerId.Some? ==> p.buyerId.value in cat.users)
    && (p.addressId.Some? && p.addressId.value.Some? ==> p.addressId.value.value in cat.addresses)
    && (p.paymentMethodId.Some? ==> p.paymentMethodId.value in cat.paymentMethods)
    && (p.transportTypeId.Some? ==> p.transportTypeId.value in cat.freight)
    && (p.lines.Some? ==> forall k :: 0 <= k < |p.lines.value| ==> p.lines.value[k].productId in cat.products)
  }

  /* ---------------- freight ---------------- */

  datatype Freight = Freight(saleId: string, baseFreight: real, distanceKm: real, pricePerKm: real,
                             variableFreight: real, transportValue: real)

  /** The freight of a sale: the transport type's base value plus distance
      times price per kilometre. */
  function FreightOf(saleId: string, base: real, distanceKm: real, pricePerKm: real): (f: Freight)
    ensures f.transportValue == f.baseFreight + f.variableFreight
    ensures f.variableFreight == distanceKm * pricePerKm && f.baseFreight == base
    ensures f.saleId == saleId && f.distanceKm == distanceKm && f.pricePerKm == pricePerKm
  {
    Freight(saleId, base, distanceKm, pricePerKm, distanceKm * pricePerKm, base + distanceKm * pricePerKm)
  }

  /* ---------------- the table ---------------- */

  predicate DistinctIds(sales: seq<Sale>) {
    forall i, j :: 0 <= i < j < |sales| ==> sales[i].id != sales[j].id
  }

  predicate IsSaleId(sales: seq<Sale>, id: string) {
    exists i :: 0 <= i < |sales| && sales[i].id == id
  }

  function SaleIndex(sales: seq<Sale>, id: string): (r: Option<nat>)
    ensures r.Some? ==> r.value < |sales| && sales[r.value].id == id
    ensures r.None? <==> !IsSaleId(sales, id)
  {
    if sales == [] then None
    else if sales[0].id == id then Some(0)
    else
      var r := SaleIndex(sales[1..], id);
      assert forall k :: 1 <= k < |sales| ==> sales[k] == sales[1..][k - 1];
      if r.None? then None else Some(r.value + 1)
  }

  lemma {:induction false} ReplaceKeepsIds(sales: seq<Sale>, k: nat, s: Sale)
    requires DistinctIds(sales) && k < |sales| && s.id == sales[k].id
    ensures DistinctIds(sales[k := s])
    ensures forall id :: IsSaleId(sales[k := s], id) <==> IsSaleId(sales, id)
  {
    var t := sales[k := s];
    assert forall i :: 0 <= i < |t| ==> t[i].id == sales[i].id;
    forall id | IsSaleId(sales, id) ensures IsSaleId(t, id) {
      var i :| 0 <= i < |sales| && sales[i].id == id;
      assert t[i].id == id;
    }
  }

  class SaleStore {
    var sales: seq<Sale>

    ghost predicate Valid()
      reads this
    {
      DistinctIds(sales)
    }

    constructor()
      ensures sales == [] && Valid()
    {
      sales := [];
    }

    /** `create`: the checks in order (buyer, address when given, payment
        method, transport type, at least one line), then every line priced
        by its selling unit; a failure writes nothing. */
    method Create(cat: Catalog, data: NewSale, newId: string, now: int) returns (r: Result<Sale, SaleError>)
      requires Valid() && !IsSaleId(sales, newId)
      modifies this
      ensures Valid()
      ensures r.Err? ==> sales == old(sales)
      ensures CreateError(cat, data).Some? ==> r == Err(CreateError(cat, data).value)
      ensures CreateError(cat, data).None? && PricedLines(cat, data.lines).Err? ==>
        r == Err(PricedLines(cat, data.lines).error)
      ensures CreateError(cat, data).None? && PricedLines(cat, data.lines).Ok? ==>
        if data.addressId.Some? && data.addressId.value !in cat.addresses then r == Err(ForeignKeyViolation)
        else r == Ok(NewRow(newId, data, PricedLines(cat, data.lines).value, now)) && sales == old(sales) + [r.value]
    {
      var e := CreateError(cat, data);
      if e.Some? {
        return Err(e.value);
      }
      var priced := PricedLines(cat, data.lines);
      if priced.Err? {
        return Err(priced.error);
      }
      if data.addressId.Some? && data.addressId.value !in cat.addresses {
        return Err(ForeignKeyViolation);
      }
      var s := NewRow(newId, data, priced.value, now);
      sales := sales + [s];
      r := Ok(s);
    }

    /** `update`: the replacement lines are repriced first, then the row is
        patched; an unknown selling unit or an unknown sale writes nothing,
        and neither does a patch naming a missing buyer, address, payment
        method, transport type or product, which the store refuses on the
        foreign key. */
    method Update(cat: Catalog, id: string, p: SalePatch) returns (r: Result<Sale, SaleError>)
      requires Valid()
      modifies this
      ensures Valid()
      ensures r.Err? ==> sales == old(sales)
      ensures p.lines.Some? && RepricedLines(cat, p.lines.value).Err? ==>
        r == Err(RepricedLines(cat, p.lines.value).error)
      ensures (p.lines.None? || RepricedLines(cat, p.lines.value).Ok?) ==>
        var lines := if p.lines.Some? then Some(RepricedLines(cat, p.lines.value).value) else None;
        if !IsSaleId(old(sales), id) then r == Err(RecordNotFound)
        else if !PatchRefsKnown(cat, p) then r == Err(ForeignKeyViolation)
        else
          var k := SaleIndex(old(sales), id).value;
          r == Ok(Patched(old(sales)[k], p, lines)) && sales == old(sales)[k := r.value]
    {
      var lines: Option<seq<Line>> := None;
      if p.lines.Some? {
        var repriced := RepricedLines(cat, p.lines.value);
        if repriced.Err? {
          return Err(repriced.error);
        }
        lines := Some(repriced.value);
      }
      var k := SaleIndex(sales, id);
      if k.None? {
        return Err(RecordNotFound);
      }
      if !PatchRefsKnown(cat, p) {
        return Err(ForeignKeyViolation);
      }
      var s := Patched(sales[k.value], p, lines);
      ReplaceKeepsIds(sales, k.value, s);
      sales := sales[k.value := s];
      r := Ok(s);
    }

    /** `calculateFreight`: the sale's transport value becomes the base
        freight of its transport type plus distance times price per
        kilometre; nothing else changes. */
    method CalculateFreight(cat: Catalog, id: string, distanceKm: real, pricePerKm: real)
      returns (r: Result<Freight, SaleError>)
      requires Valid()
      modifies this
      ensures Valid()
      ensures r.Err? ==> sales == old(sales)
      ensures !IsSaleId(old(sales), id) ==> r == Err(SaleNotFound(id))
      ensures IsSaleId(old(sales), id) ==>
        var k := SaleIndex(old(sales), id).value;
        var tt := old(sales)[k].transportTypeId;
        if tt !in cat.freight then r == Err(MissingRelation)
        else
          r == Ok(FreightOf(id, cat.freight[tt], distanceKm, pricePerKm))
          && sales == old(sales)[k := old(sales)[k].(transportValue := r.value.transportValue)]
    {
      var k := SaleIndex(sales, id);
      if k.None? {
        return Err(SaleNotFound(id));
      }
      var tt := sales[k.value].transportTypeId;
      if tt !in cat.freight {
        return Err(MissingRelation);
      }
      var f := FreightOf(id, cat.freight[tt], distanceKm, pricePerKm);
      ReplaceKeepsIds(sales, k.value, sales[k.value].(transportValue := f.transportValue));
      sales := sales[k.value := sales[k.value].(transportValue := f.transportValue)];
      r := Ok(f);
    }

    /** `setSellerDecision`: the decision and its status are stored
        together. */
    method SetSellerDecision(id: string, approved: bool) returns (r: Result<Sale, SaleError>)
      requires Valid()
      modifies this
      ensures Valid()
      ensures !IsSaleId(old(sales), id) ==> r == Err(SaleNotFound(id)) && sales == old(sales)
      ensures IsSaleId(old(sales), id) ==>
        var k := SaleIndex(old(sales), id).value;
        r == Ok(Decided(old(sales)[k], approved)) && sales == old(sales)[k := r.value]
    {
      var k := SaleIndex(sales, id);
      if k.None? {
        return Err(SaleNotFound(id));
      }
      var s := Decided(sales[k.value], approved);
      ReplaceKeepsIds(sales, k.value, s);
      sales := sales[k.value := s];
      r := Ok(s);
    }
  }
}
