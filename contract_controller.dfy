/** `ContractController`: query and body parsing, the guards of each
    handler and the mapping of service failures to HTTP statuses. A reply
    is its status and message; the request's client address and user agent
    are parameters. */
module ContractController {
  import opened Wrappers
  import opened Text
  import JsNumber
  import CT = ContractTemplate
  import opened ContractService

  /** An HTTP answer: the status, the message and, for a recorded
      acceptance, its id. */
  datatype Reply = Reply(status: int, message: string, id: Option<string>)

  function Say(status: int, message: string): Reply {
    Reply(status, message, None)
  }

  /* ---------------- parsing ---------------- */

  /** `String(input ?? '')`. */
  function KeyText(input: CT.JsValue): string {
    if input.Undefined? || input.Null? then "" else CT.ToStr(input)
  }

  /** The kind whose stored name is `key`. */
  function KindNamed(key: string): (r: Option<ContractKind>)
    ensures r.Some? ==> KindName(r.value) == key
  {
    if key == "sale_tos" then Some(SaleTos)
    else if key == "terms_of_use" then Some(TermsOfUse)
    else if key == "privacy_policy" then Some(PrivacyPolicy)
    else if key == "sale_intermediation_cpf" then Some(SaleIntermediationCpf)
    else if key == "sale_intermediation_cnpj" then Some(SaleIntermediationCnpj)
    else if key == "quality_agent_ps" then Some(QualityAgentPs)
    else None
  }

  /** `parseKind`: the kind named by the trimmed input, if any. */
  function ParseKind(input: CT.JsValue): (r: Option<ContractKind>)
    ensures r.Some? ==> KindName(r.value) == Trim(KeyText(input))
  {
    KindNamed(Trim(KeyText(input)))
  }

  /** `parseKind` accepts exactly the six kind names, trimmed. */
  lemma {:induction false} ParseKindSpec(input: CT.JsValue, k: ContractKind)
    ensures ParseKind(input) == Some(k) <==> Trim(KeyText(input)) == KindName(k)
  {
    KindNamedSpec(Trim(KeyText(input)), k);
  }

  /** `key` selects `k` exactly when it is `k`'s name. */
  lemma {:induction false} KindNamedSpec(key: string, k: ContractKind)
    ensures KindNamed(key) == Some(k) <==> key == KindName(k)
  {
    KindNamedName(k);
  }

  /** Each kind's name selects that kind. */
  lemma {:induction false} KindNamedName(k: ContractKind)
    ensures KindNamed(KindName(k)) == Some(k)
  {
    match k
    case SaleTos =>
    case TermsOfUse =>
    case PrivacyPolicy =>
    case SaleIntermediationCpf =>
      assert KindName(k)[5] != KindName(PrivacyPolicy)[5];
    case SaleIntermediationCnpj =>
      assert KindName(k)[|KindName(k)| - 2] != KindName(SaleIntermediationCpf)[|KindName(k)| - 2];
    case QualityAgentPs =>
  }

  /** Kind names have no surrounding whitespace. */
  lemma {:induction false} KindNameTrimmed(k: ContractKind)
    ensures Trim(KindName(k)) == KindName(k)
  {
    var n := KindName(k);
    assert !IsSpace(n[0]) && !IsSpace(n[|n| - 1]);
    TrimUnpadded(n);
  }

  /** A kind's own name parses back to it. */
  lemma {:induction false} ParseKindName(k: ContractKind)
    ensures ParseKind(CT.Str(KindName(k))) == Some(k)
  {
    KindNameTrimmed(k);
    ParseKindSpec(CT.Str(KindName(k)), k);
  }

  /** `Number(v)` for the values a query or body holds. */
  function JsToNumber(v: CT.JsValue): JsNumber.Number {
    match v
    case Undefined => JsNumber.NaN
    case Null => JsNumber.Num(0.0)
    case Bool(b) => JsNumber.Num(if b then 1.0 else 0.0)
    case Obj(_) => JsNumber.NaN
    case _ => JsNumber.ToNumber(CT.ToStr(v))
  }

  /** `parseId`: the number, when it is finite and positive. */
  function ParseId(v: CT.JsValue): (r: Option<real>)
    ensures r.Some? ==> r.value > 0.0 && JsToNumber(v) == JsNumber.Num(r.value)
    ensures r.None? ==> JsToNumber(v).NaN? || JsToNumber(v).v <= 0.0
  {
    var n := JsToNumber(v);
    if n.Num? && n.v > 0.0 then Some(n.v) else None
  }

  /** A positive decimal id given as text is read as its value. */
  lemma {:induction false} ParseIdDigits(n: nat)
    requires n > 0
    ensures ParseId(CT.Str(JsNumber.NatToString(n))) == Some(n as real)
  {
    JsNumber.NatToStringShape(n);
    JsNumber.NatToStringRoundTrip(n);
    JsNumber.ToNumberDigits(JsNumber.NatToString(n));
  }

  /** Ids that are not positive numbers are refused. */
  lemma ParseIdRefuses()
    ensures ParseId(CT.Undefined) == None
    ensures ParseId(CT.Null) == None
    ensures ParseId(CT.Str("")) == None
    ensures ParseId(CT.Bool(false)) == None
  {
    assert Trim("") == "";
  }

  /** `Number.isFinite(v) && v > 0` on an unconverted body value: only a
      number passes. */
  predicate ValidContractId(v: CT.JsValue) {
    v.Num? && CT.NumValue(v).Num? && CT.NumValue(v).v > 0.0
  }

  /** `v ? String(v) : undefined`. */
  function OptionalText(v: CT.JsValue): (r: Option<string>)
    ensures r.Some? <==> CT.Truthy(v)
  {
    if CT.Truthy(v) then Some(CT.ToStr(v)) else None
  }

  /** Whether an optional text is present and not empty. */
  predicate Given(t: Option<string>) {
    t.Some? && t.value != []
  }

  /* ---------------- messages ---------------- */

  const InvalidToken := "Token inválido ou ausente"
  const InvalidParams := "Parâmetros inválidos"
  const SaleNotFound := "Venda não encontrada"
  const NotBuyer := "Usuário não é o comprador desta venda"
  const NotSeller := "Usuário não é vendedor desta venda"
  const NoContract := "Contrato inexistente"
  const BadForeignKey := "IDs inválidos (chave estrangeira)"
  const InvalidSaleId := "saleId inválido"

  /** The messages one acceptance handler answers with. */
  datatype Messages = Messages(created: string, duplicate: string, failed: string, mapsSaleNotFound: bool)

  const AcceptMessages := Messages("Aceite registrado",
    "Já existe um aceite para este usuário/contrato/venda/papel", "Erro ao registrar aceite", false)
  const BuyerMessages := Messages("Aceite do comprador registrado",
    "Já existe aceite do comprador para este usuário/contrato/venda", "Erro ao registrar aceite do comprador", true)
  const SellerMessages := Messages("Aceite do vendedor registrado",
    "Já existe aceite do vendedor para este usuário/contrato/venda", "Erro ao registrar aceite do vendedor", true)

  /** The `catch` of an acceptance handler. */
  function FailureReply(f: Failure, m: Messages): (r: Reply)
    ensures r.status == 409 <==> f == UniqueViolation
    ensures r.status == 400 <==> f == ForeignKeyViolation
    ensures r.status == 404 <==>
      f == Thrown("CONTRACT_NOT_FOUND") || (m.mapsSaleNotFound && f == Thrown("SALE_NOT_FOUND"))
    ensures r.status in {400, 404, 409, 500} && r.id.None?
  {
    match f
    case UniqueViolation => Say(409, m.duplicate)
    case ForeignKeyViolation => Say(400, BadForeignKey)
    case Thrown(msg) =>
      if msg == "CONTRACT_NOT_FOUND" then Say(404, NoContract)
      else if m.mapsSaleNotFound && msg == "SALE_NOT_FOUND" then Say(404, SaleNotFound)
      else Say(500, m.failed)
  }

  /** The reply once the write has been tried. */
  function WriteReply(out: Result<Acceptance, Failure>, id: string, m: Messages): (r: Reply)
    ensures r.status == 201 <==> out.Ok?
    ensures out.Ok? ==> r == Reply(201, m.created, Some(id))
    ensures out.Err? ==> r == FailureReply(out.error, m)
  {
    if out.Ok? then Reply(201, m.created, Some(id)) else FailureReply(out.error, m)
  }

  /* ---------------- the acceptance handlers ---------------- */

  /** The body of a generic acceptance. */
  datatype AcceptBody = AcceptBody(contractId: CT.JsValue, accepted: CT.JsValue, saleId: CT.JsValue, role: CT.JsValue)

  /** `String(role || '').toUpperCase()`. */
  function RoleText(role: CT.JsValue): string {
    ToUpper(if CT.Truthy(role) then CT.ToStr(role) else "")
  }

  /** The role named by the upper-cased text, BUYER or SELLER. */
  function ParseRole(role: CT.JsValue): (r: Option<Role>)
    ensures r.Some? <==> RoleText(role) in ["BUYER", "SELLER"]
    ensures r == Some(SellerRole) <==> RoleText(role) == "SELLER"
  {
    var s := RoleText(role);
    if s == "SELLER" then Some(SellerRole) else if s == "BUYER" then Some(BuyerRole) else None
  }

  /** The check of the caller against a given sale: a buyer must be its
      buyer (404 for an unknown sale, 403 for another user), a seller one of
      its sellers (403). */
  function SaleLinkReply(role: Role, saleId: Option<string>, user: string, sales: map<string, Sale>)
    : (r: Option<Reply>)
    ensures user != [] ==> (r.None? <==>
      (Given(saleId) && role.BuyerRole? ==> saleId.value in sales && sales[saleId.value].buyerId == user)
      && (Given(saleId) && role.SellerRole? ==> user in SellersOf(SaleById(sales, saleId.value))))
    ensures r.Some? ==> r.value.status in {403, 404}
  {
    if !Given(saleId) then None
    else if role.BuyerRole? then
      var buyerId := GetBuyerIdForSale(SaleById(sales, saleId.value));
      if !Given(buyerId) then Some(Say(404, SaleNotFound))
      else if buyerId.value != user then Some(Say(403, NotBuyer))
      else None
    else if user !in SellersOf(SaleById(sales, saleId.value)) then Some(Say(403, NotSeller))
    else None
  }

  /** The early returns of `accept`: the acceptance to record, or the reply. */
  function AcceptGuard(auth: Option<string>, body: AcceptBody, sales: map<string, Sale>,
                       clientIp: string, userAgent: string): (r: Result<AcceptRequest, Reply>)
    ensures !Given(auth) ==> r == Err(Say(401, InvalidToken))
    ensures r.Err? ==> r.error.status in {400, 401, 403, 404}
    ensures r.Ok? ==> r.value.userId == auth.value && r.value.saleId == OptionalText(body.saleId)
                      && body.accepted.Bool? && r.value.accepted == body.accepted.b
                      && r.value.contractId == CT.ToStr(body.contractId)
  {
    var saleId := OptionalText(body.saleId);
    var role := ParseRole(body.role);
    if !Given(auth) then Err(Say(401, InvalidToken))
    else if role.None? then Err(Say(400, "role deve ser BUYER ou SELLER"))
    else if !ValidContractId(body.contractId) || !body.accepted.Bool? then Err(Say(400, InvalidParams))
    else
      var link := SaleLinkReply(role.value, saleId, auth.value, sales);
      if link.Some? then Err(link.value)
      else Ok(AcceptRequest(auth.value, CT.ToStr(body.contractId), body.accepted.b, clientIp, userAgent,
                            saleId, role.value))
  }

  /** A sale of the table by id. */
  function SaleById(sales: map<string, Sale>, id: string): (r: Option<Sale>)
    ensures r.Some? <==> id in sales
  {
    if id in sales then Some(sales[id]) else None
  }

  /** `accept` lets an acceptance through exactly when the caller is
      authenticated, the role is BUYER or SELLER in any case, the contract
      id is a positive number, `accepted` is a boolean and, for a sale, the
      caller is its buyer or one of its sellers as the role says. */
  lemma {:induction false} AcceptGuardSpec(auth: Option<string>, body: AcceptBody, sales: map<string, Sale>,
                        clientIp: string, userAgent: string)
    ensures var r := AcceptGuard(auth, body, sales, clientIp, userAgent);
      var saleId := OptionalText(body.saleId);
      r.Ok? <==>
        Given(auth) && RoleText(body.role) in ["BUYER", "SELLER"]
        && ValidContractId(body.contractId) && body.accepted.Bool?
        && (Given(saleId) && RoleText(body.role) == "BUYER" ==>
              saleId.value in sales && sales[saleId.value].buyerId == auth.value)
        && (Given(saleId) && RoleText(body.role) == "SELLER" ==>
              auth.value in SellersOf(SaleById(sales, saleId.value)))
    ensures var r := AcceptGuard(auth, body, sales, clientIp, userAgent);
      r.Ok? ==> r.value.role == (if RoleText(body.role) == "SELLER" then SellerRole else BuyerRole)
  {
    var role := ParseRole(body.role);
    if role.Some? && Given(auth) {
      var link := SaleLinkReply(role.value, OptionalText(body.saleId), auth.value, sales);
    }
  }

  /** A seller acceptance of a sale is recorded only for one of the sale's
      sellers, whose products it sells or who is its legacy seller. */
  lemma {:induction false} AcceptedSellerSellsInSale(auth: Option<string>, body: AcceptBody, sales: map<string, Sale>,
                                  clientIp: string, userAgent: string)
    requires AcceptGuard(auth, body, sales, clientIp, userAgent).Ok?
    requires var q := AcceptGuard(auth, body, sales, clientIp, userAgent).value;
      q.role == SellerRole && Given(q.saleId)
    ensures var q := AcceptGuard(auth, body, sales, clientIp, userAgent).value;
      q.saleId.value in sales
      && (SoldBy(sales[q.saleId.value].items, q.userId) || sales[q.saleId.value].legacySeller == Some(q.userId))
  {
    var q := AcceptGuard(auth, body, sales, clientIp, userAgent).value;
    SellersOfSpec(SaleById(sales, q.saleId.value), q.userId);
  }

  /** The body of a buyer or seller acceptance. */
  datatype SaleAcceptBody = SaleAcceptBody(accepted: CT.JsValue, contractId: CT.JsValue)

  /** `let contractId = contractIdBody`, or else the id of the newest
      contract of the automatically picked kind. */
  function ContractToAccept(given: Option<string>, sale: Option<Sale>, contracts: seq<Contract>)
    : (r: Result<string, Reply>)
    ensures Given(given) ==> r == Ok(given.value)
    ensures !Given(given) && sale.Some? ==>
      var kind := PickDefaultSaleContractKind(sale).value;
      (r.Ok? <==> LatestContract(contracts, Some(kind)).Some?)
      && (r.Ok? ==> r.value == LatestContract(contracts, Some(kind)).value.id)
      && (r.Err? ==> r.error == Say(404, NoContract))
  {
    if Given(given) then Ok(given.value)
    else
      var kind := PickDefaultSaleContractKind(sale);
      if kind.Err? then Err(Say(404, SaleNotFound))
      else
        var latest := LatestContract(contracts, Some(kind.value));
        if latest.None? then Err(Say(404, NoContract)) else Ok(latest.value.id)
  }

  /** The early returns of `buyerAccept`. */
  function BuyerAcceptGuard(saleId: string, auth: Option<string>, body: SaleAcceptBody,
                            sales: map<string, Sale>, contracts: seq<Contract>,
                            clientIp: string, userAgent: string): (r: Result<AcceptRequest, Reply>)
    ensures saleId == [] ==> r == Err(Say(400, InvalidSaleId))
    ensures saleId != [] && !Given(auth) ==> r == Err(Say(401, InvalidToken))
    ensures r.Ok? ==> saleId in sales && sales[saleId].buyerId == auth.value
                      && body.accepted.Bool?
                      && r.value == AcceptRequest(auth.value, r.value.contractId, body.accepted.b,
                                                  clientIp, userAgent, Some(saleId), BuyerRole)
    ensures r.Ok? && !Given(OptionalText(body.contractId)) ==>
      var kind := PickDefaultSaleContractKind(Some(sales[saleId])).value;
      LatestContract(contracts, Some(kind)).Some? && r.value.contractId == LatestContract(contracts, Some(kind)).value.id
  {
    if saleId == [] then Err(Say(400, InvalidSaleId))
    else if !Given(auth) then Err(Say(401, InvalidToken))
    else if !body.accepted.Bool? then Err(Say(400, InvalidParams))
    else
      var buyerId := GetBuyerIdForSale(SaleById(sales, saleId));
      if !Given(buyerId) then Err(Say(404, SaleNotFound))
      else if buyerId.value != auth.value then Err(Say(403, NotBuyer))
      else
        var c := ContractToAccept(OptionalText(body.contractId), SaleById(sales, saleId), contracts);
        if c.Err? then Err(c.error)
        else Ok(AcceptRequest(auth.value, c.value, body.accepted.b, clientIp, userAgent, Some(saleId), BuyerRole))
  }

  /** The early returns of `sellerAccept`. */
  function SellerAcceptGuard(saleId: string, auth: Option<string>, body: SaleAcceptBody,
                             sales: map<string, Sale>, contracts: seq<Contract>,
                             clientIp: string, userAgent: string): (r: Result<AcceptRequest, Reply>)
    ensures saleId == [] ==> r == Err(Say(400, InvalidSaleId))
    ensures saleId != [] && !Given(auth) ==> r == Err(Say(401, InvalidToken))
    ensures r.Ok? ==> auth.value in SellersOf(SaleById(sales, saleId))
                      && body.accepted.Bool?
                      && r.value == AcceptRequest(auth.value, r.value.contractId, body.accepted.b,
                                                  clientIp, userAgent, Some(saleId), SellerRole)
    ensures r.Ok? && !Given(OptionalText(body.contractId)) ==>
      saleId in sales &&
      var kind := PickDefaultSaleContractKind(SaleById(sales, saleId)).value;
      LatestContract(contracts, Some(kind)).Some? && r.value.contractId == LatestContract(contracts, Some(kind)).value.id
  {
    if saleId == [] then Err(Say(400, InvalidSaleId))
    else if !Given(auth) then Err(Say(401, InvalidToken))
    else if !body.accepted.Bool? then Err(Say(400, InvalidParams))
    else if auth.value !in SellersOf(SaleById(sales, saleId)) then Err(Say(403, NotSeller))
    else
      var c := ContractToAccept(OptionalText(body.contractId), SaleById(sales, saleId), contracts);
      if c.Err? then Err(c.error)
      else Ok(AcceptRequest(auth.value, c.value, body.accepted.b, clientIp, userAgent, Some(saleId), SellerRole))
  }

  /** A seller that passes `sellerAccept`'s guard belongs to an existing sale. */
  lemma {:induction false} SellerGuardNeedsSale(saleId: string, auth: Option<string>, body: SaleAcceptBody,
                             sales: map<string, Sale>, contracts: seq<Contract>,
                             clientIp: string, userAgent: string)
    requires SellerAcceptGuard(saleId, auth, body, sales, contracts, clientIp, userAgent).Ok?
    ensures saleId in sales
  {
  }

  /** The result of a guard followed by the write. */
  function GuardedReply(g: Result<AcceptRequest, Reply>, out: Result<Acceptance, Failure>, id: string, m: Messages): Reply {
    if g.Err? then g.error else WriteReply(out, id, m)
  }

  /** Records the acceptance a guard let through and answers. */
  method Record(store: ContractStore, g: Result<AcceptRequest, Reply>, m: Messages, newId: string,
                now: int, iso: int -> string, sha: string -> string, users: set<string>, sales: map<string, Sale>)
    returns (reply: Reply)
    modifies store
    ensures g.Err? ==> reply == g.error && store.acceptances == old(store.acceptances)
    ensures g.Ok? ==>
      var out := AcceptOutcome(old(store.contracts), old(store.acceptances), g.value, now, iso, sha, users, sales.Keys);
      reply == WriteReply(out, newId, m)
      && store.acceptances == old(store.acceptances) + (if out.Ok? then [out.value] else [])
    ensures store.contracts == old(store.contracts)
  {
    if g.Err? {
      return g.error;
    }
    var out := store.AcceptContract(g.value, now, iso, sha, users, sales.Keys);
    reply := WriteReply(out, newId, m);
  }

  /** `accept`, with the body's `contractId` passed on as text (see
      `AcceptAsWritten` for the handler as written). */
  method Accept(store: ContractStore, auth: Option<string>, body: AcceptBody, sales: map<string, Sale>,
                users: set<string>, clientIp: string, userAgent: string, newId: string,
                now: int, iso: int -> string, sha: string -> string) returns (reply: Reply)
    modifies store
    ensures var g := AcceptGuard(auth, body, sales, clientIp, userAgent);
      var out := if g.Ok? then AcceptOutcome(old(store.contracts), old(store.acceptances), g.value, now, iso, sha, users, sales.Keys)
                 else Err(Thrown(""));
      reply == GuardedReply(g, out, newId, AcceptMessages)
      && store.acceptances == old(store.acceptances) + (if g.Ok? && out.Ok? then [out.value] else [])
    ensures store.contracts == old(store.contracts)
  {
    var g := AcceptGuard(auth, body, sales, clientIp, userAgent);
    reply := Record(store, g, AcceptMessages, newId, now, iso, sha, users, sales);
  }

  /** `accept` as written: the guard only lets a JavaScript number through as
      `contractId`, and that number reaches `acceptContract`, whose lookup by
      the text id of a contract rejects it. Every request the guard admits
      ends in the generic 500 and nothing is written. */
  function AcceptAsWritten(auth: Option<string>, body: AcceptBody, sales: map<string, Sale>,
                           clientIp: string, userAgent: string): (r: Reply)
    ensures r.status != 201
    ensures r.status == 500 <==> AcceptGuard(auth, body, sales, clientIp, userAgent).Ok?
    ensures AcceptGuard(auth, body, sales, clientIp, userAgent).Err? ==>
      r == AcceptGuard(auth, body, sales, clientIp, userAgent).error
  {
    var g := AcceptGuard(auth, body, sales, clientIp, userAgent);
    if g.Err? then g.error else FailureReply(Thrown("numeric contractId"), AcceptMessages)
  }

  /** With the id passed on as text, as `buyerAccept` does, an admitted
      acceptance of an existing contract, by an existing user for an existing
      sale and without a duplicate, is recorded and answered 201. */
  lemma {:induction false} AcceptRecordsAdmitted(auth: Option<string>, body: AcceptBody, sales: map<string, Sale>,
                              clientIp: string, userAgent: string, contracts: seq<Contract>,
                              acceptances: seq<Acceptance>, users: set<string>, newId: string,
                              now: int, iso: int -> string, sha: string -> string)
    requires var g := AcceptGuard(auth, body, sales, clientIp, userAgent);
      g.Ok? && FindContract(contracts, g.value.contractId).Some?
      && g.value.userId in users && (g.value.saleId.Some? ==> g.value.saleId.value in sales)
      && forall k :: 0 <= k < |acceptances| ==> !SameKey(acceptances[k], g.value)
    ensures var g := AcceptGuard(auth, body, sales, clientIp, userAgent);
      var out := AcceptOutcome(contracts, acceptances, g.value, now, iso, sha, users, sales.Keys);
      out.Ok? && GuardedReply(g, out, newId, AcceptMessages) == Reply(201, "Aceite registrado", Some(newId))
  {
    var g := AcceptGuard(auth, body, sales, clientIp, userAgent);
    var out := AcceptOutcome(contracts, acceptances, g.value, now, iso, sha, users, sales.Keys);
    assert out != Err(Thrown("CONTRACT_NOT_FOUND")) && out != Err(UniqueViolation);
  }

  /** `buyerAccept`. */
  method BuyerAccept(store: ContractStore, saleId: string, auth: Option<string>, body: SaleAcceptBody,
                     sales: map<string, Sale>, users: set<string>, clientIp: string, userAgent: string,
                     newId: string, now: int, iso: int -> string, sha: string -> string) returns (reply: Reply)
    modifies store
    ensures var g := BuyerAcceptGuard(saleId, auth, body, sales, old(store.contracts), clientIp, userAgent);
      var out := if g.Ok? then AcceptOutcome(old(store.contracts), old(store.acceptances), g.value, now, iso, sha, users, sales.Keys)
                 else Err(Thrown(""));
      reply == GuardedReply(g, out, newId, BuyerMessages)
      && store.acceptances == old(store.acceptances) + (if g.Ok? && out.Ok? then [out.value] else [])
    ensures store.contracts == old(store.contracts)
  {
    var g := BuyerAcceptGuard(saleId, auth, body, sales, store.contracts, clientIp, userAgent);
    reply := Record(store, g, BuyerMessages, newId, now, iso, sha, users, sales);
  }

  /** `sellerAccept`. */
  method SellerAccept(store: ContractStore, saleId: string, auth: Option<string>, body: SaleAcceptBody,
                      sales: map<string, Sale>, users: set<string>, clientIp: string, userAgent: string,
                      newId: string, now: int, iso: int -> string, sha: string -> string) returns (reply: Reply)
    modifies store
    ensures var g := SellerAcceptGuard(saleId, auth, body, sales, old(store.contracts), clientIp, userAgent);
      var out := if g.Ok? then AcceptOutcome(old(store.contracts), old(store.acceptances), g.value, now, iso, sha, users, sales.Keys)
                 else Err(Thrown(""));
      reply == GuardedReply(g, out, newId, SellerMessages)
      && store.acceptances == old(store.acceptances) + (if g.Ok? && out.Ok? then [out.value] else [])
    ensures store.contracts == old(store.contracts)
  {
    var g := SellerAcceptGuard(saleId, auth, body, sales, store.contracts, clientIp, userAgent);
    reply := Record(store, g, SellerMessages, newId, now, iso, sha, users, sales);
  }

  /** A buyer acceptance answered 201 was written for the sale's own buyer,
      and is then that sale's newest buyer acceptance when it is the latest
      one recorded. */
  lemma {:induction false} BuyerAcceptRecorded(saleId: string, auth: Option<string>, body: SaleAcceptBody,
                            sales: map<string, Sale>, contracts: seq<Contract>, acceptances: seq<Acceptance>,
                            clientIp: string, userAgent: string, now: int, iso: int -> string,
                            sha: string -> string, users: set<string>, newId: string)
    requires var g := BuyerAcceptGuard(saleId, auth, body, sales, contracts, clientIp, userAgent);
      g.Ok? && WriteReply(AcceptOutcome(contracts, acceptances, g.value, now, iso, sha, users, sales.Keys),
                          newId, BuyerMessages).status == 201
    requires forall k :: 0 <= k < |acceptances| ==> acceptances[k].acceptedAt < now
    ensures var g := BuyerAcceptGuard(saleId, auth, body, sales, contracts, clientIp, userAgent);
      var a := AcceptOutcome(contracts, acceptances, g.value, now, iso, sha, users, sales.Keys).value;
      saleId in sales && a.userId == sales[saleId].buyerId
      && var st := AcceptanceStatusBySale(saleId, Some(sales[saleId]), acceptances + [a]);
      st.Some? && st.value.buyer == Some(a)
  {
    var g := BuyerAcceptGuard(saleId, auth, body, sales, contracts, clientIp, userAgent);
    var a := AcceptOutcome(contracts, acceptances, g.value, now, iso, sha, users, sales.Keys).value;
    NewestAppend(acceptances, a, (x: Acceptance) => IsBuyerAcceptance(x, saleId), AcceptedAt);
  }

  /* ---------------- the other handlers ---------------- */

  /** `createVersion`: 400 without content or version; the kind falls back
      to `sale_tos`. Missing body fields are absent texts. */
  method CreateVersion(store: ContractStore, content: Option<string>, version: Option<string>, kindRaw: CT.JsValue,
                       newId: string, now: int, sha: string -> string) returns (r: Result<Contract, Reply>)
    modifies store
    ensures !Given(content) || !Given(version) ==>
      r == Err(Say(400, "content e version são obrigatórios")) && store.contracts == old(store.contracts)
    ensures Given(content) && Given(version) ==>
      var kind := if ParseKind(kindRaw).Some? then ParseKind(kindRaw).value else SaleTos;
      r == Ok(Contract(newId, kind, version.value, content.value, sha(content.value), now))
      && store.contracts == old(store.contracts) + [r.value]
    ensures store.acceptances == old(store.acceptances)
  {
    if !Given(content) || !Given(version) {
      return Err(Say(400, "content e version são obrigatórios"));
    }
    var kind := if ParseKind(kindRaw).Some? then ParseKind(kindRaw).value else SaleTos;
    var c := store.CreateVersion(newId, content.value, version.value, kind, now, sha);
    r := Ok(c);
  }

  /** `latest`: the newest contract of the queried kind, or 404. */
  function Latest(kindQ: CT.JsValue, contracts: seq<Contract>): (r: Result<Contract, Reply>)
    ensures r.Err? <==> LatestContract(contracts, ParseKind(kindQ)).None?
    ensures r.Err? ==> r.error == Say(404, "Nenhum contrato encontrado")
    ensures r.Ok? ==> r.value in contracts && OfKind(r.value, ParseKind(kindQ))
  {
    var c := LatestContract(contracts, ParseKind(kindQ));
    if c.None? then Err(Say(404, "Nenhum contrato encontrado")) else Ok(c.value)
  }

  /** `statusBySale`. */
  function StatusBySale(saleId: string, sales: map<string, Sale>, acceptances: seq<Acceptance>)
    : (r: Result<AcceptanceStatus, Reply>)
    ensures saleId == [] ==> r == Err(Say(400, InvalidSaleId))
    ensures saleId != [] ==> (r.Err? <==> saleId !in sales)
    ensures saleId != [] && r.Err? ==> r.error == Say(404, "Nenhum aceite para esta venda")
  {
    if saleId == [] then Err(Say(400, InvalidSaleId))
    else
      var s := AcceptanceStatusBySale(saleId, SaleById(sales, saleId), acceptances);
      if s.None? then Err(Say(404, "Nenhum aceite para esta venda")) else Ok(s.value)
  }

  /** `contractBySale`: the resolved contract or the reply for its failure;
      the parsed seller id is passed on as `numText` of the number. */
  function ContractBySale(saleId: string, kindQ: CT.JsValue, sellerQ: CT.JsValue, sales: map<string, Sale>,
                          contracts: seq<Contract>, toJs: SaleContext -> CT.JsValue,
                          json: CT.JsValue -> string, numText: real -> string): (r: Result<Resolved, Reply>)
    ensures saleId == [] ==> r == Err(Say(400, InvalidSaleId))
    ensures saleId != [] && saleId !in sales ==> r == Err(Say(404, SaleNotFound))
    ensures r.Err? ==> r.error.status in {400, 404}
  {
    if saleId == [] then Err(Say(400, InvalidSaleId))
    else
      var kind := ParseKind(kindQ);
      var id := ParseId(sellerQ);
      var prefer := if id.Some? then Some(numText(id.value)) else None;
      var res := ResolvedContractForSale(saleId, SaleById(sales, saleId), kind, prefer, contracts, toJs, json);
      ResolvedErrors(saleId, SaleById(sales, saleId), kind, prefer, contracts, toJs, json);
      if res.Ok? then Ok(res.value) else Err(ResolutionReply(res.error))
  }

  /** The `catch` of `contractBySale`. */
  function ResolutionReply(error: string): (r: Reply)
    ensures r.status == 400 <==> error == "MULTIPLE_SELLERS_REQUIRE_ID"
    ensures r.status == 404 <==> error == "SALE_NOT_FOUND" || error == "CONTRACT_NOT_FOUND"
    ensures r.status in {400, 404, 500}
  {
    if error == "SALE_NOT_FOUND" then Say(404, SaleNotFound)
    else if error == "CONTRACT_NOT_FOUND" then Say(404, NoContract)
    else if error == "MULTIPLE_SELLERS_REQUIRE_ID" then
      Say(400, "sellerId é obrigatório para vendas com múltiplos vendedores")
    else Say(500, "Erro ao gerar contrato da venda")
  }

  /** `contractBySale` answers 400 for an existing sale exactly when no
      positive seller id is given, the sale has no legacy seller id and it
      has several sellers. */
  lemma {:induction false} ContractBySaleNeedsSeller(saleId: string, kindQ: CT.JsValue, sellerQ: CT.JsValue, sales: map<string, Sale>,
                                  contracts: seq<Contract>, toJs: SaleContext -> CT.JsValue,
                                  json: CT.JsValue -> string, numText: real -> string)
    requires saleId in sales && saleId != []
    requires forall v: real :: numText(v) != []
    ensures var r := ContractBySale(saleId, kindQ, sellerQ, sales, contracts, toJs, json, numText);
      (r.Err? && r.error.status == 400) <==>
        ParseId(sellerQ).None? && !Given(sales[saleId].legacySeller) && |SellersOf(Some(sales[saleId]))| > 1
  {
    var id := ParseId(sellerQ);
    var prefer := if id.Some? then Some(numText(id.value)) else None;
    var sale := SaleById(sales, saleId);
    var res := ResolvedContractForSale(saleId, sale, ParseKind(kindQ), prefer, contracts, toJs, json);
    ResolvedErrors(saleId, sale, ParseKind(kindQ), prefer, contracts, toJs, json);
    PreferNamed(id, numText, sales[saleId].legacySeller);
    var r := ContractBySale(saleId, kindQ, sellerQ, sales, contracts, toJs, json, numText);
    assert r == if res.Ok? then Ok(res.value) else Err(ResolutionReply(res.error));
    assert (r.Err? && r.error.status == 400) <==> res == Err("MULTIPLE_SELLERS_REQUIRE_ID");
  }

  /** A parsed seller id always names a seller; without one the legacy
      seller id decides. */
  lemma {:induction false} PreferNamed(id: Option<real>, numText: real -> string, legacy: Option<string>)
    requires forall v: real :: numText(v) != []
    ensures Named(if id.Some? then Some(numText(id.value)) else None, legacy) <==> id.Some? || Given(legacy)
  {
    if id.Some? {
      var v := id.value;
      assert numText(v) != [];
    }
  }
}
