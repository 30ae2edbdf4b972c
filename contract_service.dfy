/** `ContractService`: contract versions, the automatic choice between the
    CPF and CNPJ sale contracts, the sellers of a sale and the seller whose
    contract is rendered, the sale totals, acceptances and the acceptance
    status of a sale. The database tables are values (`seq` of rows) or the
    fields of `ContractStore`; hashing and the clock are parameters. */
module ContractService {
  import opened Wrappers
  import opened Text
  import ContractTemplate

  /* ---------------- contract kinds ---------------- */

  datatype ContractKind =
    | SaleTos
    | TermsOfUse
    | PrivacyPolicy
    | SaleIntermediationCpf
    | SaleIntermediationCnpj
    | QualityAgentPs

  /** The stored name of a kind. */
  function KindName(k: ContractKind): string {
    match k
    case SaleTos => "sale_tos"
    case TermsOfUse => "terms_of_use"
    case PrivacyPolicy => "privacy_policy"
    case SaleIntermediationCpf => "sale_intermediation_cpf"
    case SaleIntermediationCnpj => "sale_intermediation_cnpj"
    case QualityAgentPs => "quality_agent_ps"
  }

  /** Different kinds have different names. */
  lemma {:induction false} KindNameInjective(a: ContractKind, b: ContractKind)
    ensures KindName(a) == KindName(b) ==> a == b
  {
  }

  /* ---------------- sales ---------------- */

  datatype Buyer = Buyer(cnpj: Option<string>)

  /** A bought product: the seller of its product (none when the product or
      its seller id is missing), the stored line value and the amount. */
  datatype BoughtProduct = BoughtProduct(seller: Option<string>, value: real, amount: int)

  /** A sale with its buyer, the seller id of the older one-seller layout,
      its bought products and its transport value. */
  datatype Sale = Sale(buyerId: string, buyer: Option<Buyer>, legacySeller: Option<string>,
                       items: seq<BoughtProduct>, transportValue: Option<real>)

  /** Whether the buyer has a CNPJ with a character other than whitespace. */
  predicate HasCnpj(sale: Sale) {
    sale.buyer.Some? && sale.buyer.value.cnpj.Some? && HasNonSpace(sale.buyer.value.cnpj.value)
  }

  /** `pickDefaultSaleContractKind`: the CNPJ sale contract for a buyer with
      a non-blank CNPJ, the CPF one otherwise; an unknown sale throws. */
  function PickDefaultSaleContractKind(sale: Option<Sale>): (r: Result<ContractKind, string>)
    ensures sale.None? <==> r == Err("SALE_NOT_FOUND")
    ensures sale.Some? ==> r.Ok? && (r.value == SaleIntermediationCnpj <==> HasCnpj(sale.value))
    ensures sale.Some? ==> r.Ok? && (r.value == SaleIntermediationCpf <==> !HasCnpj(sale.value))
  {
    if sale.None? then Err("SALE_NOT_FOUND")
    else
      var b := sale.value.buyer;
      if b.Some? && b.value.cnpj.Some? then
        var cnpj := b.value.cnpj.value;
        TrimEmpty(cnpj);
        if cnpj != [] && Trim(cnpj) != [] then Ok(SaleIntermediationCnpj) else Ok(SaleIntermediationCpf)
      else Ok(SaleIntermediationCpf)
  }

  /** `sale?.buyerId ?? null`. */
  function GetBuyerIdForSale(sale: Option<Sale>): (r: Option<string>)
    ensures r.Some? <==> sale.Some?
    ensures r.Some? ==> r.value == sale.value.buyerId
  {
    if sale.None? then None else Some(sale.value.buyerId)
  }

  /* ---------------- sellers of a sale ---------------- */

  /** `ids.add(sid)` on an insertion-ordered set held as a sequence. */
  function AddSeller(ids: seq<string>, sid: Option<string>): seq<string> {
    if sid.Some? && sid.value !in ids then ids + [sid.value] else ids
  }

  /** The seller ids of the bought products, first occurrence first. */
  function ItemSellers(items: seq<BoughtProduct>): seq<string>
    decreases |items|
  {
    if items == [] then [] else AddSeller(ItemSellers(items[..|items| - 1]), items[|items| - 1].seller)
  }

  /** `getSellersForSale`: the item sellers, then the legacy seller id. */
  function SellersOf(sale: Option<Sale>): seq<string> {
    if sale.None? then [] else AddSeller(ItemSellers(sale.value.items), sale.value.legacySeller)
  }

  predicate Distinct(ids: seq<string>) {
    forall i, j :: 0 <= i < j < |ids| ==> ids[i] != ids[j]
  }

  /** Some bought product is sold by `x`. */
  predicate SoldBy(items: seq<BoughtProduct>, x: string) {
    exists k :: 0 <= k < |items| && items[k].seller == Some(x)
  }

  lemma {:induction false} AddSellerSpec(ids: seq<string>, sid: Option<string>, x: string)
    requires Distinct(ids)
    ensures Distinct(AddSeller(ids, sid))
    ensures x in AddSeller(ids, sid) <==> x in ids || sid == Some(x)
  {
  }

  lemma {:induction false} ItemSellersSpec(items: seq<BoughtProduct>, x: string)
    ensures Distinct(ItemSellers(items))
    ensures x in ItemSellers(items) <==> SoldBy(items, x)
    decreases |items|
  {
    if items != [] {
      var init := items[..|items| - 1];
      var last := items[|items| - 1];
      ItemSellersSpec(init, x);
      AddSellerSpec(ItemSellers(init), last.seller, x);
      assert forall j :: 0 <= j < |init| ==> init[j] == items[j];
    }
  }

  /** The sellers of a sale are distinct, and they are exactly the sellers
      of its bought products and its legacy seller; an unknown sale has none. */
  lemma {:induction false} SellersOfSpec(sale: Option<Sale>, x: string)
    ensures Distinct(SellersOf(sale))
    ensures x in SellersOf(sale) <==>
      sale.Some? && (SoldBy(sale.value.items, x) || sale.value.legacySeller == Some(x))
  {
    if sale.Some? {
      ItemSellersSpec(sale.value.items, x);
      AddSellerSpec(ItemSellers(sale.value.items), sale.value.legacySeller, x);
    }
  }

  /** The loop of `getSellersForSale`. */
  method GetSellersForSale(sale: Option<Sale>) returns (ids: seq<string>)
    ensures ids == SellersOf(sale)
  {
    if sale.None? {
      return [];
    }
    var items := sale.value.items;
    ids := [];
    for i := 0 to |items|
      invariant ids == ItemSellers(items[..i])
    {
      assert items[..i + 1][..i] == items[..i];
      var sid := items[i].seller;
      if sid.Some? && sid.value !in ids {
        ids := ids + [sid.value];
      }
    }
    assert items[..|items|] == items;
    var legacy := sale.value.legacySeller;
    if legacy.Some? && legacy.value !in ids {
      ids := ids + [legacy.value];
    }
  }

  /* ---------------- the sale context ---------------- */

  /** The seller whose contract is rendered: the preferred id, or else the
      legacy one (`??`); if that is missing or empty, the sole seller of the
      sale, an error when there are several, and the missing id otherwise. */
  function ChooseSeller(prefer: Option<string>, legacy: Option<string>, sellers: seq<string>)
    : (r: Result<Option<string>, string>)
    ensures prefer.Some? && prefer.value != [] ==> r == Ok(prefer)
    ensures prefer.None? && legacy.Some? && legacy.value != [] ==> r == Ok(legacy)
    ensures r.Err? <==> !Named(prefer, legacy) && |sellers| > 1
    ensures r.Err? ==> r.error == "MULTIPLE_SELLERS_REQUIRE_ID"
    ensures !Named(prefer, legacy) && |sellers| == 1 ==> r == Ok(Some(sellers[0]))
    ensures !Named(prefer, legacy) && sellers == [] ==> r.Ok? && (r.value.None? || r.value.value == [])
  {
    var chosen := if prefer.Some? then prefer else legacy;
    if chosen.Some? && chosen.value != [] then Ok(chosen)
    else if |sellers| == 1 then Ok(Some(sellers[0]))
    else if |sellers| > 1 then Err("MULTIPLE_SELLERS_REQUIRE_ID")
    else Ok(chosen)
  }

  /** `preferSellerId ?? sale.sellerId` is a non-empty id. */
  predicate Named(prefer: Option<string>, legacy: Option<string>) {
    var chosen := if prefer.Some? then prefer else legacy;
    chosen.Some? && chosen.value != []
  }

  /** A seller id that is not given explicitly is always one of the sellers
      of the sale. */
  lemma {:induction false} ChosenSellerTakesPart(sale: Sale, prefer: Option<string>)
    requires prefer.None? || prefer.value == []
    requires ChooseSeller(prefer, sale.legacySeller, SellersOf(Some(sale))).Ok?
    ensures var c := ChooseSeller(prefer, sale.legacySeller, SellersOf(Some(sale))).value;
      c.Some? && c.value != [] ==> c.value in SellersOf(Some(sale))
  {
    var c := ChooseSeller(prefer, sale.legacySeller, SellersOf(Some(sale))).value;
    if c.Some? && c.value != [] {
      SellersOfSpec(Some(sale), c.value);
    }
  }

  /** The line total `value * amount`. */
  function LineTotal(bp: BoughtProduct): real {
    bp.value * bp.amount as real
  }

  /** `items.reduce((acc, it) => acc + (it.total || 0), 0)`. */
  function ItemsTotal(items: seq<BoughtProduct>): real
    decreases |items|
  {
    if items == [] then 0.0 else ItemsTotal(items[..|items| - 1]) + LineTotal(items[|items| - 1])
  }

  /** Totals add up over a concatenation of item lists. */
  lemma {:induction false} ItemsTotalConcat(a: seq<BoughtProduct>, b: seq<BoughtProduct>)
    ensures ItemsTotal(a + b) == ItemsTotal(a) + ItemsTotal(b)
    decreases |b|
  {
    if b != [] {
      var b' := b[..|b| - 1];
      ItemsTotalConcat(a, b');
      assert (a + b)[..|a + b| - 1] == a + b';
      assert (a + b)[|a + b| - 1] == b[|b| - 1];
    } else {
      assert a + b == a;
    }
  }

  /** Lines with non-negative prices and amounts give a non-negative total. */
  lemma {:induction false} ItemsTotalNonNegative(items: seq<BoughtProduct>)
    requires forall k :: 0 <= k < |items| ==> items[k].value >= 0.0 && items[k].amount >= 0
    ensures ItemsTotal(items) >= 0.0
    decreases |items|
  {
    if items != [] {
      var init := items[..|items| - 1];
      assert forall k :: 0 <= k < |init| ==> init[k] == items[k];
      ItemsTotalNonNegative(init);
      var last := items[|items| - 1];
      assert last.value * last.amount as real >= 0.0;
    }
  }

  /** The items of the chosen seller, or all items when no id is chosen. */
  function SellerItems(items: seq<BoughtProduct>, seller: Option<string>): (r: seq<BoughtProduct>)
    ensures seller.None? || seller.value == [] ==> r == items
  {
    if seller.Some? && seller.value != [] then Filter(items, (bp: BoughtProduct) => bp.seller == seller)
    else items
  }

  /** The part of `getSaleContext` the model keeps: the chosen seller, its
      items and the totals, and the full seller list. */
  datatype SaleContext = SaleContext(sale: Sale, seller: Option<string>, items: seq<BoughtProduct>,
                                     itemsTotal: real, freight: real, grand: real, sellers: seq<string>)

  /** `Number(sale.transportValue || 0)`. */
  function Freight(sale: Sale): real {
    if sale.transportValue.Some? then sale.transportValue.value else 0.0
  }

  /** `getSaleContext`: none for an unknown sale, the seller-choice error,
      or the context. */
  function GetSaleContext(sale: Option<Sale>, prefer: Option<string>): (r: Result<Option<SaleContext>, string>)
    ensures sale.None? ==> r == Ok(None)
    ensures sale.Some? && r.Ok? ==> r.value.Some?
    ensures r.Err? ==> r.error == "MULTIPLE_SELLERS_REQUIRE_ID"
    ensures r.Ok? && r.value.Some? ==>
      var c := r.value.value;
      c.sellers == SellersOf(sale) && c.grand == c.itemsTotal + c.freight
      && c.itemsTotal == ItemsTotal(c.items) && c.freight == Freight(sale.value)
  {
    if sale.None? then Ok(None)
    else
      var s := sale.value;
      var sellers := SellersOf(sale);
      var chosen := ChooseSeller(prefer, s.legacySeller, sellers);
      if chosen.Err? then Err(chosen.error)
      else
        var items := SellerItems(s.items, chosen.value);
        var total := ItemsTotal(items);
        Ok(Some(SaleContext(s, chosen.value, items, total, Freight(s), total + Freight(s), sellers)))
  }

  /** With a chosen seller, the context holds exactly that seller's items. */
  lemma {:induction false} ContextItemsOfSeller(sale: Sale, prefer: Option<string>, bp: BoughtProduct)
    requires GetSaleContext(Some(sale), prefer).Ok?
    ensures var c := GetSaleContext(Some(sale), prefer).value.value;
      c.seller.Some? && c.seller.value != [] ==> (bp in c.items <==> bp in sale.items && bp.seller == c.seller)
    ensures var c := GetSaleContext(Some(sale), prefer).value.value;
      c.seller.None? || c.seller.value == [] ==> c.items == sale.items
  {
    var c := GetSaleContext(Some(sale), prefer).value.value;
    FilterMember(sale.items, (b: BoughtProduct) => b.seller == c.seller, bp);
  }

  /* ---------------- contracts ---------------- */

  datatype Contract = Contract(id: string, kind: ContractKind, version: string, content: string,
                               sha256Hash: string, createdAt: int)

  /** The row satisfying `p` with the greatest `at`; of several with the same
      greatest `at`, the earliest stored. */
  function Newest<T>(rows: seq<T>, p: T -> bool, at: T -> int): (r: Option<T>)
    ensures r.Some? ==> r.value in rows && p(r.value)
    ensures r.Some? ==> forall k :: 0 <= k < |rows| && p(rows[k]) ==> at(rows[k]) <= at(r.value)
    ensures r.None? <==> forall k :: 0 <= k < |rows| ==> !p(rows[k])
    decreases |rows|
  {
    if rows == [] then None
    else
      var init := rows[..|rows| - 1];
      var x := rows[|rows| - 1];
      var r := Newest(init, p, at);
      assert forall k :: 0 <= k < |init| ==> init[k] == rows[k];
      if p(x) && (r.None? || at(x) > at(r.value)) then Some(x) else r
  }

  /** A row stored after every other row satisfying `p`, and later than
      them, is the newest. */
  lemma {:induction false} NewestAppend<T>(rows: seq<T>, x: T, p: T -> bool, at: T -> int)
    requires p(x)
    requires forall k :: 0 <= k < |rows| && p(rows[k]) ==> at(rows[k]) < at(x)
    ensures Newest(rows + [x], p, at) == Some(x)
  {
    assert (rows + [x])[..|rows|] == rows;
  }

  /** Rows not satisfying `p` do not change the newest one. */
  lemma {:induction false} NewestAppendOther<T>(rows: seq<T>, x: T, p: T -> bool, at: T -> int)
    requires !p(x)
    ensures Newest(rows + [x], p, at) == Newest(rows, p, at)
  {
    assert (rows + [x])[..|rows|] == rows;
  }

  predicate OfKind(c: Contract, kind: Option<ContractKind>) {
    kind.None? || c.kind == kind.value
  }

  function CreatedAt(c: Contract): int { c.createdAt }

  /** `getLatestContract(kind)`: the newest contract of that kind, or of any
      kind when none is given. */
  function LatestContract(contracts: seq<Contract>, kind: Option<ContractKind>): (r: Option<Contract>)
    ensures r.Some? ==> r.value in contracts && OfKind(r.value, kind)
    ensures r.Some? ==> forall k :: 0 <= k < |contracts| && OfKind(contracts[k], kind)
                          ==> contracts[k].createdAt <= r.value.createdAt
    ensures r.None? <==> forall k :: 0 <= k < |contracts| ==> !OfKind(contracts[k], kind)
  {
    Newest(contracts, (c: Contract) => OfKind(c, kind), CreatedAt)
  }

  /** `findUnique` by id: the contract with that id. */
  function FindContract(contracts: seq<Contract>, id: string): (r: Option<Contract>)
    ensures r.Some? ==> r.value in contracts && r.value.id == id
    ensures r.None? ==> forall k :: 0 <= k < |contracts| ==> contracts[k].id != id
  {
    var k := FindIndex(contracts, (c: Contract) => c.id == id);
    if k < 0 then None else Some(contracts[k])
  }

  /* ---------------- acceptances ---------------- */

  datatype Role = BuyerRole | SellerRole

  function RoleName(r: Role): string {
    match r
    case BuyerRole => "BUYER"
    case SellerRole => "SELLER"
  }

  /** What `acceptContract` is asked to record. */
  datatype AcceptRequest = AcceptRequest(userId: string, contractId: string, accepted: bool,
                                         clientIp: string, userAgent: string,
                                         saleId: Option<string>, role: Role)

  datatype Acceptance = Acceptance(userId: string, contractId: string, role: Role,
                                   saleId: Option<string>, accepted: bool, acceptedAt: int,
                                   clientIp: string, userAgent: string, signatureHash: string)

  /** How a write fails: a unique-key violation, a foreign-key violation,
      or an error thrown with a message. */
  datatype Failure = UniqueViolation | ForeignKeyViolation | Thrown(message: string)

  /** The text whose hash signs an acceptance: the request fields, the
      acceptance time and the contract hash joined with '|'. */
  function SignatureText(q: AcceptRequest, acceptedAt: string, contractHash: string): string {
    Join([q.userId, q.contractId, RoleName(q.role),
          if q.saleId.Some? then q.saleId.value else "null",
          if q.accepted then "1" else "0",
          acceptedAt, q.clientIp, q.userAgent, contractHash], "|")
  }

  /** Acceptances are unique per user, contract, sale and role; as in SQL
      unique keys, a missing sale never collides. */
  predicate SameKey(a: Acceptance, q: AcceptRequest) {
    a.userId == q.userId && a.contractId == q.contractId && a.role == q.role
    && q.saleId.Some? && a.saleId == q.saleId
  }

  /** `acceptContract`: an unknown contract throws CONTRACT_NOT_FOUND; the
      insert fails on a duplicate key and then on a user or sale that does
      not exist; otherwise the signed acceptance is the new row. */
  function AcceptOutcome(contracts: seq<Contract>, acceptances: seq<Acceptance>, q: AcceptRequest,
                         now: int, iso: int -> string, sha: string -> string,
                         users: set<string>, sales: set<string>): (r: Result<Acceptance, Failure>)
    ensures FindContract(contracts, q.contractId).None? <==> r == Err(Thrown("CONTRACT_NOT_FOUND"))
    ensures r == Err(UniqueViolation) <==>
      FindContract(contracts, q.contractId).Some? && exists k :: 0 <= k < |acceptances| && SameKey(acceptances[k], q)
    ensures r.Ok? ==> q.userId in users && (q.saleId.Some? ==> q.saleId.value in sales)
    ensures r.Ok? ==> r.value.accepted == q.accepted && r.value.userId == q.userId && r.value.role == q.role
                      && r.value.saleId == q.saleId && r.value.acceptedAt == now
                      && r.value.signatureHash
                         == sha(SignatureText(q, iso(now), FindContract(contracts, q.contractId).value.sha256Hash))
  {
    var c := FindContract(contracts, q.contractId);
    if c.None? then Err(Thrown("CONTRACT_NOT_FOUND"))
    else if exists k :: 0 <= k < |acceptances| && SameKey(acceptances[k], q) then Err(UniqueViolation)
    else if q.userId !in users || (q.saleId.Some? && q.saleId.value !in sales) then Err(ForeignKeyViolation)
    else
      var hash := sha(SignatureText(q, iso(now), c.value.sha256Hash));
      Ok(Acceptance(q.userId, q.contractId, q.role, q.saleId, q.accepted, now,
                    q.clientIp, q.userAgent, hash))
  }

  /** The contract and acceptance tables. */
  class ContractStore {
    var contracts: seq<Contract>
    var acceptances: seq<Acceptance>

    constructor ()
      ensures contracts == [] && acceptances == []
    {
      contracts := [];
      acceptances := [];
    }

    /** `createVersion`: stores the content with its hash under a new id
        given by the database. */
    method CreateVersion(id: string, content: string, version: string, kind: ContractKind,
                         now: int, sha: string -> string) returns (c: Contract)
      modifies this
      ensures c == Contract(id, kind, version, content, sha(content), now)
      ensures contracts == old(contracts) + [c]
      ensures acceptances == old(acceptances)
    {
      c := Contract(id, kind, version, content, sha(content), now);
      contracts := contracts + [c];
    }

    /** `acceptContract`. */
    method AcceptContract(q: AcceptRequest, now: int, iso: int -> string, sha: string -> string,
                          users: set<string>, sales: set<string>) returns (r: Result<Acceptance, Failure>)
      modifies this
      ensures r == AcceptOutcome(old(contracts), old(acceptances), q, now, iso, sha, users, sales)
      ensures contracts == old(contracts)
      ensures acceptances == old(acceptances) + (if r.Ok? then [r.value] else [])
    {
      var c := FindContract(contracts, q.contractId);
      if c.None? {
        return Err(Thrown("CONTRACT_NOT_FOUND"));
      }
      r := AcceptOutcome(contracts, acceptances, q, now, iso, sha, users, sales);
      if r.Ok? {
        acceptances := acceptances + [r.value];
      }
    }
  }

  /* ---------------- acceptance status ---------------- */

  predicate IsBuyerAcceptance(a: Acceptance, saleId: string) {
    a.saleId == Some(saleId) && a.role == BuyerRole
  }

  predicate IsSellerAcceptance(a: Acceptance, saleId: string, sellerId: string) {
    a.saleId == Some(saleId) && a.role == SellerRole && a.userId == sellerId
  }

  function AcceptedAt(a: Acceptance): int { a.acceptedAt }

  /** A seller with its newest acceptance of the sale, if any. */
  datatype SellerStatus = SellerStatus(sellerId: string, found: Option<Acceptance>) {
    predicate Accepted() { found.Some? && found.value.accepted }
  }

  datatype AcceptanceStatus = AcceptanceStatus(saleId: string, buyer: Option<Acceptance>,
                                               sellers: seq<SellerStatus>,
                                               allSellersAccepted: bool, bothAccepted: bool)

  function SellerStatusOf(acceptances: seq<Acceptance>, saleId: string, sellerId: string): SellerStatus {
    SellerStatus(sellerId, Newest(acceptances, (a: Acceptance) => IsSellerAcceptance(a, saleId, sellerId), AcceptedAt))
  }

  /** `getAcceptanceStatusBySale`: none for an unknown sale; otherwise the
      buyer's newest acceptance, each seller's newest acceptance, whether
      every seller (of at least one) accepted, and whether the buyer did too. */
  function AcceptanceStatusBySale(saleId: string, sale: Option<Sale>, acceptances: seq<Acceptance>)
    : (r: Option<AcceptanceStatus>)
    ensures r.None? <==> sale.None?
    ensures r.Some? ==> |r.value.sellers| == |SellersOf(sale)|
    ensures r.Some? ==> forall k :: 0 <= k < |r.value.sellers| ==>
      r.value.sellers[k] == SellerStatusOf(acceptances, saleId, SellersOf(sale)[k])
    ensures r.Some? ==> (r.value.allSellersAccepted <==>
      SellersOf(sale) != [] && forall k :: 0 <= k < |r.value.sellers| ==> r.value.sellers[k].Accepted())
    ensures r.Some? ==> (r.value.bothAccepted <==>
      r.value.buyer.Some? && r.value.buyer.value.accepted && r.value.allSellersAccepted)
  {
    var sellers := SellersOf(sale);
    if sellers == [] && sale.None? then None
    else
      var buyer := Newest(acceptances, (a: Acceptance) => IsBuyerAcceptance(a, saleId), AcceptedAt);
      var status := MapSeq(sellers, (sid: string) => SellerStatusOf(acceptances, saleId, sid));
      var all := |status| > 0 && forall k :: 0 <= k < |status| ==> status[k].Accepted();
      Some(AcceptanceStatus(saleId, buyer, status, all, buyer.Some? && buyer.value.accepted && all))
  }

  /** A sale without sellers never has all its sellers accepted. */
  lemma {:induction false} NoSellersNotAccepted(saleId: string, sale: Sale, acceptances: seq<Acceptance>)
    requires SellersOf(Some(sale)) == []
    ensures var r := AcceptanceStatusBySale(saleId, Some(sale), acceptances);
      r.Some? && !r.value.allSellersAccepted && !r.value.bothAccepted
  {
  }

  /** A seller's newest acceptance decides: once a seller records an
      acceptance of the sale later than all its others, its status is
      that acceptance. */
  lemma {:induction false} LatestSellerAcceptanceWins(acceptances: seq<Acceptance>, a: Acceptance, saleId: string)
    requires a.saleId == Some(saleId) && a.role == SellerRole
    requires forall k :: 0 <= k < |acceptances| ==> acceptances[k].acceptedAt < a.acceptedAt
    ensures SellerStatusOf(acceptances + [a], saleId, a.userId).found == Some(a)
    ensures SellerStatusOf(acceptances + [a], saleId, a.userId).Accepted() == a.accepted
  {
    NewestAppend(acceptances, a, (x: Acceptance) => IsSellerAcceptance(x, saleId, a.userId), AcceptedAt);
  }

  /** ... and an acceptance of one seller leaves every other seller's status alone. */
  lemma {:induction false} OtherSellerUnchanged(acceptances: seq<Acceptance>, a: Acceptance, saleId: string, other: string)
    requires other != a.userId
    ensures SellerStatusOf(acceptances + [a], saleId, other) == SellerStatusOf(acceptances, saleId, other)
  {
    NewestAppendOther(acceptances, a, (x: Acceptance) => IsSellerAcceptance(x, saleId, other), AcceptedAt);
  }

  /* ---------------- the resolved contract ---------------- */

  datatype Resolved = Resolved(saleId: string, contractId: string, kind: ContractKind, version: string,
                               sha256Hash: string, createdAt: int, contentResolved: string,
                               sellersInSale: seq<string>)

  /** `getResolvedContractForSale`: the newest contract of the given kind,
      or of the automatically picked one, with its placeholders resolved
      against the sale context. The context's object form is `toJs`. */
  function ResolvedContractForSale(saleId: string, sale: Option<Sale>, kind: Option<ContractKind>,
                                   prefer: Option<string>, contracts: seq<Contract>,
                                   toJs: SaleContext -> ContractTemplate.JsValue,
                                   json: ContractTemplate.JsValue -> string): (r: Result<Resolved, string>)
    ensures sale.None? <==> r == Err("SALE_NOT_FOUND")
    ensures r.Ok? ==> LatestContract(contracts, Some(r.value.kind)).Some?
                      && r.value.contractId == LatestContract(contracts, Some(r.value.kind)).value.id
    ensures r.Ok? && kind.Some? ==> r.value.kind == kind.value
    ensures r.Ok? && kind.None? ==> Ok(r.value.kind) == PickDefaultSaleContractKind(sale)
    ensures r.Ok? ==> r.value.sellersInSale == SellersOf(sale)
  {
    var ctx := GetSaleContext(sale, prefer);
    var kindToUse := if kind.Some? then Ok(kind.value) else PickDefaultSaleContractKind(sale);
    if ctx.Err? then Err(ctx.error)
    else if kindToUse.Err? then Err(kindToUse.error)
    else if ctx.value.None? then Err("SALE_NOT_FOUND")
    else
      var latest := LatestContract(contracts, Some(kindToUse.value));
      if latest.None? then Err("CONTRACT_NOT_FOUND")
      else
        var c := latest.value;
        var content := ContractTemplate.ResolveContent(c.content, toJs(ctx.value.value), json);
        Ok(Resolved(saleId, c.id, c.kind, c.version, c.sha256Hash, c.createdAt, content, ctx.value.value.sellers))
  }

  /** The three ways the resolution fails, and only these. */
  lemma {:induction false} ResolvedErrors(saleId: string, sale: Option<Sale>, kind: Option<ContractKind>, prefer: Option<string>,
                       contracts: seq<Contract>, toJs: SaleContext -> ContractTemplate.JsValue,
                       json: ContractTemplate.JsValue -> string)
    ensures var r := ResolvedContractForSale(saleId, sale, kind, prefer, contracts, toJs, json);
      r.Err? ==> r.error in {"SALE_NOT_FOUND", "MULTIPLE_SELLERS_REQUIRE_ID", "CONTRACT_NOT_FOUND"}
    ensures var r := ResolvedContractForSale(saleId, sale, kind, prefer, contracts, toJs, json);
      r == Err("MULTIPLE_SELLERS_REQUIRE_ID") <==>
        sale.Some? && !Named(prefer, sale.value.legacySeller) && |SellersOf(sale)| > 1
  {
  }
}
