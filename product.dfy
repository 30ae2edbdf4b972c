/** The product rules of `ProductService`: the defaults of a new product and,
    on update, the merge of kept and uploaded images, the write of the
    defined fields and the replacement of the product's selling units. */
module ProductService {
  import opened Wrappers
  import opened Text
  import JsNumber
  import CT = ContractTemplate
  import SU = SellingUnitProductService

  const NotFound := "Produto não encontrado"
  const InvalidUnits := "Unidades de venda inválidas. Cada unidade deve ter unitId e minPrice válidos."
  /** The Prisma code of an insert naming a selling unit that does not exist. */
  const UnknownUnit := "P2003"

  datatype Product = Product(
    id: string,
    sellerId: string,
    name: string,
    category: string,
    variety: string,
    stock: int,
    description: string,
    images: seq<string>,
    harvestAt: int,
    productRating: real,
    amountSold: int,
    isNegotiable: bool,
    ratingAmount: int,
    ratingStarAmount: seq<int>,
    createdAt: int,
    status: bool)

  /** The body of `create`, with its numeric fields already parsed; an
      absent optional field is `None`, and the two flags are raw values. */
  datatype NewProduct = NewProduct(
    sellerId: string,
    name: string,
    category: string,
    variety: string,
    stock: int,
    description: string,
    harvestAt: int,
    productRating: Option<real>,
    amountSold: Option<int>,
    isNegotiable: CT.JsValue,
    ratingAmount: Option<int>,
    ratingStarAmount: Option<seq<int>>,
    status: CT.JsValue)

  /** One selling unit sent to `update`: `unitId` or `id` names the unit,
      `minPrice` or `price` its price. */
  datatype UnitInput = UnitInput(unitId: Option<string>, id: Option<string>, minPrice: CT.JsValue, price: CT.JsValue)

  /** The body of `update`: `None` or `Undefined` is an absent field;
      `sellingUnits` is `None` unless an array was sent. */
  datatype Patch = Patch(
    name: Option<string>,
    category: Option<string>,
    variety: Option<string>,
    stock: Option<int>,
    description: Option<string>,
    harvestAt: Option<int>,
    productRating: Option<real>,
    amountSold: Option<int>,
    ratingAmount: Option<int>,
    ratingStarAmount: Option<seq<int>>,
    isNegotiable: CT.JsValue,
    status: CT.JsValue,
    existingImages: CT.JsValue,
    sellingUnits: Option<seq<UnitInput>>)

  /** What `update` returns, with the stored images it drops (whose storage
      objects it deletes). */
  datatype Updated = Updated(product: Product, removedImages: seq<string>)

  /** `v === true || v === "true"`. */
  predicate TrueLike(v: CT.JsValue) {
    v == CT.Bool(true) || v == CT.Str("true")
  }

  function Else<T>(o: Option<T>, d: T): T {
    if o.Some? then o.value else d
  }

  /* ---------------- create ---------------- */

  /** The row `create` writes: the uploaded images, zero ratings and sales
      unless given, negotiable only when sent as `true` or `"true"`, and
      active unless a status is sent that is neither. */
  function NewRow(data: NewProduct, images: seq<string>, id: string, now: int): (r: Product)
    ensures r.id == id && r.sellerId == data.sellerId && r.images == images && r.createdAt == now
    ensures r.isNegotiable <==> data.isNegotiable == CT.Bool(true) || data.isNegotiable == CT.Str("true")
    ensures r.status <==> data.status.Undefined? || data.status == CT.Bool(true) || data.status == CT.Str("true")
    ensures data.productRating.None? ==> r.productRating == 0.0
    ensures data.amountSold.None? ==> r.amountSold == 0
    ensures data.ratingAmount.None? ==> r.ratingAmount == 0
    ensures data.ratingStarAmount.None? ==> r.ratingStarAmount == []
  {
    Product(id, data.sellerId, data.name, data.category, data.variety, data.stock, data.description, images,
      data.harvestAt, Else(data.productRating, 0.0), Else(data.amountSold, 0), TrueLike(data.isNegotiable),
      Else(data.ratingAmount, 0), Else(data.ratingStarAmount, []), now,
      if data.status.Undefined? then true else TrueLike(data.status))
  }

  /* ---------------- the image lists ---------------- */

  /** The client's `existingImages` when it is an array: its string entries
      that are not blank once trimmed, in order. */
  function ClientImages(v: CT.JsValue): seq<string> {
    if v.Arr? then NonBlankStrings(v.elems, Trim) else []
  }

  /** The string entries whose `key` is not empty, in order. */
  function NonBlankStrings(es: seq<CT.JsValue>, key: string -> string): seq<string> {
    if es == [] then []
    else
      var e := es[|es| - 1];
      NonBlankStrings(es[..|es| - 1], key) + (if e.Str? && key(e.s) != [] then [e.s] else [])
  }

  lemma {:induction false} NonBlankStringsMember(es: seq<CT.JsValue>, key: string -> string, u: string)
    ensures u in NonBlankStrings(es, key) <==> CT.Str(u) in es && key(u) != []
  {
    if es != [] {
      var init, e := es[..|es| - 1], es[|es| - 1];
      NonBlankStringsMember(init, key, u);
      assert es == init + [e];
    }
  }

  /** The images `update` keeps: the client's list when it has an entry,
      the stored list otherwise. */
  function KeptImages(stored: seq<string>, existing: CT.JsValue): (r: seq<string>)
    ensures forall u :: u in r <==>
      if ClientImages(existing) != [] then CT.Str(u) in existing.elems && Trim(u) != [] else u in stored
  {
    var client := ClientImages(existing);
    forall u ensures u in client <==> existing.Arr? && CT.Str(u) in existing.elems && Trim(u) != [] {
      if existing.Arr? { NonBlankStringsMember(existing.elems, Trim, u); }
    }
    if client != [] then client else stored
  }

  /** The stored images that are not kept, in stored order. */
  function RemovedImages(stored: seq<string>, kept: seq<string>): (r: seq<string>)
    ensures |r| <= |stored|
  {
    if stored == [] then []
    else
      var u := stored[|stored| - 1];
      RemovedImages(stored[..|stored| - 1], kept) + (if u !in kept then [u] else [])
  }

  /** An image is removed exactly when it was stored and is not kept. */
  lemma {:induction false} RemovedImagesMember(stored: seq<string>, kept: seq<string>, u: string)
    ensures u in RemovedImages(stored, kept) <==> u in stored && u !in kept
  {
    if stored != [] {
      var init := stored[..|stored| - 1];
      RemovedImagesMember(init, kept, u);
      assert stored == init + [stored[|stored| - 1]];
    }
  }

  /** Without a client list nothing is removed. */
  lemma {:induction false} NothingRemovedWithoutClientList(stored: seq<string>, existing: CT.JsValue)
    requires ClientImages(existing) == []
    ensures RemovedImages(stored, KeptImages(stored, existing)) == []
  {
    var r := RemovedImages(stored, KeptImages(stored, existing));
    if r != [] {
      RemovedImagesMember(stored, KeptImages(stored, existing), r[0]);
    }
  }

  /** The keys of a list of images. */
  function KeysOf(urls: seq<string>, key: string -> string): set<string> {
    set u | u in urls :: key(u)
  }

  /** The reference for the final image list: each image whose key is not
      empty and was not met before, in order. `update` keys images by their
      trimmed text (`Deduped(urls, Trim)`). */
  function Deduped(urls: seq<string>, key: string -> string): (r: seq<string>)
    ensures |r| <= |urls|
  {
    if urls == [] then []
    else
      var r := Deduped(urls[..|urls| - 1], key);
      var u := urls[|urls| - 1];
      r + (if key(u) != [] && key(u) !in KeysOf(r, key) then [u] else [])
  }

  /** Every final image is an input image with a non-empty key. */
  lemma {:induction false} DedupedMembers(urls: seq<string>, key: string -> string)
    ensures forall x :: x in Deduped(urls, key) ==> x in urls && key(x) != []
  {
    if urls != [] {
      var init := urls[..|urls| - 1];
      DedupedMembers(init, key);
      assert forall x :: x in init ==> x in urls;
    }
  }

  /** No two images of the list share a key. */
  predicate DistinctKeys(urls: seq<string>, key: string -> string) {
    forall i, j :: 0 <= i < j < |urls| ==> key(urls[i]) != key(urls[j])
  }

  /** No two final images share a key. */
  lemma {:induction false} DedupedDistinct(urls: seq<string>, key: string -> string)
    ensures DistinctKeys(Deduped(urls, key), key)
  {
    if urls != [] {
      var init := urls[..|urls| - 1];
      DedupedDistinct(init, key);
      var r0, r, u := Deduped(init, key), Deduped(urls, key), urls[|urls| - 1];
      if key(u) != [] && key(u) !in KeysOf(r0, key) {
        assert r == r0 + [u];
        forall i, j | 0 <= i < j < |r| ensures key(r[i]) != key(r[j]) {
          if j == |r0| {
            assert r[i] == r0[i] && r0[i] in r0;
            assert key(r0[i]) in KeysOf(r0, key);
          } else {
            assert r[i] == r0[i] && r[j] == r0[j];
          }
        }
      } else {
        assert r == r0;
      }
    }
  }

  /** Every input image with a non-empty key is represented by a final image
      with that key. */
  lemma {:induction false} DedupedCovers(urls: seq<string>, key: string -> string)
    ensures forall u :: u in urls && key(u) != [] ==> key(u) in KeysOf(Deduped(urls, key), key)
  {
    if urls != [] {
      var init := urls[..|urls| - 1];
      DedupedCovers(init, key);
      var r0 := Deduped(init, key);
      assert KeysOf(r0, key) <= KeysOf(Deduped(urls, key), key);
      forall u | u in urls && key(u) != [] ensures key(u) in KeysOf(Deduped(urls, key), key) {
        if u !in init {
          assert u == urls[|urls| - 1];
        }
      }
    }
  }

  /** Each final image is the first input image with its key. */
  lemma {:induction false} DedupedFirst(urls: seq<string>, key: string -> string)
    ensures forall x :: x in Deduped(urls, key) ==>
      exists i :: 0 <= i < |urls| && urls[i] == x && forall k :: 0 <= k < i ==> key(urls[k]) != key(x)
  {
    if urls != [] {
      var init, last := urls[..|urls| - 1], urls[|urls| - 1];
      DedupedFirst(init, key);
      var r0 := Deduped(init, key);
      forall x | x in Deduped(urls, key)
        ensures exists i :: 0 <= i < |urls| && urls[i] == x && forall k :: 0 <= k < i ==> key(urls[k]) != key(x)
      {
        if x in r0 {
          var i :| 0 <= i < |init| && init[i] == x && forall k :: 0 <= k < i ==> key(init[k]) != key(x);
          assert urls[i] == x && forall k :: 0 <= k < i ==> urls[k] == init[k];
        } else {
          assert x == last && key(last) != [] && key(last) !in KeysOf(r0, key);
          DedupedCovers(init, key);
          forall k | 0 <= k < |init| ensures key(urls[k]) != key(x) {
            assert urls[k] == init[k] && init[k] in init;
          }
          assert urls[|init|] == x;
        }
      }
    }
  }

  /** Appending images never reorders or drops the images already merged:
      the final list of a prefix is a prefix of the final list. */
  lemma {:induction false} DedupedPrefix(a: seq<string>, b: seq<string>, key: string -> string)
    ensures |Deduped(a, key)| <= |Deduped(a + b, key)| && Deduped(a + b, key)[..|Deduped(a, key)|] == Deduped(a, key)
  {
    if b == [] {
      assert a + b == a;
    } else {
      var init := b[..|b| - 1];
      DedupedPrefix(a, init, key);
      assert (a + b)[..|a + b| - 1] == a + init;
      var r0 := Deduped(a + init, key);
      assert Deduped(a + b, key)[..|r0|] == r0;
      PrefixTrans(Deduped(a, key), r0, Deduped(a + b, key));
    }
  }

  /** A list that already has distinct non-empty keys is its own final list. */
  lemma {:induction false} DedupedIdempotent(urls: seq<string>, key: string -> string)
    requires forall i :: 0 <= i < |urls| ==> key(urls[i]) != []
    requires DistinctKeys(urls, key)
    ensures Deduped(urls, key) == urls
  {
    if urls != [] {
      var init, last := urls[..|urls| - 1], urls[|urls| - 1];
      DedupedIdempotent(init, key);
      LastKeyFresh(urls, key);
      InitLast(urls);
    }
  }

  /** With distinct keys, the last key is not among the earlier ones. */
  lemma {:induction false} LastKeyFresh(urls: seq<string>, key: string -> string)
    requires urls != [] && DistinctKeys(urls, key)
    ensures key(urls[|urls| - 1]) !in KeysOf(urls[..|urls| - 1], key)
  {
    var init, last := urls[..|urls| - 1], urls[|urls| - 1];
    forall u | u in init ensures key(u) != key(last) {
      var i :| 0 <= i < |init| && init[i] == u;
      assert urls[i] == u;
    }
  }

  /** Keys of a list with one more image. */
  lemma {:induction false} KeysOfSnoc(urls: seq<string>, u: string, key: string -> string)
    ensures KeysOf(urls + [u], key) == KeysOf(urls, key) + {key(u)}
  {
    var l, r := KeysOf(urls + [u], key), KeysOf(urls, key) + {key(u)};
    forall x | x in l ensures x in r {
      var v :| v in urls + [u] && key(v) == x;
      if v != u {
        assert v in urls;
      }
    }
    forall x | x in r ensures x in l {
      if x != key(u) {
        var v :| v in urls && key(v) == x;
        assert v in urls + [u];
      } else {
        assert u in urls + [u];
      }
    }
  }

  /** One more input image: it is appended when its key is non-empty and new. */
  lemma {:induction false} DedupedStep(urls: seq<string>, i: nat, key: string -> string)
    requires i < |urls|
    ensures Deduped(urls[..i + 1], key) == Deduped(urls[..i], key)
      + (if key(urls[i]) != [] && key(urls[i]) !in KeysOf(Deduped(urls[..i], key), key) then [urls[i]] else [])
  {
    assert urls[..i + 1][..i] == urls[..i];
    assert urls[..i + 1][i] == urls[i];
  }

  /** The final image list of `update`: only kept or uploaded images with a
      non-blank trimmed text, no two with the same trimmed text, every
      non-blank input represented, and the kept images' merge first. */
  lemma {:induction false} FinalImages(kept: seq<string>, uploaded: seq<string>)
    ensures var f := Deduped(kept + uploaded, Trim);
      (forall x :: x in f ==> x in kept + uploaded && Trim(x) != [])
      && DistinctKeys(f, Trim)
      && (forall u :: u in kept + uploaded && Trim(u) != [] ==> Trim(u) in KeysOf(f, Trim))
      && |Deduped(kept, Trim)| <= |f| && f[..|Deduped(kept, Trim)|] == Deduped(kept, Trim)
  {
    DedupedMembers(kept + uploaded, Trim);
    DedupedDistinct(kept + uploaded, Trim);
    DedupedCovers(kept + uploaded, Trim);
    DedupedPrefix(kept, uploaded, Trim);
  }

  /** The `filter` with its `seen` set that builds the final image list from
      the kept and the uploaded images; `update` keys them with `Trim`. */
  method MergeImages(kept: seq<string>, uploaded: seq<string>, key: string -> string) returns (images: seq<string>)
    ensures images == Deduped(kept + uploaded, key)
  {
    var urls := kept + uploaded;
    var seen: set<string> := {};
    images := [];
    var i := 0;
    while i < |urls|
      invariant 0 <= i <= |urls|
      invariant images == Deduped(urls[..i], key)
      invariant seen == KeysOf(images, key)
    {
      var k := key(urls[i]);
      DedupedStep(urls, i, key);
      if k != [] && k !in seen {
        seen := seen + {k};
        KeysOfSnoc(images, urls[i], key);
        images := images + [urls[i]];
      }
      i := i + 1;
    }
    assert urls[..|urls|] == urls;
  }

  /* ---------------- the fields ---------------- */

  /** The product `update` writes: the merged images, every defined field,
      and the two flags true only when sent as `true` or `"true"`; the id,
      the seller and the creation date never change. */
  function Patched(p: Product, patch: Patch, images: seq<string>): (r: Product)
    ensures r.id == p.id && r.sellerId == p.sellerId && r.createdAt == p.createdAt && r.images == images
    ensures r.name == Else(patch.name, p.name) && r.category == Else(patch.category, p.category)
    ensures r.variety == Else(patch.variety, p.variety) && r.stock == Else(patch.stock, p.stock)
    ensures r.description == Else(patch.description, p.description) && r.harvestAt == Else(patch.harvestAt, p.harvestAt)
    ensures r.productRating == Else(patch.productRating, p.productRating)
    ensures r.amountSold == Else(patch.amountSold, p.amountSold) && r.ratingAmount == Else(patch.ratingAmount, p.ratingAmount)
    ensures r.ratingStarAmount == Else(patch.ratingStarAmount, p.ratingStarAmount)
    ensures patch.isNegotiable.Undefined? ==> r.isNegotiable == p.isNegotiable
    ensures !patch.isNegotiable.Undefined? ==>
      (r.isNegotiable <==> patch.isNegotiable == CT.Bool(true) || patch.isNegotiable == CT.Str("true"))
    ensures patch.status.Undefined? ==> r.status == p.status
    ensures !patch.status.Undefined? ==> (r.status <==> patch.status == CT.Bool(true) || patch.status == CT.Str("true"))
  {
    p.(name := Else(patch.name, p.name),
       category := Else(patch.category, p.category),
       variety := Else(patch.variety, p.variety),
       stock := Else(patch.stock, p.stock),
       description := Else(patch.description, p.description),
       images := images,
       harvestAt := Else(patch.harvestAt, p.harvestAt),
       productRating := Else(patch.productRating, p.productRating),
       amountSold := Else(patch.amountSold, p.amountSold),
       ratingAmount := Else(patch.ratingAmount, p.ratingAmount),
       ratingStarAmount := Else(patch.ratingStarAmount, p.ratingStarAmount),
       isNegotiable := if patch.isNegotiable.Undefined? then p.isNegotiable else TrueLike(patch.isNegotiable),
       status := if patch.status.Undefined? then p.status else TrueLike(patch.status))
  }

  /** An update that sends nothing keeps every field and rewrites only the
      image list, with the stored images merged. */
  lemma {:induction false} EmptyPatchKeepsFields(p: Product, units: Option<seq<UnitInput>>)
    ensures var patch := Patch(None, None, None, None, None, None, None, None, None, None,
                               CT.Undefined, CT.Undefined, CT.Undefined, units);
      Patched(p, patch, Deduped(KeptImages(p.images, patch.existingImages), Trim)) == p.(images := Deduped(p.images, Trim))
  {
  }

  /* ---------------- the selling units ---------------- */

  /** `unit.unitId ?? unit.id`. */
  function UnitIdOf(u: UnitInput): Option<string> {
    if u.unitId.Some? then u.unitId else u.id
  }

  /** `parseFloat` of `minPrice`, else of `price`, else NaN. */
  function MinPriceOf(u: UnitInput): JsNumber.Number {
    if !u.minPrice.Undefined? then JsNumber.ParseFloat(CT.ToStr(u.minPrice))
    else if !u.price.Undefined? then JsNumber.ParseFloat(CT.ToStr(u.price))
    else JsNumber.NaN
  }

  /** A unit is accepted when it names a unit and its price parses. */
  predicate ValidUnit(u: UnitInput) {
    UnitIdOf(u).Some? && UnitIdOf(u).value != "" && MinPriceOf(u).Num?
  }

  /** One step of the `map` over the sent units: the (unit, price) pair of
      an accepted unit, nothing for a rejected one. */
  function Process(u: UnitInput): (r: Option<(string, real)>)
    ensures r.Some? <==> ValidUnit(u)
    ensures r.Some? ==> r.value == (UnitIdOf(u).value, MinPriceOf(u).v)
  {
    if ValidUnit(u) then Some((UnitIdOf(u).value, MinPriceOf(u).v)) else None
  }

  /** The `map` over the sent units: the (unit, price) pairs when every unit
      is accepted, nothing when any is not (the first rejected one throws). */
  function ProcessUnits(us: seq<UnitInput>): (r: Option<seq<(string, real)>>)
    ensures r.Some? <==> forall i :: 0 <= i < |us| ==> ValidUnit(us[i])
    ensures r.Some? ==> |r.value| == |us|
    ensures r.Some? ==> forall i :: 0 <= i < |us| ==> r.value[i] == (UnitIdOf(us[i]).value, MinPriceOf(us[i]).v)
  {
    var ps := MapSeq(us, Process);
    assert forall i :: 0 <= i < |us| ==> ps[i] == Process(us[i]);
    AllSome(ps)
  }

  /** Every sent unit names a row of the selling-unit table, as the foreign
      key of `createMany` demands. */
  predicate KnownUnits(sent: seq<(string, real)>, unitIds: set<string>) {
    forall i :: 0 <= i < |sent| ==> sent[i].0 in unitIds
  }

  /** The rows `createMany` inserts for the product. */
  function NewUnitRows(productId: string, units: seq<(string, real)>, ids: seq<string>): (r: seq<SU.UnitProduct>)
    requires |ids| == |units|
    ensures |r| == |units|
    ensures forall i :: 0 <= i < |r| ==> r[i] == SU.UnitProduct(ids[i], productId, units[i].0, units[i].1)
  {
    seq(|units|, i requires 0 <= i < |units| => SU.UnitProduct(ids[i], productId, units[i].0, units[i].1))
  }

  /** After the replacement the product's units are exactly the new rows,
      and the other products' units are untouched. */
  lemma {:induction false} ReplacedUnits(units: seq<SU.UnitProduct>, productId: string, rows: seq<SU.UnitProduct>)
    requires forall i :: 0 <= i < |rows| ==> rows[i].productId == productId
    ensures SU.OfProduct(SU.OtherProducts(units, productId) + rows, productId) == rows
    ensures SU.OtherProducts(SU.OtherProducts(units, productId) + rows, productId) == SU.OtherProducts(units, productId)
  {
    var rest := SU.OtherProducts(units, productId);
    SU.FiltersAppend(rest, rows, productId);
    SU.OtherProductsIdempotent(units, productId);
    SU.FiltersOfOneProduct(rows, productId);
  }

  /* ---------------- the service ---------------- */

  predicate IdsDistinct(products: seq<Product>) {
    forall i, j :: 0 <= i < j < |products| ==> products[i].id != products[j].id
  }

  /** Rewriting a product in place under its own id keeps the ids distinct. */
  lemma {:induction false} SameIdKeepsDistinct(products: seq<Product>, k: nat, q: Product)
    requires IdsDistinct(products) && k < |products| && q.id == products[k].id
    ensures IdsDistinct(products[k := q])
  {
  }

  predicate IsProductId(products: seq<Product>, id: string) {
    exists i :: 0 <= i < |products| && products[i].id == id
  }

  /** `product.findUnique({ where: { id } })`. */
  function ProductIndex(products: seq<Product>, id: string): (r: Option<nat>)
    ensures r.Some? ==> r.value < |products| && products[r.value].id == id
    ensures r.None? <==> !IsProductId(products, id)
  {
    if products == [] then None
    else if products[0].id == id then Some(0)
    else
      var r := ProductIndex(products[1..], id);
      assert forall k :: 1 <= k < |products| ==> products[k] == products[1..][k - 1];
      if r.None? then None else Some(r.value + 1)
  }

  class ProductStore {
    var products: seq<Product>
    var units: seq<SU.UnitProduct>

    ghost predicate Valid()
      reads this
    {
      IdsDistinct(products)
    }

    constructor ()
      ensures products == [] && units == [] && Valid()
    {
      products := [];
      units := [];
    }

    /** `create`: the new row with its defaults is appended. */
    method Create(data: NewProduct, uploaded: seq<string>, newId: string, now: int) returns (p: Product)
      requires Valid() && !IsProductId(products, newId)
      modifies this`products
      ensures Valid()
      ensures p == NewRow(data, uploaded, newId, now) && products == old(products) + [p]
    {
      p := NewRow(data, uploaded, newId, now);
      products := products + [p];
    }

    /** `update`: an unknown id fails first. Otherwise the product is written
      with its merged images and defined fields BEFORE the sent units are
      checked, so a rejected unit leaves the product written and its units
      as they were. Accepted units replace all of the product's units: the
      old rows are deleted first, so when a sent unit is not in the
      selling-unit table (`unitIds`) the insert fails and the product is left
      with no units at all. */
    method Update(id: string, patch: Patch, uploaded: seq<string>, newIds: seq<string>, unitIds: set<string>)
      returns (r: Result<Updated, string>)
      requires Valid()
      requires patch.sellingUnits.Some? ==> |newIds| == |patch.sellingUnits.value|
      modifies this
      ensures Valid()
      ensures var k := ProductIndex(old(products), id);
        k.None? ==> r == Err(NotFound) && products == old(products) && units == old(units)
      ensures var k := ProductIndex(old(products), id);
        k.Some? ==>
          var p := old(products)[k.value];
          var kept := KeptImages(p.images, patch.existingImages);
          var q := Patched(p, patch, Deduped(kept + uploaded, Trim));
          var done := Updated(q, RemovedImages(p.images, kept));
          products == old(products)[k.value := q]
          && (patch.sellingUnits.None? ==> r == Ok(done) && units == old(units))
          && (patch.sellingUnits.Some? && ProcessUnits(patch.sellingUnits.value).None? ==>
                r == Err(InvalidUnits) && units == old(units))
          && (patch.sellingUnits.Some? && ProcessUnits(patch.sellingUnits.value).Some? ==>
                var sent := ProcessUnits(patch.sellingUnits.value).value;
                if KnownUnits(sent, unitIds) then
                  r == Ok(done) && units == SU.OtherProducts(old(units), id) + NewUnitRows(id, sent, newIds)
                else
                  r == Err(UnknownUnit) && units == SU.OtherProducts(old(units), id))
    {
      var k := ProductIndex(products, id);
      if k.None? {
        return Err(NotFound);
      }
      var p := products[k.value];
      var kept := KeptImages(p.images, patch.existingImages);
      var removed := RemovedImages(p.images, kept);
      var images := MergeImages(kept, uploaded, Trim);
      var q := Patched(p, patch, images);
      SameIdKeepsDistinct(products, k.value, q);
      products := products[k.value := q];
      if patch.sellingUnits.None? {
        return Ok(Updated(q, removed));
      }
      var processed := ProcessUnits(patch.sellingUnits.value);
      if processed.None? {
        return Err(InvalidUnits);
      }
      units := SU.OtherProducts(units, id);
      if |processed.value| > 0 {
        if !KnownUnits(processed.value, unitIds) {
          return Err(UnknownUnit);
        }
        units := units + NewUnitRows(id, processed.value, newIds);
      } else {
        assert NewUnitRows(id, processed.value, newIds) == [];
        assert units == units + [];
      }
      r := Ok(Updated(q, removed));
    }
  }

  /** After a successful update with units, the product's units are exactly
      the sent ones, in order, and every other product's units are kept. */
  lemma {:induction false} UpdateReplacesUnits(units: seq<SU.UnitProduct>, id: string, sent: seq<UnitInput>, newIds: seq<string>)
    requires |newIds| == |sent| && ProcessUnits(sent).Some?
    ensures var after := SU.OtherProducts(units, id) + NewUnitRows(id, ProcessUnits(sent).value, newIds);
      |SU.OfProduct(after, id)| == |sent|
      && (forall i :: 0 <= i < |sent| ==>
            SU.OfProduct(after, id)[i].unitId == UnitIdOf(sent[i]).value
            && SU.OfProduct(after, id)[i].minPrice == MinPriceOf(sent[i]).v)
      && SU.OtherProducts(after, id) == SU.OtherProducts(units, id)
  {
    ReplacedUnits(units, id, NewUnitRows(id, ProcessUnits(sent).value, newIds));
  }

  /** `update` does not check the sent units against each other: a unit sent
      twice gives the product two rows for the same unit. */
  lemma {:induction false} RepeatedUnitRepeatsPair(units: seq<SU.UnitProduct>, id: string, sent: seq<(string, real)>,
                                                   newIds: seq<string>, i: nat, j: nat)
    requires |newIds| == |sent|
    requires i < j < |sent| && sent[i].0 == sent[j].0
    ensures !SU.Unique(SU.OtherProducts(units, id) + NewUnitRows(id, sent, newIds))
  {
    var rows := NewUnitRows(id, sent, newIds);
    AppendedPairRepeats(SU.OtherProducts(units, id), rows, i, j);
  }

  lemma {:induction false} AppendedPairRepeats(rest: seq<SU.UnitProduct>, rows: seq<SU.UnitProduct>, i: nat, j: nat)
    requires i < j < |rows|
    requires rows[i].productId == rows[j].productId && rows[i].unitId == rows[j].unitId
    ensures !SU.Unique(rest + rows)
  {
    var after := rest + rows;
    assert after[|rest| + i] == rows[i] && after[|rest| + j] == rows[j];
  }
}
