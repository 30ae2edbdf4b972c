/** The selling units of a product (`SellingUnitProductService`): each row
    offers one product in one selling unit at a minimum price. The service
    keeps the (product, unit) pair unique and refuses to delete rows that
    purchases or cart items still point to. */
module SellingUnitProductService {
  import opened Wrappers

  datatype UnitProduct = UnitProduct(id: string, productId: string, unitId: string, minPrice: real)

  /** What the service reads of the other tables: the product ids, the
      selling-unit ids, and the ids of the rows that bought products and
      cart items point to. */
  datatype Tables = Tables(products: set<string>, units: set<string>, bought: set<string>, inCart: set<string>)

  /** `UpdateSellingUnitProductDto`: both fields optional. */
  datatype Change = Change(unitId: Option<string>, minPrice: Option<real>)

  function ProductNotFound(id: string): string {
    "Produto com ID " + id + " não encontrado"
  }

  function UnitNotFound(id: string): string {
    "Unidade de venda com ID " + id + " não encontrada"
  }

  function PairTaken(unitId: string, productId: string): string {
    "Já existe uma unidade de venda com ID " + unitId + " para o produto " + productId
  }

  function PairTakenHere(unitId: string): string {
    "Já existe uma unidade de venda com ID " + unitId + " para este produto"
  }

  function RowNotFound(id: string): string {
    "Unidade de venda do produto com ID " + id + " não encontrada"
  }

  const HasPurchases := "Não é possível deletar esta unidade de venda pois existem produtos comprados relacionados"
  const HasCartItems := "Não é possível deletar esta unidade de venda pois existem itens no carrinho relacionados"
  const HasRelated := "Não é possível deletar as unidades de venda pois existem registros relacionados"

  /* ---------------- the table ---------------- */

  /** Row ids are distinct and no product has the same unit twice. */
  predicate Unique(rows: seq<UnitProduct>) {
    forall i, j :: 0 <= i < j < |rows| ==>
      rows[i].id != rows[j].id && (rows[i].productId, rows[i].unitId) != (rows[j].productId, rows[j].unitId)
  }

  predicate IsRowId(rows: seq<UnitProduct>, id: string) {
    exists i :: 0 <= i < |rows| && rows[i].id == id
  }

  /** Some row other than `id` offers `productId` in `unitId`
      (`findFirst` on the pair, with `id: { not: id }` when updating). */
  predicate PairUsed(rows: seq<UnitProduct>, productId: string, unitId: string, except: Option<string>) {
    exists i :: 0 <= i < |rows| && rows[i].productId == productId && rows[i].unitId == unitId
      && (except.Some? ==> rows[i].id != except.value)
  }

  /** A row is referenced by a purchase or a cart item. */
  predicate Referenced(t: Tables, row: UnitProduct) {
    row.id in t.bought || row.id in t.inCart
  }

  /** `findUnique({ where: { id } })`. */
  function RowIndex(rows: seq<UnitProduct>, id: string): (r: Option<nat>)
    ensures r.Some? ==> r.value < |rows| && rows[r.value].id == id
    ensures r.None? <==> !IsRowId(rows, id)
  {
    if rows == [] then None
    else if rows[0].id == id then Some(0)
    else
      var r := RowIndex(rows[1..], id);
      assert forall k :: 1 <= k < |rows| ==> rows[k] == rows[1..][k - 1];
      if r.None? then None else Some(r.value + 1)
  }

  /** The rows of one product, in table order (`getByProductId` without its
      ordering by unit title). */
  function OfProduct(rows: seq<UnitProduct>, productId: string): (r: seq<UnitProduct>)
    ensures |r| <= |rows|
  {
    if rows == [] then []
    else OfProduct(rows[..|rows| - 1], productId) + (if rows[|rows| - 1].productId == productId then [rows[|rows| - 1]] else [])
  }

  /** `deleteMany({ where: { productId } })`: the rows of the other products,
      in table order. */
  function OtherProducts(rows: seq<UnitProduct>, productId: string): (r: seq<UnitProduct>)
    ensures |r| <= |rows|
  {
    if rows == [] then []
    else OtherProducts(rows[..|rows| - 1], productId) + (if rows[|rows| - 1].productId != productId then [rows[|rows| - 1]] else [])
  }

  /** A row is among the product's rows exactly when it is in the table with
      that product, and among the rest exactly when its product differs. */
  lemma {:induction false} FiltersMember(rows: seq<UnitProduct>, productId: string, x: UnitProduct)
    ensures x in OfProduct(rows, productId) <==> x in rows && x.productId == productId
    ensures x in OtherProducts(rows, productId) <==> x in rows && x.productId != productId
  {
    if rows != [] {
      var init := rows[..|rows| - 1];
      FiltersMember(init, productId, x);
      assert rows == init + [rows[|rows| - 1]];
    }
  }

  /** Deleting a product's rows keeps the table's uniqueness. */
  lemma {:induction false} OtherProductsUnique(rows: seq<UnitProduct>, productId: string)
    requires Unique(rows)
    ensures Unique(OtherProducts(rows, productId))
  {
    if rows != [] {
      var init, last := rows[..|rows| - 1], rows[|rows| - 1];
      assert Unique(init);
      OtherProductsUnique(init, productId);
      var r0 := OtherProducts(init, productId);
      if last.productId != productId {
        var r := r0 + [last];
        forall i, j | 0 <= i < j < |r|
          ensures r[i].id != r[j].id && (r[i].productId, r[i].unitId) != (r[j].productId, r[j].unitId)
        {
          if j == |r0| {
            FiltersMember(init, productId, r[i]);
            assert r[i] in init;
            var k :| 0 <= k < |init| && init[k] == r[i];
            assert rows[k] == r[i] && rows[|rows| - 1] == last;
          } else {
            assert r[i] == r0[i] && r[j] == r0[j];
          }
        }
      }
    }
  }

  /** Both filters distribute over concatenation. */
  lemma {:induction false} FiltersAppend(a: seq<UnitProduct>, b: seq<UnitProduct>, productId: string)
    ensures OfProduct(a + b, productId) == OfProduct(a, productId) + OfProduct(b, productId)
    ensures OtherProducts(a + b, productId) == OtherProducts(a, productId) + OtherProducts(b, productId)
  {
    OfProductAppend(a, b, productId);
    OtherProductsAppend(a, b, productId);
  }

  lemma {:induction false} OfProductAppend(a: seq<UnitProduct>, b: seq<UnitProduct>, productId: string)
    ensures OfProduct(a + b, productId) == OfProduct(a, productId) + OfProduct(b, productId)
  {
    if b == [] {
      assert a + b == a;
    } else {
      var init, last := b[..|b| - 1], b[|b| - 1];
      OfProductAppend(a, init, productId);
      AppendInitLast(a, b);
      var mine := if last.productId == productId then [last] else [];
      assert OfProduct(a + b, productId) == OfProduct(a + init, productId) + mine;
      SeqAssoc(OfProduct(a, productId), OfProduct(init, productId), mine);
    }
  }

  lemma {:induction false} OtherProductsAppend(a: seq<UnitProduct>, b: seq<UnitProduct>, productId: string)
    ensures OtherProducts(a + b, productId) == OtherProducts(a, productId) + OtherProducts(b, productId)
  {
    if b == [] {
      assert a + b == a;
    } else {
      var init, last := b[..|b| - 1], b[|b| - 1];
      OtherProductsAppend(a, init, productId);
      AppendInitLast(a, b);
      var rest := if last.productId != productId then [last] else [];
      assert OtherProducts(a + b, productId) == OtherProducts(a + init, productId) + rest;
      SeqAssoc(OtherProducts(a, productId), OtherProducts(init, productId), rest);
    }
  }

  /** Rows that all belong to the product are all of its rows and none of
      the others'. */
  lemma {:induction false} FiltersOfOneProduct(rows: seq<UnitProduct>, productId: string)
    requires forall i :: 0 <= i < |rows| ==> rows[i].productId == productId
    ensures OfProduct(rows, productId) == rows && OtherProducts(rows, productId) == []
  {
    if rows != [] {
      var init := rows[..|rows| - 1];
      FiltersOfOneProduct(init, productId);
      assert OfProduct(rows, productId) == init + [rows[|rows| - 1]];
    }
  }

  /** Rows none of which belongs to the product are all kept by the delete
      and none of them is the product's. */
  lemma {:induction false} FiltersOfOtherProducts(rows: seq<UnitProduct>, productId: string)
    requires forall i :: 0 <= i < |rows| ==> rows[i].productId != productId
    ensures OtherProducts(rows, productId) == rows && OfProduct(rows, productId) == []
  {
    if rows != [] {
      var init := rows[..|rows| - 1];
      FiltersOfOtherProducts(init, productId);
      assert OtherProducts(rows, productId) == init + [rows[|rows| - 1]];
    }
  }

  /** Deleting a product's rows twice deletes nothing more. */
  lemma {:induction false} OtherProductsIdempotent(rows: seq<UnitProduct>, productId: string)
    ensures OtherProducts(OtherProducts(rows, productId), productId) == OtherProducts(rows, productId)
    ensures OfProduct(OtherProducts(rows, productId), productId) == []
  {
    var r := OtherProducts(rows, productId);
    forall i | 0 <= i < |r| ensures r[i].productId != productId {
      FiltersMember(rows, productId, r[i]);
    }
    FiltersOfOtherProducts(r, productId);
  }

  /** Removing one row keeps the table's uniqueness. */
  lemma {:induction false} RemoveAtUnique(rows: seq<UnitProduct>, k: nat)
    requires k < |rows| && Unique(rows)
    ensures Unique(rows[..k] + rows[k + 1..])
  {
    var r := rows[..k] + rows[k + 1..];
    forall i, j | 0 <= i < j < |r|
      ensures r[i].id != r[j].id && (r[i].productId, r[i].unitId) != (r[j].productId, r[j].unitId)
    {
      var i' := if i < k then i else i + 1;
      var j' := if j < k then j else j + 1;
      assert r[i] == rows[i'] && r[j] == rows[j'];
    }
  }

  /* ---------------- the checks ---------------- */

  /** The first check `create` fails: the product exists, the unit exists,
      and the product does not already have that unit. */
  function CreateError(t: Tables, rows: seq<UnitProduct>, productId: string, unitId: string): (r: Option<string>)
    ensures r.None? <==> productId in t.products && unitId in t.units && !PairUsed(rows, productId, unitId, None)
    ensures productId !in t.products ==> r == Some(ProductNotFound(productId))
  {
    if productId !in t.products then Some(ProductNotFound(productId))
    else if unitId !in t.units then Some(UnitNotFound(unitId))
    else if PairUsed(rows, productId, unitId, None) then Some(PairTaken(unitId, productId))
    else None
  }

  /** `data.unitId` is truthy: given and not empty. */
  predicate Given(unitId: Option<string>) {
    unitId.Some? && unitId.value != ""
  }

  /** The first check `update` fails for the row at `k`: only a truthy unit
      that differs from the stored one is checked, against the unit table and
      against the product's other rows. */
  function UpdateError(t: Tables, rows: seq<UnitProduct>, k: nat, c: Change): (r: Option<string>)
    requires k < |rows|
    ensures r.None? <==>
      !Given(c.unitId) || c.unitId.value == rows[k].unitId
      || (c.unitId.value in t.units && !PairUsed(rows, rows[k].productId, c.unitId.value, Some(rows[k].id)))
  {
    var row := rows[k];
    if Given(c.unitId) && c.unitId.value != row.unitId then
      if c.unitId.value !in t.units then Some(UnitNotFound(c.unitId.value))
      else if PairUsed(rows, row.productId, c.unitId.value, Some(row.id)) then Some(PairTakenHere(c.unitId.value))
      else None
    else None
  }

  /** The row `update` writes: a truthy unit and a defined minimum price
      replace the stored ones; the id and the product never change. */
  function Changed(row: UnitProduct, c: Change): (r: UnitProduct)
    ensures r.id == row.id && r.productId == row.productId
    ensures r.unitId == (if Given(c.unitId) then c.unitId.value else row.unitId)
    ensures r.minPrice == (if c.minPrice.Some? then c.minPrice.value else row.minPrice)
  {
    row.(unitId := if Given(c.unitId) then c.unitId.value else row.unitId,
         minPrice := if c.minPrice.Some? then c.minPrice.value else row.minPrice)
  }

  /** An empty change leaves the row as it was. */
  lemma {:induction false} EmptyChangeKeepsRow(row: UnitProduct, u: Option<string>)
    requires !Given(u)
    ensures Changed(row, Change(u, None)) == row
  {
  }

  /** The guard loop of `deleteByProductId`: whether some row of the product
      is referenced by a purchase or a cart item. */
  method FindBlocked(t: Tables, rows: seq<UnitProduct>, productId: string) returns (blocked: bool)
    ensures blocked <==> exists x :: x in rows && x.productId == productId && Referenced(t, x)
  {
    var units := OfProduct(rows, productId);
    var i := 0;
    while i < |units|
      invariant 0 <= i <= |units|
      invariant forall k :: 0 <= k < i ==> !Referenced(t, units[k])
    {
      if units[i].id in t.bought || units[i].id in t.inCart {
        FiltersMember(rows, productId, units[i]);
        return true;
      }
      i := i + 1;
    }
    forall x | x in rows && x.productId == productId ensures !Referenced(t, x) {
      FiltersMember(rows, productId, x);
    }
    return false;
  }

  /** A second `create` of a pair that was just created is refused. */
  lemma {:induction false} CreateTwiceRefused(t: Tables, rows: seq<UnitProduct>, row: UnitProduct)
    requires CreateError(t, rows, row.productId, row.unitId).None?
    ensures CreateError(t, rows + [row], row.productId, row.unitId) == Some(PairTaken(row.unitId, row.productId))
  {
    var r := rows + [row];
    assert r[|rows|] == row;
  }

  /* ---------------- the service ---------------- */

  class UnitProductStore {
    var rows: seq<UnitProduct>

    ghost predicate Valid()
      reads this
    {
      Unique(rows)
    }

    constructor ()
      ensures rows == [] && Valid()
    {
      rows := [];
    }

    /** `create`: after the checks, a row for the pair is appended. */
    method Create(t: Tables, productId: string, unitId: string, minPrice: real, newId: string)
      returns (r: Result<UnitProduct, string>)
      requires Valid() && !IsRowId(rows, newId)
      modifies this
      ensures Valid()
      ensures var e := CreateError(t, old(rows), productId, unitId);
        if e.Some? then r == Err(e.value) && rows == old(rows)
        else r == Ok(UnitProduct(newId, productId, unitId, minPrice)) && rows == old(rows) + [r.value]
    {
      var e := CreateError(t, rows, productId, unitId);
      if e.Some? {
        return Err(e.value);
      }
      var row := UnitProduct(newId, productId, unitId, minPrice);
      ghost var before := rows;
      rows := rows + [row];
      forall i, j | 0 <= i < j < |rows|
        ensures rows[i].id != rows[j].id && (rows[i].productId, rows[i].unitId) != (rows[j].productId, rows[j].unitId)
      {
        if j == |before| {
          assert rows[i] == before[i];
        }
      }
      return Ok(row);
    }

    /** `update`: an unknown id, then the unit checks, then the row is
      rewritten in place. */
    method Update(t: Tables, id: string, c: Change) returns (r: Result<UnitProduct, string>)
      requires Valid()
      modifies this
      ensures Valid()
      ensures var k := RowIndex(old(rows), id);
        if k.None? then r == Err(RowNotFound(id)) && rows == old(rows)
        else if UpdateError(t, old(rows), k.value, c).Some? then
          r == Err(UpdateError(t, old(rows), k.value, c).value) && rows == old(rows)
        else r == Ok(Changed(old(rows)[k.value], c)) && rows == old(rows)[k.value := r.value]
    {
      var k := RowIndex(rows, id);
      if k.None? {
        return Err(RowNotFound(id));
      }
      var e := UpdateError(t, rows, k.value, c);
      if e.Some? {
        return Err(e.value);
      }
      var row := Changed(rows[k.value], c);
      ghost var before := rows;
      rows := rows[k.value := row];
      forall i, j | 0 <= i < j < |rows|
        ensures rows[i].id != rows[j].id && (rows[i].productId, rows[i].unitId) != (rows[j].productId, rows[j].unitId)
      {
        if i == k.value || j == k.value {
          var o := if i == k.value then j else i;
          assert rows[o] == before[o];
        }
      }
      return Ok(row);
    }

    /** `delete`: an unknown id, then the purchase and cart-item guards, then
      the row is removed. */
    method Delete(t: Tables, id: string) returns (r: Result<UnitProduct, string>)
      requires Valid()
      modifies this
      ensures Valid()
      ensures var k := RowIndex(old(rows), id);
        if k.None? then r == Err(RowNotFound(id)) && rows == old(rows)
        else if id in t.bought then r == Err(HasPurchases) && rows == old(rows)
        else if id in t.inCart then r == Err(HasCartItems) && rows == old(rows)
        else r == Ok(old(rows)[k.value]) && rows == old(rows)[..k.value] + old(rows)[k.value + 1..]
    {
      var k := RowIndex(rows, id);
      if k.None? {
        return Err(RowNotFound(id));
      }
      if id in t.bought {
        return Err(HasPurchases);
      }
      if id in t.inCart {
        return Err(HasCartItems);
      }
      r := Ok(rows[k.value]);
      RemoveAtUnique(rows, k.value);
      rows := rows[..k.value] + rows[k.value + 1..];
    }

    /** `deleteByProductId`: all of the product's rows go, or none of them
      when any is still referenced; the result is the number deleted. */
    method DeleteByProductId(t: Tables, productId: string) returns (r: Result<nat, string>)
      requires Valid()
      modifies this
      ensures Valid()
      ensures productId !in t.products ==> r == Err(ProductNotFound(productId)) && rows == old(rows)
      ensures productId in t.products && (exists x :: x in old(rows) && x.productId == productId && Referenced(t, x))
        ==> r == Err(HasRelated) && rows == old(rows)
      ensures r.Ok? ==> rows == OtherProducts(old(rows), productId) && r.value == |OfProduct(old(rows), productId)|
      ensures r.Ok? <==> productId in t.products && forall x :: x in old(rows) && x.productId == productId ==> !Referenced(t, x)
    {
      if productId !in t.products {
        return Err(ProductNotFound(productId));
      }
      var blocked := FindBlocked(t, rows, productId);
      if blocked {
        return Err(HasRelated);
      }
      r := Ok(|OfProduct(rows, productId)|);
      OtherProductsUnique(rows, productId);
      rows := OtherProducts(rows, productId);
    }
  }
}
