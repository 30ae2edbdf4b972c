/** The shopping carts of `CartService`: one cart per user, whose items are
    keyed by (cart, product, selling unit); adding a line that is already
    there merges into it. */
module CartService {
  import opened Wrappers

  const ProductNotFound := "Produto não encontrado."
  const UnitNotFound := "Unidade de venda não encontrada."
  const UnitOfOtherProduct := "Essa unidade de venda não pertence ao produto informado."
  const StockShort := "Quantidade insuficiente no estoque."
  const NoStockDefined := "Produto não encontrado ou sem estoque definido."
  const AboveStock := "A quantidade deve ser menor ou igual ao estoque disponível."
  /** The Prisma code of an insert whose foreign key names no row. */
  const UnknownUser := "P2003"

  function ItemNotFound(id: string): string {
    "Item com ID " + id + " não encontrado."
  }

  datatype Cart = Cart(id: string, userId: string)

  datatype CartItem = CartItem(
    id: string,
    cartId: string,
    productId: string,
    sellingUnitProductId: string,
    amount: int,
    value: real)

  /** What the cart service reads of the other tables: each product's stock
      and the product each selling unit belongs to. */
  datatype Catalog = Catalog(stock: map<string, int>, unitProduct: map<string, string>)

  /** A cart together with its items, as `removeItem` returns it. */
  datatype CartView = CartView(cart: Cart, items: seq<CartItem>)

  /* ---------------- the tables ---------------- */

  /** Cart ids are distinct and no user has two carts. */
  predicate CartsWellFormed(carts: seq<Cart>) {
    forall i, j :: 0 <= i < j < |carts| ==> carts[i].id != carts[j].id && carts[i].userId != carts[j].userId
  }

  predicate SameLine(it: CartItem, cartId: string, productId: string, unitId: string) {
    it.cartId == cartId && it.productId == productId && it.sellingUnitProductId == unitId
  }

  /** Item ids are distinct and no two items of a cart share product and
      selling unit. */
  predicate ItemsWellFormed(items: seq<CartItem>) {
    forall i, j :: 0 <= i < j < |items| ==>
      items[i].id != items[j].id && !SameLine(items[j], items[i].cartId, items[i].productId, items[i].sellingUnitProductId)
  }

  predicate IsCartId(carts: seq<Cart>, id: string) {
    exists i :: 0 <= i < |carts| && carts[i].id == id
  }

  predicate IsItemId(items: seq<CartItem>, id: string) {
    exists i :: 0 <= i < |items| && items[i].id == id
  }

  /** Every item lies in an existing cart. */
  predicate ItemsInCarts(carts: seq<Cart>, items: seq<CartItem>) {
    forall i :: 0 <= i < |items| ==> IsCartId(carts, items[i].cartId)
  }

  /** `cart.findFirst({ where: { userId } })`. */
  function CartOf(carts: seq<Cart>, user: string): (r: Option<Cart>)
    ensures r.Some? ==> r.value in carts && r.value.userId == user
    ensures r.None? <==> forall i :: 0 <= i < |carts| ==> carts[i].userId != user
  {
    if carts == [] then None
    else if carts[0].userId == user then Some(carts[0])
    else
      assert forall k :: 1 <= k < |carts| ==> carts[k] == carts[1..][k - 1];
      CartOf(carts[1..], user)
  }

  /** The position of the cart with the given id. */
  function CartIndex(carts: seq<Cart>, id: string): (r: Option<nat>)
    ensures r.Some? ==> r.value < |carts| && carts[r.value].id == id
    ensures r.None? <==> !IsCartId(carts, id)
  {
    if carts == [] then None
    else if carts[0].id == id then Some(0)
    else
      var r := CartIndex(carts[1..], id);
      assert forall k :: 1 <= k < |carts| ==> carts[k] == carts[1..][k - 1];
      if r.None? then None else Some(r.value + 1)
  }

  /** `cartItem.findFirst` on (cart, product, selling unit). */
  function LineIndex(items: seq<CartItem>, cartId: string, productId: string, unitId: string): (r: Option<nat>)
    ensures r.Some? ==> r.value < |items| && SameLine(items[r.value], cartId, productId, unitId)
    ensures r.None? <==> forall i :: 0 <= i < |items| ==> !SameLine(items[i], cartId, productId, unitId)
  {
    if items == [] then None
    else if SameLine(items[0], cartId, productId, unitId) then Some(0)
    else
      var r := LineIndex(items[1..], cartId, productId, unitId);
      assert forall k :: 1 <= k < |items| ==> items[k] == items[1..][k - 1];
      if r.None? then None else Some(r.value + 1)
  }

  /** `cartItem.findUnique({ where: { id } })`. */
  function ItemIndex(items: seq<CartItem>, id: string): (r: Option<nat>)
    ensures r.Some? ==> r.value < |items| && items[r.value].id == id
    ensures r.None? <==> !IsItemId(items, id)
  {
    if items == [] then None
    else if items[0].id == id then Some(0)
    else
      var r := ItemIndex(items[1..], id);
      assert forall k :: 1 <= k < |items| ==> items[k] == items[1..][k - 1];
      if r.None? then None else Some(r.value + 1)
  }

  /** The items of a cart, in table order. */
  function ItemsOf(items: seq<CartItem>, cartId: string): (r: seq<CartItem>)
    ensures |r| <= |items|
  {
    if items == [] then []
    else ItemsOf(items[..|items| - 1], cartId) + (if items[|items| - 1].cartId == cartId then [items[|items| - 1]] else [])
  }

  /** `cartItem.deleteMany({ where: { cartId } })`: the items of the other
      carts, in table order. */
  function WithoutCart(items: seq<CartItem>, cartId: string): (r: seq<CartItem>)
    ensures |r| <= |items|
  {
    if items == [] then []
    else WithoutCart(items[..|items| - 1], cartId) + (if items[|items| - 1].cartId != cartId then [items[|items| - 1]] else [])
  }

  /* ---------------- the checks of a new line ---------------- */

  /** The first check a new cart line fails, in the order `addToCart` makes
      them: the product exists, the selling unit exists, it belongs to the
      product, and the stock covers the amount. */
  function NewLineError(cat: Catalog, productId: string, unitId: string, amount: int): (r: Option<string>)
    ensures r.None? <==>
      productId in cat.stock && unitId in cat.unitProduct && cat.unitProduct[unitId] == productId
      && amount <= cat.stock[productId]
    ensures r == Some(ProductNotFound) <==> productId !in cat.stock
    ensures r == Some(StockShort) ==> amount > cat.stock[productId]
  {
    if productId !in cat.stock then Some(ProductNotFound)
    else if unitId !in cat.unitProduct then Some(UnitNotFound)
    else if cat.unitProduct[unitId] != productId then Some(UnitOfOtherProduct)
    else if amount > cat.stock[productId] then Some(StockShort)
    else None
  }

  /** The check `updateItem` makes on the new amount of an item. */
  function NewAmountError(cat: Catalog, productId: string, amount: int): (r: Option<string>)
    ensures r.None? <==> productId in cat.stock && amount <= cat.stock[productId]
  {
    if productId !in cat.stock then Some(NoStockDefined)
    else if amount > cat.stock[productId] then Some(AboveStock)
    else None
  }

  /* ---------------- properties of the writes ---------------- */

  /** Appending a line whose id is fresh and whose key is new keeps the
      items well formed. */
  lemma {:induction false} AppendLine(items: seq<CartItem>, it: CartItem)
    requires ItemsWellFormed(items) && !IsItemId(items, it.id)
    requires forall i :: 0 <= i < |items| ==> !SameLine(items[i], it.cartId, it.productId, it.sellingUnitProductId)
    ensures ItemsWellFormed(items + [it])
  {
    var t := items + [it];
    forall i, j | 0 <= i < j < |t|
      ensures t[i].id != t[j].id && !SameLine(t[j], t[i].cartId, t[i].productId, t[i].sellingUnitProductId)
    {
      assert t[i] == items[i];
      if j < |items| {
        assert t[j] == items[j];
      }
    }
  }

  /** Rewriting the amount and value of an item keeps the items well formed. */
  lemma {:induction false} RewriteLine(items: seq<CartItem>, k: nat, amount: int, value: real)
    requires ItemsWellFormed(items) && k < |items|
    ensures ItemsWellFormed(items[k := items[k].(amount := amount, value := value)])
  {
    var t := items[k := items[k].(amount := amount, value := value)];
    assert forall i :: 0 <= i < |t| ==>
      t[i].id == items[i].id && t[i].cartId == items[i].cartId
      && t[i].productId == items[i].productId && t[i].sellingUnitProductId == items[i].sellingUnitProductId;
  }

  /** An item is listed under its cart exactly when it is an item of that
      cart. */
  lemma {:induction false} ItemsOfMember(items: seq<CartItem>, cartId: string, it: CartItem)
    ensures it in ItemsOf(items, cartId) <==> it in items && it.cartId == cartId
  {
    if items != [] {
      var init := items[..|items| - 1];
      ItemsOfMember(init, cartId, it);
      assert items == init + [items[|items| - 1]];
    }
  }

  /** After clearing a cart it has no item left and every other item is
      still there. */
  lemma {:induction false} WithoutCartMember(items: seq<CartItem>, cartId: string, it: CartItem)
    ensures it in WithoutCart(items, cartId) <==> it in items && it.cartId != cartId
  {
    if items != [] {
      var init := items[..|items| - 1];
      WithoutCartMember(init, cartId, it);
      assert items == init + [items[|items| - 1]];
    }
  }

  /** The items that survive a clear are a subsequence of the table, so the
      table stays well formed. */
  lemma {:induction false} WithoutCartWellFormed(carts: seq<Cart>, items: seq<CartItem>, cartId: string)
    requires ItemsWellFormed(items) && ItemsInCarts(carts, items)
    ensures ItemsWellFormed(WithoutCart(items, cartId)) && ItemsInCarts(carts, WithoutCart(items, cartId))
  {
    if items != [] {
      var init := items[..|items| - 1];
      var last := items[|items| - 1];
      assert forall i :: 0 <= i < |init| ==> init[i] == items[i];
      WithoutCartWellFormed(carts, init, cartId);
      var w := WithoutCart(init, cartId);
      if last.cartId != cartId {
        forall i | 0 <= i < |w|
          ensures w[i].id != last.id && !SameLine(last, w[i].cartId, w[i].productId, w[i].sellingUnitProductId)
        {
          WithoutCartMember(init, cartId, w[i]);
          var j :| 0 <= j < |init| && init[j] == w[i];
        }
        assert !IsItemId(w, last.id);
        AppendLine(w, last);
      }
    }
  }

  /** Removing the item at `k` keeps the table well formed and drops exactly
      that item. */
  lemma {:induction false} RemoveLine(carts: seq<Cart>, items: seq<CartItem>, k: nat)
    requires ItemsWellFormed(items) && ItemsInCarts(carts, items) && k < |items|
    ensures var t := items[..k] + items[k + 1..];
      ItemsWellFormed(t) && ItemsInCarts(carts, t) && |t| == |items| - 1
      && !IsItemId(t, items[k].id)
      && forall id :: id != items[k].id ==> (IsItemId(t, id) <==> IsItemId(items, id))
  {
    var t := items[..k] + items[k + 1..];
    assert forall i :: 0 <= i < |t| ==> t[i] == if i < k then items[i] else items[i + 1];
    RemoveLineIds(items, k);
  }

  /** The ids left after removing the item at `k`: all but that item's. */
  lemma {:induction false} RemoveLineIds(items: seq<CartItem>, k: nat)
    requires ItemsWellFormed(items) && k < |items|
    ensures var t := items[..k] + items[k + 1..];
      !IsItemId(t, items[k].id)
      && forall id :: id != items[k].id ==> (IsItemId(t, id) <==> IsItemId(items, id))
  {
    var t := items[..k] + items[k + 1..];
    assert forall i :: 0 <= i < |t| ==> t[i] == if i < k then items[i] else items[i + 1];
    forall id | id != items[k].id && IsItemId(items, id) ensures IsItemId(t, id) {
      var i :| 0 <= i < |items| && items[i].id == id;
      if i < k {
        assert t[i].id == id;
      } else {
        assert t[i - 1].id == id;
      }
    }
  }

  /** Creating a cart for a user who has none keeps the carts well formed. */
  lemma {:induction false} AppendCart(carts: seq<Cart>, items: seq<CartItem>, c: Cart)
    requires CartsWellFormed(carts) && ItemsInCarts(carts, items)
    requires !IsCartId(carts, c.id) && CartOf(carts, c.userId).None?
    ensures CartsWellFormed(carts + [c]) && ItemsInCarts(carts + [c], items)
    ensures CartOf(carts + [c], c.userId) == Some(c)
  {
    var t := carts + [c];
    forall i | 0 <= i < |items| ensures IsCartId(t, items[i].cartId) {
      var j :| 0 <= j < |carts| && carts[j].id == items[i].cartId;
      assert t[j] == carts[j];
    }
    CartOfAppend(carts, c);
  }

  lemma {:induction false} CartOfAppend(carts: seq<Cart>, c: Cart)
    requires CartOf(carts, c.userId).None?
    ensures CartOf(carts + [c], c.userId) == Some(c)
  {
    if carts != [] {
      assert (carts + [c])[1..] == carts[1..] + [c];
      CartOfAppend(carts[1..], c);
    }
  }

  /* ---------------- the service ---------------- */

  /** The line part of `addToCart` for the cart `cartId`: a line already in
      the cart takes the summed amount and the new value; a new line is
      appended when the product checks pass, and nothing changes when one
      fails. The result and the new item list. */
  function LineAdded(items: seq<CartItem>, cat: Catalog, cartId: string, productId: string, unitId: string,
                     amount: int, value: real, newItemId: string): (Result<CartItem, string>, seq<CartItem>)
  {
    match LineIndex(items, cartId, productId, unitId)
    case Some(k) =>
      var it := items[k].(amount := items[k].amount + amount, value := value);
      (Ok(it), items[k := it])
    case None =>
      match NewLineError(cat, productId, unitId, amount)
      case Some(e) => (Err(e), items)
      case None =>
        var it := CartItem(newItemId, cartId, productId, unitId, amount, value);
        (Ok(it), items + [it])
  }

  /** The line part of `addToCart` touches only the line it names: a line
      already there is merged in place with no catalog check, a new line is
      appended only when every check passes, a failed check changes nothing,
      and every other item stays where it was. */
  lemma {:induction false} LineAddedSpec(items: seq<CartItem>, cat: Catalog, cartId: string, productId: string,
                                         unitId: string, amount: int, value: real, newItemId: string)
    ensures var r := LineAdded(items, cat, cartId, productId, unitId, amount, value, newItemId).0;
      var t := LineAdded(items, cat, cartId, productId, unitId, amount, value, newItemId).1;
      (LineIndex(items, cartId, productId, unitId).Some? ==>
         r.Ok? && |t| == |items| && r.value.amount == items[LineIndex(items, cartId, productId, unitId).value].amount + amount)
      && (LineIndex(items, cartId, productId, unitId).None? ==>
            (r.Ok? <==> NewLineError(cat, productId, unitId, amount).None?)
            && (r.Ok? ==> t == items + [r.value] && r.value.id == newItemId && r.value.amount == amount))
      && (r.Err? ==> t == items)
      && (r.Ok? ==> SameLine(r.value, cartId, productId, unitId) && r.value.value == value && r.value in t)
      && |items| <= |t|
      && (forall i :: 0 <= i < |items| && !SameLine(items[i], cartId, productId, unitId) ==> t[i] == items[i])
  {
    var (r, t) := LineAdded(items, cat, cartId, productId, unitId, amount, value, newItemId);
    match LineIndex(items, cartId, productId, unitId)
    case Some(k) =>
      assert t[k] == r.value;
    case None =>
      if r.Ok? {
        assert t[|items|] == r.value;
      }
  }

  class CartStore {
    var carts: seq<Cart>
    var items: seq<CartItem>

    ghost predicate Valid()
      reads this
    {
      CartsWellFormed(carts) && ItemsWellFormed(items) && ItemsInCarts(carts, items)
    }

    constructor()
      ensures carts == [] && items == [] && Valid()
    {
      carts := [];
      items := [];
    }

    /** The user's cart, created on demand: `addToCart` makes the cart
        before any other check, so it stays even when the call then fails.
        The user id comes from the request body, so creating the cart fails
        on the foreign key when no user has that id (`userIds`). */
    method EnsureCart(userId: string, userIds: set<string>, newCartId: string) returns (r: Result<Cart, string>)
      requires Valid() && !IsCartId(carts, newCartId)
      modifies this`carts
      ensures Valid()
      ensures CartOf(old(carts), userId).Some? ==> r == Ok(CartOf(old(carts), userId).value) && carts == old(carts)
      ensures CartOf(old(carts), userId).None? && userId in userIds ==>
        r == Ok(Cart(newCartId, userId)) && carts == old(carts) + [Cart(newCartId, userId)]
      ensures CartOf(old(carts), userId).None? && userId !in userIds ==> r == Err(UnknownUser) && carts == old(carts)
      ensures r.Ok? ==> CartOf(carts, userId) == Some(r.value)
    {
      var found := CartOf(carts, userId);
      if found.Some? {
        return Ok(found.value);
      }
      if userId !in userIds {
        return Err(UnknownUser);
      }
      var c := Cart(newCartId, userId);
      AppendCart(carts, items, c);
      carts := carts + [c];
      r := Ok(c);
    }

    /** The line part of `addToCart` once the cart is known. */
    method AddLine(cat: Catalog, cartId: string, productId: string, unitId: string, amount: int, value: real,
                   newItemId: string)
      returns (r: Result<CartItem, string>)
      requires Valid() && IsCartId(carts, cartId) && !IsItemId(items, newItemId)
      modifies this`items
      ensures Valid()
      ensures (r, items) == LineAdded(old(items), cat, cartId, productId, unitId, amount, value, newItemId)
    {
      var k := LineIndex(items, cartId, productId, unitId);
      if k.Some? {
        var it := items[k.value].(amount := items[k.value].amount + amount, value := value);
        RewriteLine(items, k.value, it.amount, value);
        items := items[k.value := it];
        return Ok(it);
      }
      var e := NewLineError(cat, productId, unitId, amount);
      if e.Some? {
        return Err(e.value);
      }
      var it := CartItem(newItemId, cartId, productId, unitId, amount, value);
      AppendLine(items, it);
      assert ItemsInCarts(carts, items + [it]) by {
        forall i | 0 <= i < |items| + 1 ensures IsCartId(carts, (items + [it])[i].cartId) {
          if i < |items| {
            assert (items + [it])[i] == items[i];
          }
        }
      }
      items := items + [it];
      r := Ok(it);
    }

    /** `addToCart`: a line already in the user's cart takes the summed
        amount and the new value with no stock check; a new line needs an
        existing product, a selling unit of that product and enough stock.
        The cart is created first and stays when a check then fails; a user
        with no cart and no account fails there, before any line is touched. */
    method AddToCart(cat: Catalog, userIds: set<string>, userId: string, productId: string, unitId: string,
                     amount: int, value: real, newCartId: string, newItemId: string)
      returns (r: Result<CartItem, string>)
      requires Valid() && !IsCartId(carts, newCartId) && !IsItemId(items, newItemId)
      modifies this
      ensures Valid()
      ensures CartOf(old(carts), userId).None? && userId !in userIds ==>
        r == Err(UnknownUser) && carts == old(carts) && items == old(items)
      ensures CartOf(old(carts), userId).Some? || userId in userIds ==>
        carts == (if CartOf(old(carts), userId).Some? then old(carts) else old(carts) + [Cart(newCartId, userId)])
        && CartOf(carts, userId).Some?
        && (r, items) == LineAdded(old(items), cat, CartOf(carts, userId).value.id, productId, unitId, amount, value, newItemId)
    {
      var c := EnsureCart(userId, userIds, newCartId);
      if c.Err? {
        return Err(c.error);
      }
      assert IsCartId(carts, c.value.id) by {
        var j :| 0 <= j < |carts| && carts[j] == c.value;
      }
      r := AddLine(cat, c.value.id, productId, unitId, amount, value, newItemId);
    }

    /** `updateItem`: an existing item takes the given amount and value when
        its product's stock covers the amount. */
    method UpdateItem(cat: Catalog, itemId: string, amount: int, value: real) returns (r: Result<CartItem, string>)
      requires Valid()
      modifies this`items
      ensures Valid()
      ensures !IsItemId(old(items), itemId) ==> r == Err(ItemNotFound(itemId)) && items == old(items)
      ensures IsItemId(old(items), itemId) ==>
        var k := ItemIndex(old(items), itemId).value;
        match NewAmountError(cat, old(items)[k].productId, amount)
        case Some(e) => r == Err(e) && items == old(items)
        case None =>
          r == Ok(old(items)[k].(amount := amount, value := value)) && items == old(items)[k := r.value]
    {
      var k := ItemIndex(items, itemId);
      if k.None? {
        return Err(ItemNotFound(itemId));
      }
      var e := NewAmountError(cat, items[k.value].productId, amount);
      if e.Some? {
        return Err(e.value);
      }
      var it := items[k.value].(amount := amount, value := value);
      RewriteLine(items, k.value, amount, value);
      items := items[k.value := it];
      r := Ok(it);
    }

    /** `removeItem`: exactly that item goes; the answer is its cart with the
        items left in it. */
    method RemoveItem(itemId: string) returns (r: Result<CartView, string>)
      requires Valid()
      modifies this`items
      ensures Valid()
      ensures !IsItemId(old(items), itemId) ==> r == Err(ItemNotFound(itemId)) && items == old(items)
      ensures IsItemId(old(items), itemId) ==>
        var k := ItemIndex(old(items), itemId).value;
        items == old(items)[..k] + old(items)[k + 1..]
        && r.Ok? && r.value.cart.id == old(items)[k].cartId && r.value.cart in carts
        && r.value.items == ItemsOf(items, r.value.cart.id)
      ensures !IsItemId(items, itemId)
      ensures forall id :: id != itemId ==> (IsItemId(items, id) <==> IsItemId(old(items), id))
    {
      var k := ItemIndex(items, itemId);
      if k.None? {
        return Err(ItemNotFound(itemId));
      }
      var cartId := items[k.value].cartId;
      RemoveLine(carts, items, k.value);
      items := items[..k.value] + items[k.value + 1..];
      var ci := CartIndex(carts, cartId);
      assert ci.Some?;
      r := Ok(CartView(carts[ci.value], ItemsOf(items, cartId)));
    }

    /** `clearCart`: every item of the user's cart goes and nothing else;
        without a cart nothing changes. */
    method ClearCart(userId: string)
      requires Valid()
      modifies this`items
      ensures Valid()
      ensures CartOf(carts, userId).None? ==> items == old(items)
      ensures CartOf(carts, userId).Some? ==>
        items == WithoutCart(old(items), CartOf(carts, userId).value.id)
        && ItemsOf(items, CartOf(carts, userId).value.id) == []
    {
      var c := CartOf(carts, userId);
      if c.Some? {
        WithoutCartWellFormed(carts, items, c.value.id);
        items := WithoutCart(items, c.value.id);
        ClearedIsEmpty(old(items), c.value.id);
      }
    }
  }

  /** A table with no item of the cart lists no item for it. */
  lemma {:induction false} ClearedIsEmpty(items: seq<CartItem>, cartId: string)
    ensures ItemsOf(WithoutCart(items, cartId), cartId) == []
  {
    var w := WithoutCart(items, cartId);
    var l := ItemsOf(w, cartId);
    if l != [] {
      ItemsOfMember(w, cartId, l[0]);
      WithoutCartMember(items, cartId, l[0]);
    }
  }

  /** Two additions of the same line merge: the item's amount is the sum of
      the two amounts and its value the later one. */
  lemma {:induction false} AddTwiceMerges(items: seq<CartItem>, cat: Catalog, cartId: string, productId: string,
                                          unitId: string, a1: int, v1: real, a2: int, v2: real, newItemId: string)
    requires ItemsWellFormed(items) && LineIndex(items, cartId, productId, unitId).Some?
    ensures var k := LineIndex(items, cartId, productId, unitId).value;
      var once := LineAdded(items, cat, cartId, productId, unitId, a1, v1, newItemId).1;
      var merged := items[k].(amount := items[k].amount + a1 + a2, value := v2);
      LineAdded(once, cat, cartId, productId, unitId, a2, v2, newItemId) == (Ok(merged), items[k := merged])
  {
    var k := LineIndex(items, cartId, productId, unitId).value;
    var once := items[k := items[k].(amount := items[k].amount + a1, value := v1)];
    assert LineAdded(items, cat, cartId, productId, unitId, a1, v1, newItemId).1 == once;
    RewriteLine(items, k, items[k].amount + a1, v1);
    LineIndexUnique(once, k, cartId, productId, unitId);
    var merged := items[k].(amount := items[k].amount + a1 + a2, value := v2);
    assert once[k := merged] == items[k := merged];
  }

  /** In well-formed items the line at `k` is the one `LineIndex` finds. */
  lemma {:induction false} LineIndexUnique(items: seq<CartItem>, k: nat, cartId: string, productId: string, unitId: string)
    requires ItemsWellFormed(items) && k < |items| && SameLine(items[k], cartId, productId, unitId)
    ensures LineIndex(items, cartId, productId, unitId) == Some(k)
  {
    var r := LineIndex(items, cartId, productId, unitId);
    assert r.Some?;
  }
}
