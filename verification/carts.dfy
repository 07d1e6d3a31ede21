/**
  The cart routes: a per-user list of (product, quantity) lines, unique by
  product. The product store is only read here: every operation takes the
  products as input and returns carts alone.
 */
module CartRoutes {
  import opened Wrappers
  import opened Schema

  datatype CartLine = CartLine(productId: Id, quantity: int)

  /** Carts by owning user id. A user without an entry has no cart document. */
  type Carts = map<Id, seq<CartLine>>

  predicate UniqueProducts(lines: seq<CartLine>) {
    forall i, j :: 0 <= i < j < |lines| ==> lines[i].productId != lines[j].productId
  }

  predicate CartsUnique(carts: Carts) {
    forall u :: u in carts ==> UniqueProducts(carts[u])
  }

  datatype CartError =
    | ProductIdRequired
    | ProductNotFound
    | ProductUnavailable
    | OnlyAvailable(stock: int)
    | CannotAddMore(stock: int)
    | InvalidRequest
    | CartNotFound
    | ItemNotFound

  /** Total quantity held for product `id` (at most one line when unique). */
  function CartQty(lines: seq<CartLine>, id: Id): int {
    if |lines| == 0 then 0
    else (if lines[0].productId == id then lines[0].quantity else 0) + CartQty(lines[1..], id)
  }

  function LinesOf(carts: Carts, userId: Id): seq<CartLine> {
    if userId in carts then carts[userId] else []
  }

  /** Index of the first line for product `id`. */
  function FindLine(lines: seq<CartLine>, id: Id): (r: Option<nat>)
    ensures r.Some? ==> (r.value < |lines| && lines[r.value].productId == id
      && forall j :: 0 <= j < r.value ==> lines[j].productId != id)
    ensures r.None? ==> forall j :: 0 <= j < |lines| ==> lines[j].productId != id
  {
    if |lines| == 0 then None
    else if lines[0].productId == id then Some(0)
    else match FindLine(lines[1..], id)
      case None => None
      case Some(k) => Some(k + 1)
  }

  // -------------------------------------------------------------------- view

  /** One line of the cart as shown: the live product fields plus the stored quantity. */
  datatype CartView = CartView(
    productId: Id, name: string, price: int, image: Option<string>,
    description: Option<string>, category: string, stock: int, quantity: int)

  function ViewOf(id: Id, p: Product, quantity: int): CartView {
    CartView(id, p.name, p.price, p.image, p.description, p.category, p.stock, quantity)
  }

  /** A line is shown when its product still exists and is available. */
  predicate Shown(products: map<Id, Product>, l: CartLine) {
    l.productId in products && products[l.productId].isAvailable
  }

  /** Drops the lines whose product is gone or unavailable; keeps the rest in order. */
  function ViewLines(products: map<Id, Product>, lines: seq<CartLine>): (r: seq<CartView>)
    ensures |r| <= |lines|
    ensures forall i :: 0 <= i < |r| ==>
      && r[i].productId in products && products[r[i].productId].isAvailable
      && r[i] == ViewOf(r[i].productId, products[r[i].productId], r[i].quantity)
  {
    if |lines| == 0 then []
    else
      (if Shown(products, lines[0]) then [ViewOf(lines[0].productId, products[lines[0].productId], lines[0].quantity)] else [])
      + ViewLines(products, lines[1..])
  }

  /** With `ViewLinesAppend`, fixes the view completely: each line maps to its
      own view, or to nothing, independently and in order. */
  lemma ViewOfOneLine(products: map<Id, Product>, l: CartLine)
    ensures ViewLines(products, [l]) ==
      if Shown(products, l) then [ViewOf(l.productId, products[l.productId], l.quantity)] else []
  {
  }

  lemma {:induction false} ViewLinesAppend(products: map<Id, Product>, a: seq<CartLine>, b: seq<CartLine>)
    ensures ViewLines(products, a + b) == ViewLines(products, a) + ViewLines(products, b)
  {
    if |a| == 0 {
      assert a + b == b;
    } else {
      assert (a + b)[1..] == a[1..] + b;
      ViewLinesAppend(products, a[1..], b);
    }
  }

  /** The view holds exactly the views of the shown lines: every shown line
      appears, and every entry comes from a shown line. */
  lemma {:induction false} ViewLinesMembers(products: map<Id, Product>, lines: seq<CartLine>)
    ensures forall i :: 0 <= i < |lines| && Shown(products, lines[i]) ==>
      ViewOf(lines[i].productId, products[lines[i].productId], lines[i].quantity) in ViewLines(products, lines)
    ensures forall v :: v in ViewLines(products, lines) ==>
      exists i :: 0 <= i < |lines| && Shown(products, lines[i])
        && v == ViewOf(lines[i].productId, products[lines[i].productId], lines[i].quantity)
  {
    if |lines| > 0 {
      ViewLinesMembers(products, lines[1..]);
      var rest := ViewLines(products, lines[1..]);
      forall v | v in rest
        ensures exists i :: 0 <= i < |lines| && Shown(products, lines[i])
                             && v == ViewOf(lines[i].productId, products[lines[i].productId], lines[i].quantity)
      {
        var j :| 0 <= j < |lines[1..]| && Shown(products, lines[1..][j])
          && v == ViewOf(lines[1..][j].productId, products[lines[1..][j].productId], lines[1..][j].quantity);
        assert lines[j + 1] == lines[1..][j];
      }
      forall i | 1 <= i < |lines| && Shown(products, lines[i])
        ensures ViewOf(lines[i].productId, products[lines[i].productId], lines[i].quantity) in rest
      {
        assert lines[i] == lines[1..][i - 1];
      }
    }
  }

  /** `GET /cart`: the shown lines of the caller's cart; no cart shows nothing. */
  function GetCart(carts: Carts, products: map<Id, Product>, userId: Id): (r: seq<CartView>)
    ensures userId !in carts ==> r == []
    ensures r == ViewLines(products, LinesOf(carts, userId))
    ensures |r| <= |LinesOf(carts, userId)|
    ensures var lines := LinesOf(carts, userId);
      && (forall i :: 0 <= i < |lines| && Shown(products, lines[i]) ==>
            ViewOf(lines[i].productId, products[lines[i].productId], lines[i].quantity) in r)
      && (forall v :: v in r ==>
            exists i :: 0 <= i < |lines| && Shown(products, lines[i])
              && v == ViewOf(lines[i].productId, products[lines[i].productId], lines[i].quantity))
  {
    ViewLinesMembers(products, LinesOf(carts, userId));
    ViewLines(products, LinesOf(carts, userId))
  }

  // --------------------------------------------------------------------- add

  /** `POST /cart/add`: quantity defaults to 1; an existing line is merged by
      summing quantities, a new product is appended. */
  function AddToCart(carts: Carts, products: map<Id, Product>, userId: Id,
                     productId: Option<Id>, quantity: Option<int>): (r: Result<Carts, CartError>)
    ensures (productId.None? || productId.value == "") ==> r == Err(ProductIdRequired)
    ensures productId.Some? && productId.value != "" && productId.value !in products ==> r == Err(ProductNotFound)
    ensures productId.Some? && productId.value in products && productId.value != "" ==>
      var p := products[productId.value];
      var q := quantity.GetOr(1);
      var before := LinesOf(carts, userId);
      var found := FindLine(before, productId.value);
      && (!p.isAvailable ==> r == Err(ProductUnavailable))
      && (p.isAvailable && p.stock < q ==> r == Err(OnlyAvailable(p.stock)))
      && (p.isAvailable && q <= p.stock && found.Some? && before[found.value].quantity + q > p.stock ==>
            r == Err(CannotAddMore(p.stock)))
      && (p.isAvailable && q <= p.stock && (found.None? || before[found.value].quantity + q <= p.stock) ==>
            r.Ok?)
    ensures r.Ok? ==>
      var id := productId.value;
      var q := quantity.GetOr(1);
      var before := LinesOf(carts, userId);
      && id in products && products[id].isAvailable && q <= products[id].stock
      && r.value.Keys == carts.Keys + {userId}
      && (forall u :: u in carts && u != userId ==> r.value[u] == carts[u])
      && (FindLine(before, id).None? ==> r.value[userId] == before + [CartLine(id, q)])
      && (FindLine(before, id).Some? ==>
            var k := FindLine(before, id).value;
            && before[k].quantity + q <= products[id].stock
            && r.value[userId] == before[k := CartLine(id, before[k].quantity + q)])
  {
    var q := quantity.GetOr(1);
    if productId.None? || productId.value == "" then Err(ProductIdRequired)
    else
      var id := productId.value;
      if id !in products then Err(ProductNotFound)
      else
        var p := products[id];
        if !p.isAvailable then Err(ProductUnavailable)
        else if p.stock < q then Err(OnlyAvailable(p.stock))
        else
          var lines := LinesOf(carts, userId);
          match FindLine(lines, id)
          case Some(k) =>
            var merged := lines[k].quantity + q;
            if merged > p.stock then Err(CannotAddMore(p.stock))
            else Ok(carts[userId := lines[k := CartLine(id, merged)]])
          case None =>
            Ok(carts[userId := lines + [CartLine(id, q)]])
  }

  lemma {:induction false} CartQtyAppend(a: seq<CartLine>, b: seq<CartLine>, id: Id)
    ensures CartQty(a + b, id) == CartQty(a, id) + CartQty(b, id)
  {
    if |a| == 0 {
      assert a + b == b;
    } else {
      assert (a + b)[1..] == a[1..] + b;
      CartQtyAppend(a[1..], b, id);
    }
  }

  /** Replacing the quantity of line `k` moves that product's total by the
      difference and leaves every other product's total alone. */
  lemma {:induction false} CartQtySetQuantity(lines: seq<CartLine>, k: nat, q: int, id: Id)
    requires k < |lines|
    ensures var updated := lines[k := CartLine(lines[k].productId, q)];
      CartQty(updated, id) ==
        CartQty(lines, id) + (if lines[k].productId == id then q - lines[k].quantity else 0)
    decreases k
  {
    var updated := lines[k := CartLine(lines[k].productId, q)];
    if k > 0 {
      assert updated[1..] == lines[1..][k - 1 := CartLine(lines[k].productId, q)];
      CartQtySetQuantity(lines[1..], k - 1, q, id);
    } else {
      assert updated[1..] == lines[1..];
    }
  }

  /** Adding to a cart keeps every cart unique by product: a merge keeps the
      line's product, and a new line is for a product the cart lacked. */
  lemma AddToCartKeepsUnique(carts: Carts, products: map<Id, Product>, userId: Id,
                             productId: Option<Id>, quantity: Option<int>)
    requires AddToCart(carts, products, userId, productId, quantity).Ok?
    requires CartsUnique(carts)
    ensures CartsUnique(AddToCart(carts, products, userId, productId, quantity).value)
  {
    var after := AddToCart(carts, products, userId, productId, quantity).value;
    var id := productId.value;
    var before := LinesOf(carts, userId);
    var lines := after[userId];
    assert UniqueProducts(before);
    match FindLine(before, id)
    case Some(k) =>
      forall i, j | 0 <= i < j < |lines| ensures lines[i].productId != lines[j].productId {
        assert lines[i].productId == before[i].productId && lines[j].productId == before[j].productId;
      }
    case None =>
      forall i, j | 0 <= i < j < |lines| ensures lines[i].productId != lines[j].productId {
        assert lines[i] == before[i];
        if j < |before| {
          assert lines[j] == before[j];
        }
      }
  }

  /** Adding `q` units of a product raises that product's cart quantity by
      exactly `q` and no other quantity moves. */
  lemma AddToCartQuantities(carts: Carts, products: map<Id, Product>, userId: Id,
                            productId: Option<Id>, quantity: Option<int>)
    requires AddToCart(carts, products, userId, productId, quantity).Ok?
    ensures var after := AddToCart(carts, products, userId, productId, quantity).value;
      && CartQty(after[userId], productId.value) == CartQty(LinesOf(carts, userId), productId.value) + quantity.GetOr(1)
      && forall other :: other != productId.value ==>
           CartQty(after[userId], other) == CartQty(LinesOf(carts, userId), other)
  {
    var after := AddToCart(carts, products, userId, productId, quantity).value;
    var id := productId.value;
    var q := quantity.GetOr(1);
    var before := LinesOf(carts, userId);
    match FindLine(before, id)
    case Some(k) =>
      forall other ensures CartQty(after[userId], other) ==
          CartQty(before, other) + (if other == id then q else 0) {
        CartQtySetQuantity(before, k, before[k].quantity + q, other);
      }
    case None =>
      forall other ensures CartQty(after[userId], other) ==
          CartQty(before, other) + (if other == id then q else 0) {
        CartQtyAppend(before, [CartLine(id, q)], other);
        assert [CartLine(id, q)][1..] == [];
      }
  }

  // ------------------------------------------------------------------ update

  /** `PATCH /cart/update`: sets the quantity of an existing line. The product
      must exist and have that much stock; its availability is not checked. */
  function UpdateCart(carts: Carts, products: map<Id, Product>, userId: Id,
                      productId: Option<Id>, quantity: int): (r: Result<Carts, CartError>)
    ensures (productId.None? || productId.value == "" || quantity < 1) ==> r == Err(InvalidRequest)
    ensures r.Ok? ==>
      var id := productId.value;
      && id in products && 1 <= quantity <= products[id].stock
      && userId in carts && FindLine(carts[userId], id).Some?
      && var k := FindLine(carts[userId], id).value;
      && r.value == carts[userId := carts[userId][k := CartLine(id, quantity)]]
    ensures productId.Some? && productId.value != "" && quantity >= 1 && productId.value in products ==>
      && (quantity > products[productId.value].stock ==> r == Err(OnlyAvailable(products[productId.value].stock)))
      && (quantity <= products[productId.value].stock && userId !in carts ==> r == Err(CartNotFound))
      && ((quantity <= products[productId.value].stock && userId in carts
             && FindLine(carts[userId], productId.value).None?) ==> r == Err(ItemNotFound))
      && ((quantity <= products[productId.value].stock && userId in carts
             && FindLine(carts[userId], productId.value).Some?) ==> r.Ok?)
    ensures productId.Some? && productId.value != "" && quantity >= 1 && productId.value !in products ==>
      r == Err(ProductNotFound)
  {
    if productId.None? || productId.value == "" || quantity < 1 then Err(InvalidRequest)
    else
      var id := productId.value;
      if id !in products then Err(ProductNotFound)
      else if quantity > products[id].stock then Err(OnlyAvailable(products[id].stock))
      else if userId !in carts then Err(CartNotFound)
      else
        var lines := carts[userId];
        match FindLine(lines, id)
        case None => Err(ItemNotFound)
        case Some(k) => Ok(carts[userId := lines[k := CartLine(id, quantity)]])
  }

  /** After an update the product's cart quantity is exactly the requested one. */
  lemma UpdateCartSetsQuantity(carts: Carts, products: map<Id, Product>, userId: Id,
                               productId: Option<Id>, quantity: int)
    requires UpdateCart(carts, products, userId, productId, quantity).Ok?
    requires CartsUnique(carts)
    ensures var after := UpdateCart(carts, products, userId, productId, quantity).value;
      && CartsUnique(after)
      && CartQty(after[userId], productId.value) == quantity
      && forall other :: other != productId.value ==>
           CartQty(after[userId], other) == CartQty(carts[userId], other)
  {
    var lines := carts[userId];
    var id := productId.value;
    var k := FindLine(lines, id).value;
    UniqueQtyIsLineQty(lines, k);
    forall other ensures CartQty(carts[userId][k := CartLine(id, quantity)], other) ==
        CartQty(lines, other) + (if other == id then quantity - lines[k].quantity else 0) {
      CartQtySetQuantity(lines, k, quantity, other);
    }
  }

  /** In a unique cart a product's quantity is that of its one line. */
  lemma {:induction false} UniqueQtyIsLineQty(lines: seq<CartLine>, k: nat)
    requires UniqueProducts(lines) && k < |lines|
    ensures CartQty(lines, lines[k].productId) == lines[k].quantity
    decreases k
  {
    var id := lines[k].productId;
    if k > 0 {
      UniqueQtyIsLineQty(lines[1..], k - 1);
    } else {
      AbsentQtyIsZero(lines[1..], id);
    }
  }

  lemma {:induction false} AbsentQtyIsZero(lines: seq<CartLine>, id: Id)
    requires forall j :: 0 <= j < |lines| ==> lines[j].productId != id
    ensures CartQty(lines, id) == 0
  {
    if |lines| > 0 {
      AbsentQtyIsZero(lines[1..], id);
    }
  }

  // ------------------------------------------------------------ remove/clear

  /** Every line for product `id` removed; the others kept in order. */
  function RemoveLines(lines: seq<CartLine>, id: Id): (r: seq<CartLine>)
    ensures forall l :: l in r <==> l in lines && l.productId != id
    ensures (forall j :: 0 <= j < |lines| ==> lines[j].productId != id) ==> r == lines
  {
    if |lines| == 0 then []
    else
      var rest := RemoveLines(lines[1..], id);
      assert lines == [lines[0]] + lines[1..];
      if lines[0].productId == id then rest
      else
        assert ([lines[0]] + rest)[1..] == rest;
        [lines[0]] + rest
  }

  /** Removal zeroes the product's cart quantity and leaves every other
      product's quantity as it was. */
  lemma {:induction false} RemoveLinesQty(lines: seq<CartLine>, id: Id)
    ensures CartQty(RemoveLines(lines, id), id) == 0
    ensures forall other :: other != id ==> CartQty(RemoveLines(lines, id), other) == CartQty(lines, other)
  {
    if |lines| > 0 {
      RemoveLinesQty(lines[1..], id);
      var rest := RemoveLines(lines[1..], id);
      if lines[0].productId != id {
        assert ([lines[0]] + rest)[1..] == rest;
      }
    }
  }

  /** Removing from a cart keeps the remaining lines in their order. */
  lemma {:induction false} RemoveLinesAppend(a: seq<CartLine>, b: seq<CartLine>, id: Id)
    ensures RemoveLines(a + b, id) == RemoveLines(a, id) + RemoveLines(b, id)
  {
    if |a| == 0 {
      assert a + b == b;
    } else {
      assert (a + b)[1..] == a[1..] + b;
      RemoveLinesAppend(a[1..], b, id);
    }
  }

  /** `DELETE /cart/remove/:productId`; removing an absent product is a no-op. */
  function RemoveFromCart(carts: Carts, userId: Id, productId: Id): (r: Result<Carts, CartError>)
    ensures userId !in carts <==> r == Err(CartNotFound)
    ensures r.Ok? ==> r.value == carts[userId := RemoveLines(carts[userId], productId)]
  {
    if userId !in carts then Err(CartNotFound)
    else Ok(carts[userId := RemoveLines(carts[userId], productId)])
  }

  /** Removal keeps a cart unique. */
  lemma {:induction false} RemoveLinesKeepsUnique(lines: seq<CartLine>, id: Id)
    requires UniqueProducts(lines)
    ensures UniqueProducts(RemoveLines(lines, id))
  {
    if |lines| > 0 {
      RemoveLinesKeepsUnique(lines[1..], id);
      var rest := RemoveLines(lines[1..], id);
      forall j | 0 <= j < |rest| ensures rest[j].productId != lines[0].productId {
        assert rest[j] in lines[1..];
      }
    }
  }

  /** `DELETE /cart/clear`: the caller's cart exists and is empty afterwards,
      whether or not it existed before. */
  function ClearCart(carts: Carts, userId: Id): (r: Carts)
    ensures r.Keys == carts.Keys + {userId} && r[userId] == []
    ensures forall u :: u in carts && u != userId ==> r[u] == carts[u]
  {
    carts[userId := []]
  }

  /** Clearing twice is clearing once. */
  lemma ClearCartIdempotent(carts: Carts, userId: Id)
    ensures ClearCart(ClearCart(carts, userId), userId) == ClearCart(carts, userId)
  {
  }
}
