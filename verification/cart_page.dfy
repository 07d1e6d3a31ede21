/**
  The cart page's own logic: the running total, the quantity buttons, and
  removing a line, each applied locally only once the server has accepted
  the change.
 */
module CartPage {
  import opened Wrappers
  import opened Schema
  import CartRoutes

  /** A cart line as the page holds it. */
  datatype Item = Item(id: string, price: int, quantity: int)

  /** The page's line for one entry of the server's cart view. */
  function FromView(v: CartRoutes.CartView): (it: Item)
    ensures it.id == v.productId && it.price == v.price && it.quantity == v.quantity
  {
    Item(v.productId, v.price, v.quantity)
  }

  /** The page's lines for the whole server view, in order. */
  function FromViews(vs: seq<CartRoutes.CartView>): (r: seq<Item>)
    ensures |r| == |vs|
    ensures forall k :: 0 <= k < |vs| ==> r[k] == FromView(vs[k])
  {
    if |vs| == 0 then [] else [FromView(vs[0])] + FromViews(vs[1..])
  }

  /** The sum of `price * quantity` over the lines, folded from the left. */
  function Total(items: seq<Item>): int {
    if |items| == 0 then 0
    else Total(items[..|items| - 1]) + items[|items| - 1].price * items[|items| - 1].quantity
  }

  lemma {:induction false} TotalAppend(a: seq<Item>, b: seq<Item>)
    ensures Total(a + b) == Total(a) + Total(b)
    decreases |b|
  {
    if |b| == 0 {
      assert a + b == a;
    } else {
      assert (a + b)[..|a + b| - 1] == a + b[..|b| - 1];
      TotalAppend(a, b[..|b| - 1]);
    }
  }

  lemma TotalSingle(x: Item)
    ensures Total([x]) == x.price * x.quantity
  {
    assert [x][..0] == [];
  }

  /** With non-negative prices and quantities the total is non-negative. */
  lemma {:induction false} TotalNonNegative(items: seq<Item>)
    requires forall i :: 0 <= i < |items| ==> items[i].price >= 0 && items[i].quantity >= 0
    ensures Total(items) >= 0
  {
    if |items| > 0 {
      TotalNonNegative(items[..|items| - 1]);
    }
  }

  /** The two quantity buttons. Any action other than increase decreases. */
  datatype Action = Increase | Decrease

  /** The quantity a button asks for: one more, or one fewer but never
      below one. */
  function NextQuantity(q: int, a: Action): (r: int)
    ensures a == Increase ==> r == q + 1
    ensures a == Decrease ==> r >= 1 && (q >= 2 ==> r == q - 1) && (q <= 2 ==> r == 1)
  {
    if a == Increase then q + 1 else if q - 1 > 1 then q - 1 else 1
  }

  /** From a quantity of at least two, one press of each button returns to
      where it started; from one, decreasing changes nothing. */
  lemma ButtonsUndoEachOther(q: int)
    ensures q >= 1 ==> NextQuantity(NextQuantity(q, Increase), Decrease) == q
    ensures q >= 2 ==> NextQuantity(NextQuantity(q, Decrease), Increase) == q
    ensures NextQuantity(1, Decrease) == 1
  {
  }

  /** Index of the first line with `id`, or `|items|`. */
  function FindItem(items: seq<Item>, id: string): (i: nat)
    ensures i <= |items|
    ensures i < |items| ==> items[i].id == id
    ensures forall k :: 0 <= k < i ==> items[k].id != id
  {
    if |items| == 0 || items[0].id == id then 0 else 1 + FindItem(items[1..], id)
  }

  /** `map(item => item._id === id ? {...item, quantity} : item)`. */
  function SetQuantity(items: seq<Item>, id: string, q: int): (r: seq<Item>)
    ensures |r| == |items|
    ensures forall k :: 0 <= k < |r| ==>
      r[k] == if items[k].id == id then items[k].(quantity := q) else items[k]
  {
    if |items| == 0 then []
    else [if items[0].id == id then items[0].(quantity := q) else items[0]] + SetQuantity(items[1..], id, q)
  }

  /** What a press of a quantity button does: the request it sends, if any,
      and the lines afterwards. */
  datatype QuantityPress = QuantityPress(sent: Option<(string, int)>, items: seq<Item>)

  /** `updateQuantity`: the line is looked up first (a missing line throws
      before any request); the lines change only when the server accepted
      the request (`serverOk`). */
  function UpdateQuantity(items: seq<Item>, id: string, a: Action, serverOk: bool): (r: QuantityPress)
    ensures FindItem(items, id) == |items| ==> r == QuantityPress(None, items)
    ensures FindItem(items, id) < |items| ==>
      r.sent == Some((id, NextQuantity(items[FindItem(items, id)].quantity, a)))
    ensures !serverOk ==> r.items == items
    ensures serverOk && FindItem(items, id) < |items| ==>
      r.items == SetQuantity(items, id, NextQuantity(items[FindItem(items, id)].quantity, a))
    ensures |r.items| == |items|
    ensures forall k :: 0 <= k < |items| && items[k].id != id ==> r.items[k] == items[k]
    ensures forall k :: 0 <= k < |items| ==> r.items[k].id == items[k].id && r.items[k].price == items[k].price
  {
    var i := FindItem(items, id);
    if i == |items| then QuantityPress(None, items)
    else
      var q := NextQuantity(items[i].quantity, a);
      QuantityPress(Some((id, q)), if serverOk then SetQuantity(items, id, q) else items)
  }

  /** No two lines share an id, as in the server's cart. */
  predicate UniqueIds(items: seq<Item>) {
    forall i, j :: 0 <= i < j < |items| ==> items[i].id != items[j].id
  }

  /** Replacing one line changes the total by the difference of the two
      subtotals. */
  lemma TotalReplace(items: seq<Item>, i: nat, x: Item)
    requires i < |items|
    ensures Total(items[i := x]) == Total(items) - items[i].price * items[i].quantity + x.price * x.quantity
  {
    var pre, post := items[..i], items[i + 1..];
    assert items == pre + [items[i]] + post;
    assert items[i := x] == pre + [x] + post;
    TotalAppend(pre + [items[i]], post);
    TotalAppend(pre, [items[i]]);
    TotalAppend(pre + [x], post);
    TotalAppend(pre, [x]);
    TotalSingle(items[i]);
    TotalSingle(x);
  }

  lemma ScaleDifference(p: int, q: int, o: int)
    ensures p * q - p * o == p * (q - o)
  {
  }

  /** With unique ids, setting the quantity of a present id replaces exactly
      its one line. */
  lemma SetQuantityUnique(items: seq<Item>, id: string, q: int)
    requires UniqueIds(items)
    requires FindItem(items, id) < |items|
    ensures var i := FindItem(items, id);
      SetQuantity(items, id, q) == items[i := items[i].(quantity := q)]
  {
    var i := FindItem(items, id);
    var r := SetQuantity(items, id, q);
    forall k | 0 <= k < |items| ensures r[k] == items[i := items[i].(quantity := q)][k] {
      if k != i {
        assert items[k].id != id;
      }
    }
  }

  /** With unique ids, an accepted press moves the total by the line's price
      times the change in its quantity. */
  lemma UpdateQuantityTotal(items: seq<Item>, id: string, a: Action)
    requires UniqueIds(items)
    requires FindItem(items, id) < |items|
    ensures var i := FindItem(items, id);
      var q := NextQuantity(items[i].quantity, a);
      Total(UpdateQuantity(items, id, a, true).items)
        == Total(items) + items[i].price * (q - items[i].quantity)
  {
    var i := FindItem(items, id);
    var q := NextQuantity(items[i].quantity, a);
    var x := items[i].(quantity := q);
    SetQuantityUnique(items, id, q);
    assert UpdateQuantity(items, id, a, true).items == items[i := x];
    TotalReplace(items, i, x);
    ScaleDifference(items[i].price, q, items[i].quantity);
  }

  /** `filter(item => item._id !== id)`. */
  function Without(items: seq<Item>, id: string): (r: seq<Item>)
    ensures |r| <= |items|
  {
    if |items| == 0 then []
    else (if items[0].id == id then [] else [items[0]]) + Without(items[1..], id)
  }

  /** The filter keeps exactly the lines with another id. */
  lemma {:induction false} WithoutMembers(items: seq<Item>, id: string)
    ensures forall x :: x in Without(items, id) <==> x in items && x.id != id
  {
    if |items| > 0 {
      WithoutMembers(items[1..], id);
      assert items == [items[0]] + items[1..];
    }
  }

  lemma {:induction false} WithoutAppend(a: seq<Item>, b: seq<Item>, id: string)
    ensures Without(a + b, id) == Without(a, id) + Without(b, id)
  {
    if |a| == 0 {
      assert a + b == b;
    } else {
      assert (a + b)[1..] == a[1..] + b;
      WithoutAppend(a[1..], b, id);
    }
  }

  /** `removeItem`: the lines change only when the server accepted. */
  function RemoveItem(items: seq<Item>, id: string, serverOk: bool): (r: seq<Item>)
    ensures !serverOk ==> r == items
    ensures serverOk ==> forall x :: x in r <==> x in items && x.id != id
  {
    if serverOk then WithoutMembers(items, id); Without(items, id) else items
  }

  /** With unique ids, filtering out the first line's id leaves the rest. */
  lemma WithoutUniqueHead(items: seq<Item>, id: string)
    requires UniqueIds(items) && |items| > 0 && items[0].id == id
    ensures Without(items, id) == items[1..]
  {
    var tail := items[1..];
    forall k | 0 <= k < |tail| ensures tail[k].id != id {
      assert tail[k] == items[k + 1];
    }
    WithoutUnmatched(tail, id);
  }

  /** With unique ids, filtering out a present id cuts out exactly its one
      line. */
  lemma {:induction false} WithoutUniqueCut(items: seq<Item>, id: string)
    requires UniqueIds(items)
    requires FindItem(items, id) < |items|
    ensures var i := FindItem(items, id);
      Without(items, id) == items[..i] + items[i + 1..]
  {
    if items[0].id == id {
      WithoutUniqueHead(items, id);
    } else {
      var tail := items[1..];
      assert UniqueIds(tail) by {
        forall a, b | 0 <= a < b < |tail| ensures tail[a].id != tail[b].id {
          assert tail[a] == items[a + 1] && tail[b] == items[b + 1];
        }
      }
      var i := FindItem(items, id);
      WithoutUniqueCut(tail, id);
      assert items[..i] == [items[0]] + tail[..i - 1];
      assert items[i + 1..] == tail[i..];
    }
  }

  /** With unique ids, removing a line takes exactly its subtotal off the
      total, and the other lines stay in order. */
  lemma RemoveItemTotal(items: seq<Item>, id: string)
    requires UniqueIds(items)
    requires FindItem(items, id) < |items|
    ensures var i := FindItem(items, id);
      && RemoveItem(items, id, true) == items[..i] + items[i + 1..]
      && Total(RemoveItem(items, id, true)) == Total(items) - items[i].price * items[i].quantity
  {
    var i := FindItem(items, id);
    var pre, x, post := items[..i], items[i], items[i + 1..];
    WithoutUniqueCut(items, id);
    assert items == (pre + [x]) + post;
    TotalAppend(pre, post);
    TotalAppend(pre + [x], post);
    TotalAppend(pre, [x]);
    TotalSingle(x);
  }

  lemma {:induction false} WithoutUnmatched(items: seq<Item>, id: string)
    requires forall k :: 0 <= k < |items| ==> items[k].id != id
    ensures Without(items, id) == items
  {
    if |items| > 0 {
      WithoutUnmatched(items[1..], id);
    }
  }

  /** A line kept from an earlier session, whose quantity may be missing. */
  datatype StoredItem = StoredItem(id: string, price: int, quantity: Option<int>)

  /** `item.quantity ? item.quantity : 1`: a missing or zero quantity is 1. */
  function Restore(s: StoredItem): (it: Item)
    ensures it.id == s.id && it.price == s.price
    ensures it.quantity != 0
    ensures s.quantity.Some? && s.quantity.value != 0 ==> it.quantity == s.quantity.value
    ensures s.quantity.None? || s.quantity.value == 0 ==> it.quantity == 1
  {
    Item(s.id, s.price, if s.quantity.Some? && s.quantity.value != 0 then s.quantity.value else 1)
  }

  function RestoreAll(saved: seq<StoredItem>): (r: seq<Item>)
    ensures |r| == |saved|
    ensures forall k :: 0 <= k < |r| ==> r[k] == Restore(saved[k])
  {
    if |saved| == 0 then [] else [Restore(saved[0])] + RestoreAll(saved[1..])
  }

  /** A restored line, saved again with its quantity, restores to itself:
      the default is applied once, and a saved non-zero quantity is kept. */
  lemma RestoreRoundTrip(s: StoredItem)
    ensures var it := Restore(s);
      Restore(StoredItem(it.id, it.price, Some(it.quantity))) == it
  {
  }

  // ------------------------------------------------------------- fetched view

  /** The total of the shown lines computed on the server's side: the live
      price times the stored quantity of each line whose product still
      exists and is available. */
  function ShownTotal(products: map<Id, Product>, lines: seq<CartRoutes.CartLine>): int {
    if |lines| == 0 then 0
    else
      (if CartRoutes.Shown(products, lines[0]) then products[lines[0].productId].price * lines[0].quantity else 0)
      + ShownTotal(products, lines[1..])
  }

  lemma FromViewsAppend(a: seq<CartRoutes.CartView>, b: seq<CartRoutes.CartView>)
    ensures FromViews(a + b) == FromViews(a) + FromViews(b)
  {
    var l, r := FromViews(a + b), FromViews(a) + FromViews(b);
    forall k | 0 <= k < |a + b| ensures l[k] == r[k] {
      if k < |a| {
        assert (a + b)[k] == a[k];
      } else {
        assert (a + b)[k] == b[k - |a|];
      }
    }
  }

  /** The total the page shows after fetching the cart is the sum, over the
      stored lines whose product is still shown, of the live price times the
      stored quantity. */
  lemma {:induction false} FetchedTotal(products: map<Id, Product>, lines: seq<CartRoutes.CartLine>)
    ensures Total(FromViews(CartRoutes.ViewLines(products, lines))) == ShownTotal(products, lines)
  {
    if |lines| == 0 {
      assert FromViews([]) == [];
    } else {
      var l := lines[0];
      var head: seq<CartRoutes.CartView> :=
        if CartRoutes.Shown(products, l) then [CartRoutes.ViewOf(l.productId, products[l.productId], l.quantity)] else [];
      var tail := CartRoutes.ViewLines(products, lines[1..]);
      assert CartRoutes.ViewLines(products, lines) == head + tail;
      FromViewsAppend(head, tail);
      TotalAppend(FromViews(head), FromViews(tail));
      if CartRoutes.Shown(products, l) {
        TotalSingle(FromViews(head)[0]);
        assert FromViews(head) == [FromViews(head)[0]];
      } else {
        assert FromViews(head) == [];
      }
      FetchedTotal(products, lines[1..]);
    }
  }
}
