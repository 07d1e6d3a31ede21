/**
  The order routes: checkout (request checks, line validation against the
  product store, snapshot and total, then one all-or-nothing transaction that
  saves the order and decrements stock), the owner-scoped order reads, and
  the administrative status update.
 */
module OrderRoutes {
  import opened Wrappers
  import opened Schema
  import Ordering

  /** The state checkout reads and writes: products by id and the order
      history in insertion order. */
  datatype Store = Store(products: map<Id, Product>, orders: seq<Order>)

  /** A line of the checkout request body. The product is named by
      `productId`, or by `_id` when `productId` is falsy; `name` is only
      echoed in the not-found message. */
  datatype RequestLine = RequestLine(productId: Option<Id>, legacyId: Option<Id>, name: string, quantity: int)

  /** The checkout request body. `items` is `None` when missing or not an array. */
  datatype OrderRequest = OrderRequest(
    items: Option<seq<RequestLine>>,
    customer: Option<Customer>,
    paymentMethod: Option<string>)

  datatype CheckoutError =
    | ItemsRequired
    | CustomerDetailsRequired
    | ProductNotFound(requestedName: string)
    | ProductUnavailable(productName: string)
    | InsufficientStock(productName: string, available: int)
      /** The order document failed schema validation when saved. */
    | OrderRejected
      /** A validated product no longer existed inside the transaction. */
    | ProductVanished
      /** The in-transaction re-check found too little stock. */
    | StockRaceLost(productName: string, available: int)

  /** What a successful checkout reports back. */
  datatype OrderSummary = OrderSummary(id: Id, totalAmount: int, status: Status, estimatedDelivery: Option<Millis>)

  /** One checkout attempt: the state afterwards and the reply. */
  datatype Attempt = Attempt(state: Store, result: Result<OrderSummary, CheckoutError>)

  /** Estimated delivery is 45 minutes after the order is placed. */
  const DeliveryWindow: Millis := 45 * 60 * 1000

  const FallbackPaymentMethod: string := "Cash on Delivery"

  // ------------------------------------------------------------ validation

  /** The id a request line refers to (`productId || _id`). */
  function LineRef(l: RequestLine): Option<Id> {
    if l.productId.Some? && l.productId.value != "" then l.productId else l.legacyId
  }

  predicate Resolves(products: map<Id, Product>, l: RequestLine) {
    LineRef(l).Some? && LineRef(l).value in products
  }

  /** The order line recorded for `quantity` units of product `id`: name,
      price and image are copied from the store. */
  function Snapshot(id: Id, p: Product, quantity: int): OrderLine {
    OrderLine(id, p.name, p.price, quantity, p.image)
  }

  /** The checks applied to one request line, in the order the handler makes
      them: existence, availability, then stock. */
  function CheckLine(products: map<Id, Product>, l: RequestLine): (r: Result<OrderLine, CheckoutError>)
    ensures !Resolves(products, l) ==> r == Err(ProductNotFound(l.name))
    ensures Resolves(products, l) ==>
      var p := products[LineRef(l).value];
      && (!p.isAvailable ==> r == Err(ProductUnavailable(p.name)))
      && (p.isAvailable && p.stock < l.quantity ==> r == Err(InsufficientStock(p.name, p.stock)))
      && (p.isAvailable && p.stock >= l.quantity ==> r == Ok(Snapshot(LineRef(l).value, p, l.quantity)))
  {
    if !Resolves(products, l) then Err(ProductNotFound(l.name))
    else
      var id := LineRef(l).value;
      var p := products[id];
      if !p.isAvailable then Err(ProductUnavailable(p.name))
      else if p.stock < l.quantity then Err(InsufficientStock(p.name, p.stock))
      else Ok(Snapshot(id, p, l.quantity))
  }

  /** Validates the lines in input order and stops at the first failure. */
  function ValidateLines(products: map<Id, Product>, lines: seq<RequestLine>): (r: Result<seq<OrderLine>, CheckoutError>)
    ensures r.Ok? <==> forall i :: 0 <= i < |lines| ==> CheckLine(products, lines[i]).Ok?
    ensures r.Ok? ==> |r.value| == |lines|
    ensures r.Ok? ==> forall i :: 0 <= i < |lines| ==> r.value[i] == CheckLine(products, lines[i]).value
  {
    if |lines| == 0 then Ok([])
    else
      match CheckLine(products, lines[0])
      case Err(e) => Err(e)
      case Ok(line) =>
        match ValidateLines(products, lines[1..])
        case Err(e) => Err(e)
        case Ok(rest) =>
          assert forall i :: 1 <= i < |lines| ==> lines[i] == lines[1..][i - 1];
          Ok([line] + rest)
  }

  /** The reported error is the one of the first failing line, and every
      earlier line passed. */
  lemma {:induction false} ValidateLinesFirstFailure(products: map<Id, Product>, lines: seq<RequestLine>, k: nat)
    requires k < |lines|
    requires forall j :: 0 <= j < k ==> CheckLine(products, lines[j]).Ok?
    requires CheckLine(products, lines[k]).Err?
    ensures ValidateLines(products, lines) == Err(CheckLine(products, lines[k]).error)
    decreases k
  {
    if k > 0 {
      assert forall j :: 0 <= j < k - 1 ==> lines[1..][j] == lines[j + 1];
      ValidateLinesFirstFailure(products, lines[1..], k - 1);
    }
  }

  /** The handler's validation loop: walks the lines once, snapshotting each
      and accumulating `price * quantity` into the running total. */
  method ValidateItems(products: map<Id, Product>, lines: seq<RequestLine>)
    returns (r: Result<(seq<OrderLine>, int), CheckoutError>)
    ensures r.Ok? <==> ValidateLines(products, lines).Ok?
    ensures r.Ok? ==> r.value.0 == ValidateLines(products, lines).value
    ensures r.Ok? ==> r.value.1 == LinesTotal(r.value.0)
    ensures r.Err? ==> r.error == ValidateLines(products, lines).error
  {
    var validated: seq<OrderLine> := [];
    var total := 0;
    var i := 0;
    while i < |lines|
      invariant 0 <= i <= |lines|
      invariant forall j :: 0 <= j < i ==> CheckLine(products, lines[j]).Ok?
      invariant |validated| == i
      invariant forall j :: 0 <= j < i ==> validated[j] == CheckLine(products, lines[j]).value
      invariant total == LinesTotal(validated)
    {
      var checked := CheckLine(products, lines[i]);
      if checked.Err? {
        ValidateLinesFirstFailure(products, lines, i);
        return Err(checked.error);
      }
      LinesTotalAppend(validated, [checked.value]);
      total := total + checked.value.price * checked.value.quantity;
      validated := validated + [checked.value];
      i := i + 1;
    }
    var spec := ValidateLines(products, lines);
    assert validated == spec.value;
    r := Ok((validated, total));
  }

  // ----------------------------------------------------------- transaction

  /** Stock after taking `q` units; availability follows the new stock. */
  function Decrement(p: Product, q: int): (d: Product)
    ensures d.stock == p.stock - q && d.isAvailable == (d.stock > 0)
    ensures d.(stock := p.stock, isAvailable := p.isAvailable) == p
  {
    p.(stock := p.stock - q, isAvailable := p.stock - q > 0)
  }

  /** Whether some line is for product `id`. */
  function Mentions(lines: seq<OrderLine>, id: Id): bool {
    |lines| > 0 && (lines[0].productId == id || Mentions(lines[1..], id))
  }

  /** Total quantity ordered of product `id`. */
  function QtyOf(lines: seq<OrderLine>, id: Id): int {
    if |lines| == 0 then 0
    else (if lines[0].productId == id then lines[0].quantity else 0) + QtyOf(lines[1..], id)
  }

  /** The in-transaction stock pass: for each line in order, re-read the
      product (seeing this attempt's earlier decrements), re-check its stock,
      and decrement it. Any failure aborts the whole pass. */
  function Reserve(products: map<Id, Product>, lines: seq<OrderLine>): (r: Result<map<Id, Product>, CheckoutError>)
    ensures r.Ok? ==> r.value.Keys == products.Keys
    ensures (exists i :: 0 <= i < |lines| && lines[i].productId !in products) ==> r.Err?
  {
    if |lines| == 0 then Ok(products)
    else
      var l := lines[0];
      if l.productId !in products then Err(ProductVanished)
      else
        var p := products[l.productId];
        if p.stock < l.quantity then Err(StockRaceLost(p.name, p.stock))
        else Reserve(products[l.productId := Decrement(p, l.quantity)], lines[1..])
  }

  /** A completed stock pass touches only the ordered products; each drops by
      exactly its total ordered quantity, never below zero, with availability
      recomputed; everything else is as before. */
  lemma {:induction false} ReserveEffect(products: map<Id, Product>, lines: seq<OrderLine>)
    requires Reserve(products, lines).Ok?
    ensures var out := Reserve(products, lines).value;
      && out.Keys == products.Keys
      && (forall id :: id in products && !Mentions(lines, id) ==> out[id] == products[id])
      && (forall id :: id in products && Mentions(lines, id) ==>
            out[id] == Decrement(products[id], QtyOf(lines, id)) && out[id].stock >= 0)
  {
    if |lines| > 0 {
      var l := lines[0];
      var p := products[l.productId];
      var next := products[l.productId := Decrement(p, l.quantity)];
      ReserveEffect(next, lines[1..]);
      var out := Reserve(products, lines).value;
      assert out == Reserve(next, lines[1..]).value;
      forall id | id in products && Mentions(lines, id)
        ensures out[id] == Decrement(products[id], QtyOf(lines, id)) && out[id].stock >= 0
      {
        if id == l.productId && !Mentions(lines[1..], id) {
          assert QtyOf(lines[1..], id) == 0 by { QtyOfUnmentioned(lines[1..], id); }
        }
      }
    }
  }

  lemma {:induction false} QtyOfUnmentioned(lines: seq<OrderLine>, id: Id)
    requires !Mentions(lines, id)
    ensures QtyOf(lines, id) == 0
  {
    if |lines| > 0 {
      QtyOfUnmentioned(lines[1..], id);
    }
  }

  /** No overselling: a completed stock pass never took more of a product
      than it had. */
  lemma ReserveNeverOversells(products: map<Id, Product>, lines: seq<OrderLine>)
    requires Reserve(products, lines).Ok?
    ensures forall id :: id in products && Mentions(lines, id) ==> QtyOf(lines, id) <= products[id].stock
  {
    ReserveEffect(products, lines);
  }

  lemma {:induction false} QtyOfNonNegative(lines: seq<OrderLine>, id: Id)
    requires forall i :: 0 <= i < |lines| ==> lines[i].quantity >= 0
    ensures QtyOf(lines, id) >= 0
  {
    if |lines| > 0 {
      QtyOfNonNegative(lines[1..], id);
    }
  }

  /** Conversely, the stock pass over lines with non-negative quantities
      succeeds whenever every product exists and has at least its total
      ordered quantity in stock. */
  lemma {:induction false} ReserveSucceedsWhenStockSuffices(products: map<Id, Product>, lines: seq<OrderLine>)
    requires forall i :: 0 <= i < |lines| ==> lines[i].quantity >= 0 && lines[i].productId in products
    requires forall id :: id in products ==> QtyOf(lines, id) <= products[id].stock
    ensures Reserve(products, lines).Ok?
  {
    if |lines| > 0 {
      var l := lines[0];
      var p := products[l.productId];
      QtyOfNonNegative(lines[1..], l.productId);
      assert p.stock >= l.quantity;
      var next := products[l.productId := Decrement(p, l.quantity)];
      forall id | id in next ensures QtyOf(lines[1..], id) <= next[id].stock {
      }
      ReserveSucceedsWhenStockSuffices(next, lines[1..]);
    }
  }

  /** The transaction: save the order, run the stock pass, commit. A rejected
      save or a failed pass aborts, and the attempt leaves `s` as it was. */
  function Commit(s: Store, userId: Id, lines: seq<OrderLine>, total: int, customer: Customer,
                  paymentMethod: Option<string>, orderId: Id, now: Millis): (r: Attempt)
    ensures r.result.Err? ==> r.state == s
  {
    var methodName := if paymentMethod.Some? && paymentMethod.value != "" then paymentMethod.value
                      else FallbackPaymentMethod;
    var parsed := ParsePaymentMethod(methodName);
    if parsed.None? then Attempt(s, Err(OrderRejected))
    else
      var order := NewOrder(orderId, userId, lines, total, customer, parsed, Some(Delivered),
                            Some(now + DeliveryWindow), now);
      if !OrderValid(order) then Attempt(s, Err(OrderRejected))
      else
        var session := s.(orders := s.orders + [order]);
        match Reserve(session.products, lines)
        case Err(e) => Attempt(s, Err(e))
        case Ok(products) =>
          Attempt(session.(products := products),
                  Ok(OrderSummary(order.id, order.totalAmount, order.status, order.estimatedDelivery)))
  }

  // -------------------------------------------------------------- checkout

  predicate ItemsPresent(req: OrderRequest) {
    req.items.Some? && |req.items.value| > 0
  }

  predicate CustomerPresent(req: OrderRequest) {
    req.customer.Some? && CustomerValid(req.customer.value)
  }

  /** `POST /orders`: request checks, line validation, then the transaction.
      Whatever fails, the attempt leaves the store exactly as it found it. */
  function PlaceOrder(s: Store, userId: Id, req: OrderRequest, orderId: Id, now: Millis): (r: Attempt)
    ensures r.result.Err? ==> r.state == s
    ensures !ItemsPresent(req) ==> r.result == Err(ItemsRequired)
    ensures ItemsPresent(req) && !CustomerPresent(req) ==> r.result == Err(CustomerDetailsRequired)
    ensures ItemsPresent(req) && CustomerPresent(req) && ValidateLines(s.products, req.items.value).Err? ==>
      r.result == Err(ValidateLines(s.products, req.items.value).error)
  {
    if !ItemsPresent(req) then Attempt(s, Err(ItemsRequired))
    else if !CustomerPresent(req) then Attempt(s, Err(CustomerDetailsRequired))
    else
      match ValidateLines(s.products, req.items.value)
      case Err(e) => Attempt(s, Err(e))
      case Ok(lines) =>
        Commit(s, userId, lines, LinesTotal(lines), req.customer.value, req.paymentMethod, orderId, now)
  }

  /** What a successful checkout did: it appended one valid order whose lines
      are the validated snapshots in request order, whose total is the sum of
      their subtotals and whose status is `delivered`, and it took exactly the
      ordered quantities out of stock, touching no other product. */
  lemma PlaceOrderCommitted(s: Store, userId: Id, req: OrderRequest, orderId: Id, now: Millis)
    requires PlaceOrder(s, userId, req, orderId, now).result.Ok?
    ensures ItemsPresent(req) && CustomerPresent(req)
    ensures ValidateLines(s.products, req.items.value).Ok?
    ensures var r := PlaceOrder(s, userId, req, orderId, now);
      var lines := ValidateLines(s.products, req.items.value).value;
      && |r.state.orders| == |s.orders| + 1
      && r.state.orders[..|s.orders|] == s.orders
      && var o := r.state.orders[|s.orders|];
      && o.id == orderId && o.userId == userId && o.items == lines
      && o.totalAmount == LinesTotal(lines)
      && o.customer == req.customer.value
      && o.status == Delivered && o.deliveryFee == 0
      && o.estimatedDelivery == Some(now + DeliveryWindow) && o.createdAt == now
      && OrderValid(o)
      && r.result.value == OrderSummary(orderId, o.totalAmount, Delivered, Some(now + DeliveryWindow))
      && r.state.products.Keys == s.products.Keys
      && (forall id :: id in s.products && !Mentions(lines, id) ==> r.state.products[id] == s.products[id])
      && (forall id :: id in s.products && Mentions(lines, id) ==>
            && r.state.products[id] == Decrement(s.products[id], QtyOf(lines, id))
            && 0 <= r.state.products[id].stock
            && QtyOf(lines, id) <= s.products[id].stock)
  {
    var lines := ValidateLines(s.products, req.items.value).value;
    ReserveEffect(s.products, lines);
  }

  /** Conversely, a checkout commits whenever the request is complete, its
      payment method (if any) is one of the five names, every line resolves
      to an available product in stock with a positive quantity and a
      non-empty id, every product passes its schema, and the store holds at
      least the total quantity each product is ordered in. */
  lemma PlaceOrderSucceeds(s: Store, userId: Id, req: OrderRequest, orderId: Id, now: Millis)
    requires ItemsPresent(req) && CustomerPresent(req) && userId != ""
    requires req.paymentMethod.None? || req.paymentMethod.value == "" || ParsePaymentMethod(req.paymentMethod.value).Some?
    requires forall id :: id in s.products ==> ProductValid(s.products[id])
    requires forall i :: 0 <= i < |req.items.value| ==>
      req.items.value[i].quantity >= 1 && LineRef(req.items.value[i]) != Some("")
    requires ValidateLines(s.products, req.items.value).Ok?
    requires forall id :: id in s.products ==> QtyOf(ValidateLines(s.products, req.items.value).value, id) <= s.products[id].stock
    ensures PlaceOrder(s, userId, req, orderId, now).result.Ok?
  {
    var items := req.items.value;
    var lines := ValidateLines(s.products, items).value;
    forall i | 0 <= i < |lines|
      ensures LineValid(lines[i]) && lines[i].price >= 0 && lines[i].productId in s.products
    {
      assert CheckLine(s.products, items[i]).Ok?;
      var id := LineRef(items[i]).value;
      assert lines[i] == Snapshot(id, s.products[id], items[i].quantity);
      assert ProductValid(s.products[id]);
    }
    LinesTotalNonNegative(lines);
    ReserveSucceedsWhenStockSuffices(s.products, lines);
    assert ParsePaymentMethod(FallbackPaymentMethod) == Some(CashOnDelivery);
  }

  /** The payment method recorded is the requested one, or cash on delivery
      when none was given. */
  lemma PlaceOrderPaymentMethod(s: Store, userId: Id, req: OrderRequest, orderId: Id, now: Millis)
    requires PlaceOrder(s, userId, req, orderId, now).result.Ok?
    ensures var o := PlaceOrder(s, userId, req, orderId, now).state.orders[|s.orders|];
      && (req.paymentMethod.None? || req.paymentMethod.value == "" ==> o.paymentMethod == CashOnDelivery)
      && (req.paymentMethod.Some? && req.paymentMethod.value != "" ==> PaymentName(o.paymentMethod) == req.paymentMethod.value)
  {
  }

  // ---------------------------------------------------------- invariants

  /** Every product passes its schema and every stored order passes its
      schema with a total equal to the sum of its lines. */
  predicate StoreInvariant(s: Store) {
    && (forall id :: id in s.products ==> ProductValid(s.products[id]))
    && (forall i :: 0 <= i < |s.orders| ==>
          OrderValid(s.orders[i]) && s.orders[i].totalAmount == LinesTotal(s.orders[i].items))
  }

  /** Checkout keeps the store invariant: in particular no stock goes negative. */
  lemma PlaceOrderPreservesInvariant(s: Store, userId: Id, req: OrderRequest, orderId: Id, now: Millis)
    requires StoreInvariant(s)
    ensures StoreInvariant(PlaceOrder(s, userId, req, orderId, now).state)
  {
    var r := PlaceOrder(s, userId, req, orderId, now);
    if r.result.Ok? {
      PlaceOrderCommitted(s, userId, req, orderId, now);
      var o := r.state.orders[|s.orders|];
      forall i | 0 <= i < |r.state.orders|
        ensures OrderValid(r.state.orders[i]) && r.state.orders[i].totalAmount == LinesTotal(r.state.orders[i].items)
      {
        if i < |s.orders| {
          assert r.state.orders[i] == r.state.orders[..|s.orders|][i];
        }
      }
    }
  }

  /** Checkout keeps every product's availability in step with its stock when
      it was in step before. */
  lemma PlaceOrderKeepsAvailabilityRule(s: Store, userId: Id, req: OrderRequest, orderId: Id, now: Millis)
    requires forall id :: id in s.products ==> AvailabilityMatchesStock(s.products[id])
    ensures var t := PlaceOrder(s, userId, req, orderId, now).state;
      forall id :: id in t.products ==> AvailabilityMatchesStock(t.products[id])
  {
    var r := PlaceOrder(s, userId, req, orderId, now);
    if r.result.Ok? {
      PlaceOrderCommitted(s, userId, req, orderId, now);
    }
  }

  /** Two checkouts one after the other against the same store: neither can
      drive any stock below zero. */
  lemma SequentialCheckoutsNeverOversell(s: Store, u1: Id, req1: OrderRequest, id1: Id,
                                         u2: Id, req2: OrderRequest, id2: Id, now: Millis)
    requires StoreInvariant(s)
    ensures var s1 := PlaceOrder(s, u1, req1, id1, now).state;
      var s2 := PlaceOrder(s1, u2, req2, id2, now).state;
      StoreInvariant(s2) && forall id :: id in s2.products ==> s2.products[id].stock >= 0
  {
    PlaceOrderPreservesInvariant(s, u1, req1, id1, now);
    var s1 := PlaceOrder(s, u1, req1, id1, now).state;
    PlaceOrderPreservesInvariant(s1, u2, req2, id2, now);
  }

  /** Retrying a failed checkout with the same input fails the same way,
      since the failed attempt changed nothing. */
  lemma FailedCheckoutRetryIsSame(s: Store, userId: Id, req: OrderRequest, orderId: Id, now: Millis)
    requires PlaceOrder(s, userId, req, orderId, now).result.Err?
    ensures var r := PlaceOrder(s, userId, req, orderId, now);
      PlaceOrder(r.state, userId, req, orderId, now) == r
  {
  }

  // ----------------------------------------------------------- scenarios

  const Chips: Product := Product("Chips", 30, "Snacks", None, None, 5, true, 0)

  function ChipsStore(): Store {
    Store(map["chips" := Chips], [])
  }

  function ChipsRequest(lines: seq<RequestLine>): OrderRequest {
    OrderRequest(Some(lines), Some(Customer("Asha", "asha@example.com", "1 Road", "Pune", "411001", None)), None)
  }

  /** Stock 5, two checkouts of 3 units one after the other: the first
      commits and leaves 2, the second is refused reporting 2 available. */
  lemma CompetingCheckouts()
    ensures var line := RequestLine(Some("chips"), None, "Chips", 3);
      var first := PlaceOrder(ChipsStore(), "u1", ChipsRequest([line]), "o1", 1000);
      var second := PlaceOrder(first.state, "u2", ChipsRequest([line]), "o2", 2000);
      && first.result.Ok? && first.state.products["chips"].stock == 2
      && second.result == Err(InsufficientStock("Chips", 2))
      && second.state == first.state
  {
    var line := RequestLine(Some("chips"), None, "Chips", 3);
    var first := PlaceOrder(ChipsStore(), "u1", ChipsRequest([line]), "o1", 1000);
    assert CheckLine(ChipsStore().products, line) == Ok(Snapshot("chips", Chips, 3));
    var snap := [Snapshot("chips", Chips, 3)];
    assert [line][0] == line;
    var validated := ValidateLines(ChipsStore().products, [line]);
    assert validated.Ok? && |validated.value| == 1 && validated.value[0] == snap[0];
    assert validated.value == snap;
    assert snap[1..] == [];
    assert Mentions(snap, "chips") && QtyOf(snap, "chips") == 3;
    PlaceOrderSucceeds(ChipsStore(), "u1", ChipsRequest([line]), "o1", 1000);
    PlaceOrderCommitted(ChipsStore(), "u1", ChipsRequest([line]), "o1", 1000);
    assert first.state.products["chips"].stock == 2;
    assert CheckLine(first.state.products, line) == Err(InsufficientStock("Chips", 2));
    ValidateLinesFirstFailure(first.state.products, [line], 0);
  }

  /** The same product on two lines of one checkout: each line passes
      validation alone, the in-transaction re-check refuses the second, and
      nothing is saved or decremented. */
  lemma DuplicateLinesCaughtInTransaction()
    ensures var line := RequestLine(Some("chips"), None, "Chips", 3);
      var r := PlaceOrder(ChipsStore(), "u1", ChipsRequest([line, line]), "o1", 1000);
      && ValidateLines(ChipsStore().products, [line, line]).Ok?
      && r.result == Err(StockRaceLost("Chips", 2))
      && r.state == ChipsStore()
  {
    var line := RequestLine(Some("chips"), None, "Chips", 3);
    var lines := ValidateLines(ChipsStore().products, [line, line]).value;
    assert lines == [Snapshot("chips", Chips, 3), Snapshot("chips", Chips, 3)];
    var after := ChipsStore().products["chips" := Decrement(Chips, 3)];
    assert Reserve(ChipsStore().products, lines) == Reserve(after, lines[1..]);
  }

  /** Totals and per-product quantities of a two-line order for two
      different products. */
  lemma TwoLineSums(x: OrderLine, y: OrderLine)
    requires x.productId != y.productId
    ensures LinesTotal([x, y]) == Subtotal(x) + Subtotal(y)
    ensures QtyOf([x, y], x.productId) == x.quantity && QtyOf([x, y], y.productId) == y.quantity
    ensures Mentions([x, y], x.productId) && Mentions([x, y], y.productId)
  {
    var xs, ys := [x, y], [y];
    assert xs[0] == x && xs[1..] == ys && ys[0] == y && ys[1..] == [];
    assert QtyOf(ys, x.productId) == 0 && QtyOf(ys, y.productId) == y.quantity;
    assert LinesTotal(ys) == Subtotal(y);
    assert Mentions(ys, y.productId);
  }

  /** Two lines, 100 x 2 and 50 x 1: the order total is 250 and the stocks
      drop by 2 and by 1. */
  lemma TwoLineTotal()
    ensures var a := Product("A", 100, "Snacks", None, None, 10, true, 0);
      var b := Product("B", 50, "Snacks", None, None, 4, true, 0);
      var s := Store(map["a" := a, "b" := b], []);
      var req := ChipsRequest([RequestLine(Some("a"), None, "A", 2), RequestLine(Some("b"), None, "B", 1)]);
      var r := PlaceOrder(s, "u1", req, "o1", 0);
      && r.result.Ok? && r.result.value.totalAmount == 250
      && "a" in r.state.products && "b" in r.state.products
      && r.state.products["a"].stock == 8 && r.state.products["b"].stock == 3
  {
    var a := Product("A", 100, "Snacks", None, None, 10, true, 0);
    var b := Product("B", 50, "Snacks", None, None, 4, true, 0);
    var s := Store(map["a" := a, "b" := b], []);
    var reqLines := [RequestLine(Some("a"), None, "A", 2), RequestLine(Some("b"), None, "B", 1)];
    var req := ChipsRequest(reqLines);
    var x, y := Snapshot("a", a, 2), Snapshot("b", b, 1);
    assert CheckLine(s.products, reqLines[0]) == Ok(x);
    assert CheckLine(s.products, reqLines[1]) == Ok(y);
    var validated := ValidateLines(s.products, reqLines);
    assert validated.Ok? && |validated.value| == 2 && validated.value[0] == x && validated.value[1] == y;
    assert validated.value == [x, y];
    TwoLineSums(x, y);
    PlaceOrderSucceeds(s, "u1", req, "o1", 0);
    PlaceOrderCommitted(s, "u1", req, "o1", 0);
  }

  // ------------------------------------------------------ reads and status

  /** The first order in the history with id `id` owned by `userId`. */
  function GetOrder(orders: seq<Order>, id: Id, userId: Id): (r: Option<Order>)
    ensures r.Some? ==> r.value in orders && r.value.id == id && r.value.userId == userId
    ensures r.None? ==> forall o :: o in orders ==> !(o.id == id && o.userId == userId)
  {
    if |orders| == 0 then None
    else if orders[0].id == id && orders[0].userId == userId then Some(orders[0])
    else GetOrder(orders[1..], id, userId)
  }

  /** The orders owned by `userId`, each as often as it is stored. */
  function OwnedBy(orders: seq<Order>, userId: Id): (r: seq<Order>)
    ensures forall o :: multiset(r)[o] == (if o.userId == userId then multiset(orders)[o] else 0)
  {
    if |orders| == 0 then []
    else
      assert orders == [orders[0]] + orders[1..];
      (if orders[0].userId == userId then [orders[0]] else []) + OwnedBy(orders[1..], userId)
  }

  function CreatedAt(o: Order): int {
    o.createdAt
  }

  /** `GET /orders`: the caller's orders, newest first. */
  function ListOrders(orders: seq<Order>, userId: Id): (r: seq<Order>)
    ensures forall o :: o in r ==> o in orders && o.userId == userId
    ensures forall o :: o in orders && o.userId == userId ==> o in r
    ensures multiset(r) == multiset(OwnedBy(orders, userId))
    ensures Ordering.SortedDesc(r, CreatedAt)
  {
    var r := Ordering.SortDesc(OwnedBy(orders, userId), CreatedAt);
    assert forall o :: o in r <==> multiset(r)[o] > 0;
    r
  }

  datatype StatusError = InvalidStatus | OrderNotFound

  /** Index of the first order with id `id`. */
  function FindOrder(orders: seq<Order>, id: Id): (r: Option<nat>)
    ensures r.Some? ==> (r.value < |orders| && orders[r.value].id == id
      && forall j :: 0 <= j < r.value ==> orders[j].id != id)
    ensures r.None? ==> forall j :: 0 <= j < |orders| ==> orders[j].id != id
  {
    if |orders| == 0 then None
    else if orders[0].id == id then Some(0)
    else match FindOrder(orders[1..], id)
      case None => None
      case Some(k) => Some(k + 1)
  }

  /** `PATCH /orders/:id/status`: the status must be one of the six names;
      any order may move to any status; nothing but that order's status
      changes. The lookup is by id alone (administrative). */
  function UpdateStatus(orders: seq<Order>, id: Id, status: string): (r: Result<(seq<Order>, Order), StatusError>)
    ensures ParseStatus(status).None? <==> r == Err(InvalidStatus)
    ensures ParseStatus(status).Some? && (forall o :: o in orders ==> o.id != id) ==> r == Err(OrderNotFound)
    ensures ParseStatus(status).Some? && (exists o :: o in orders && o.id == id) ==>
      r.Ok? && r.value.1.status == ParseStatus(status).value
    ensures r.Ok? ==>
      var (updated, order) := r.value;
      && |updated| == |orders|
      && StatusName(order.status) == status
      && exists k :: 0 <= k < |orders| && orders[k].id == id
           && (forall j :: 0 <= j < k ==> orders[j].id != id)
           && order == orders[k].(status := order.status)
           && updated == orders[k := order]
  {
    match ParseStatus(status)
    case None => Err(InvalidStatus)
    case Some(st) =>
      match FindOrder(orders, id)
      case None => Err(OrderNotFound)
      case Some(k) =>
        var order := orders[k].(status := st);
        Ok((orders[k := order], order))
  }

  /** Setting the same status a second time changes nothing: the update
      keeps every id in place, so the second lookup finds the same order. */
  lemma UpdateStatusIdempotent(orders: seq<Order>, id: Id, status: string)
    requires UpdateStatus(orders, id, status).Ok?
    ensures var (once, order) := UpdateStatus(orders, id, status).value;
      UpdateStatus(once, id, status) == Ok((once, order))
  {
    var (once, order) := UpdateStatus(orders, id, status).value;
    var k := FindOrder(orders, id).value;
    assert forall j :: 0 <= j < |once| ==> once[j].id == orders[j].id;
    assert once[k].id == id;
    var k' := FindOrder(once, id).value;
    assert k' == k;
    var st := ParseStatus(status).value;
    assert order == orders[k].(status := st);
    assert once[k] == order && order.(status := st) == order;
    assert once[k := order] == once;
  }
}
