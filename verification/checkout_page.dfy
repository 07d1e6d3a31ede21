/**
  The checkout page: the form and its prefill from a saved profile, the
  gate on the five delivery fields, the order request it posts, the clear
  that follows, and the normalisation of lines restored from a saved cart.
 */
module CheckoutPage {
  import opened Wrappers
  import opened JsText
  import opened Schema
  import CartPage
  import OrderRoutes

  /** The delivery form; the payment is one of the select's options, which
      are exactly the order schema's payment methods. */
  datatype CheckoutForm = CheckoutForm(
    name: string, email: string, address: string, city: string, pincode: string,
    payment: PaymentMethod)

  const InitialForm := CheckoutForm("", "", "", "", "", CreditCard)

  /** A profile saved by the browser; its `location` is the street address. */
  datatype SavedProfile = SavedProfile(
    name: Option<string>, email: Option<string>, city: Option<string>,
    pincode: Option<string>, location: Option<string>)

  /** `saved || fallback` for an optional text. */
  function Or(saved: Option<string>, fallback: string): (r: string)
    ensures saved.Some? && saved.value != "" ==> r == saved.value
    ensures saved.None? || saved.value == "" ==> r == fallback
  {
    if saved.Some? && saved.value != "" then saved.value else fallback
  }

  /** The prefill on opening the page: each truthy saved field replaces the
      form's, the address from the saved `location`; payment is untouched. */
  function Prefill(form: CheckoutForm, saved: Option<SavedProfile>): (r: CheckoutForm)
    ensures saved.None? ==> r == form
    ensures r.payment == form.payment
    ensures saved.Some? ==>
      && r.name == Or(saved.value.name, form.name)
      && r.email == Or(saved.value.email, form.email)
      && r.city == Or(saved.value.city, form.city)
      && r.pincode == Or(saved.value.pincode, form.pincode)
      && r.address == Or(saved.value.location, form.address)
  {
    match saved
    case None => form
    case Some(p) =>
      form.(name := Or(p.name, form.name), email := Or(p.email, form.email),
            city := Or(p.city, form.city), pincode := Or(p.pincode, form.pincode),
            address := Or(p.location, form.address))
  }

  /** The gate in front of the request: all five delivery fields filled. */
  predicate CanPlace(f: CheckoutForm) {
    f.name != "" && f.email != "" && f.address != "" && f.city != "" && f.pincode != ""
  }

  /** The prefill never empties a field, so it never closes the gate, and
      applying it twice is applying it once. */
  lemma PrefillKeepsGateOpen(form: CheckoutForm, saved: Option<SavedProfile>)
    ensures CanPlace(form) ==> CanPlace(Prefill(form, saved))
    ensures Prefill(Prefill(form, saved), saved) == Prefill(form, saved)
  {
  }

  datatype PayloadLine = PayloadLine(productId: string, quantity: int)
  datatype PayloadCustomer = PayloadCustomer(name: string, email: string, address: string, city: string, pincode: string)
  datatype OrderPayload = OrderPayload(items: seq<PayloadLine>, customer: PayloadCustomer, paymentMethod: string)

  function PayloadLines(items: seq<CartPage.Item>): (r: seq<PayloadLine>)
    ensures |r| == |items|
    ensures forall k :: 0 <= k < |r| ==> r[k].productId == items[k].id && r[k].quantity == items[k].quantity
  {
    if |items| == 0 then [] else [PayloadLine(items[0].id, items[0].quantity)] + PayloadLines(items[1..])
  }

  /** The request body: the lines as product id and quantity, in cart
      order, exactly the five delivery fields, and the payment's name. */
  function BuildPayload(items: seq<CartPage.Item>, f: CheckoutForm): (p: OrderPayload)
    ensures p.items == PayloadLines(items)
    ensures p.customer == PayloadCustomer(f.name, f.email, f.address, f.city, f.pincode)
    ensures ParsePaymentMethod(p.paymentMethod) == Some(f.payment)
  {
    ParsePaymentName(f.payment);
    OrderPayload(PayloadLines(items), PayloadCustomer(f.name, f.email, f.address, f.city, f.pincode), PaymentName(f.payment))
  }

  /** The order route's reading of that body: no legacy id, no line names,
      no phone. */
  function AsRequest(p: OrderPayload): (req: OrderRoutes.OrderRequest)
    ensures req.items.Some? && |req.items.value| == |p.items|
    ensures forall k :: 0 <= k < |p.items| ==>
      OrderRoutes.LineRef(req.items.value[k]) == (if p.items[k].productId != "" then Some(p.items[k].productId) else None)
      && req.items.value[k].quantity == p.items[k].quantity
  {
    var lines := seq(|p.items|, k requires 0 <= k < |p.items| =>
      OrderRoutes.RequestLine(Some(p.items[k].productId), None, "", p.items[k].quantity));
    OrderRoutes.OrderRequest(
      Some(lines),
      Some(Customer(p.customer.name, p.customer.email, p.customer.address, p.customer.city, p.customer.pincode, None)),
      Some(p.paymentMethod))
  }

  /** A request the page lets through passes the order route's presence
      checks whenever the cart has a line, and names the payment chosen. */
  lemma PayloadPassesRequestChecks(items: seq<CartPage.Item>, f: CheckoutForm)
    requires CanPlace(f)
    ensures var req := AsRequest(BuildPayload(items, f));
      && (OrderRoutes.ItemsPresent(req) <==> |items| > 0)
      && OrderRoutes.CustomerPresent(req)
      && req.paymentMethod.Some? && ParsePaymentMethod(req.paymentMethod.value) == Some(f.payment)
  {
  }

  /** The page's gate is exactly the order route's customer check on the
      body the page sends: it lets through precisely the forms the server
      would accept the delivery details of. */
  lemma GateIsServerCheck(items: seq<CartPage.Item>, f: CheckoutForm)
    ensures CanPlace(f) <==> OrderRoutes.CustomerPresent(AsRequest(BuildPayload(items, f)))
  {
  }

  /** What pressing "place order" does. */
  datatype Outcome = Outcome(posted: Option<OrderPayload>, clearSent: bool, orderPlaced: bool)

  /** `handlePlaceOrder`: nothing is sent when the gate is shut; the cart is
      cleared only after the order was accepted (`postOk`); the page shows
      the order as placed only when the clear succeeded too (`clearOk`). */
  function PlaceOrderFlow(f: CheckoutForm, items: seq<CartPage.Item>, postOk: bool, clearOk: bool): (r: Outcome)
    ensures !CanPlace(f) ==> r == Outcome(None, false, false)
    ensures CanPlace(f) ==> r.posted == Some(BuildPayload(items, f))
    ensures r.clearSent <==> CanPlace(f) && postOk
    ensures r.orderPlaced <==> CanPlace(f) && postOk && clearOk
    ensures r.orderPlaced ==> r.clearSent && r.posted.Some?
  {
    if !CanPlace(f) then Outcome(None, false, false)
    else
      var payload := BuildPayload(items, f);
      if !postOk then Outcome(Some(payload), false, false)
      else Outcome(Some(payload), true, clearOk)
  }

  /** A line restored from a saved cart: price and quantity as stored. */
  datatype SavedItem = SavedItem(id: string, price: JsValue, quantity: JsValue)

  /** `Number(price) || 0` and `Number(quantity) || 1`. */
  function Normalize(s: SavedItem): (it: CartPage.Item)
    ensures it.id == s.id
    ensures it.quantity != 0
    ensures NumberOf(s.price).Num? ==> it.price == NumberOf(s.price).n
    ensures NumberOf(s.price).NaN? ==> it.price == 0
    ensures NumberOf(s.quantity).Truthy() ==> it.quantity == NumberOf(s.quantity).n
    ensures !NumberOf(s.quantity).Truthy() ==> it.quantity == 1
  {
    var p := NumberOf(s.price);
    var q := NumberOf(s.quantity);
    CartPage.Item(s.id, if p.Truthy() then p.n else 0, if q.Truthy() then q.n else 1)
  }

  /** A line saved as numbers, or as the text those numbers print as, comes
      back as it was, provided its quantity is not zero. */
  lemma NormalizeRoundTrip(it: CartPage.Item)
    requires it.quantity != 0
    ensures Normalize(SavedItem(it.id, Number(it.price), Number(it.quantity))) == it
    ensures Normalize(SavedItem(it.id, Str(IntToText(it.price)), Str(IntToText(it.quantity)))) == it
  {
    ToNumberOfIntToText(it.price);
    ToNumberOfIntToText(it.quantity);
  }

  function NormalizeAll(saved: seq<SavedItem>): (r: seq<CartPage.Item>)
    ensures |r| == |saved|
    ensures forall k :: 0 <= k < |r| ==> r[k] == Normalize(saved[k])
  {
    if |saved| == 0 then [] else [Normalize(saved[0])] + NormalizeAll(saved[1..])
  }

  /** Unreadable prices count as 0 and unreadable quantities as 1 in the
      page's total. */
  lemma UnreadableLineTotal(id: string)
    ensures CartPage.Total(NormalizeAll([SavedItem(id, Str("abc"), Undefined)])) == 0
    ensures CartPage.Total(NormalizeAll([SavedItem(id, Number(40), Str("x"))])) == 40
  {
    LettersAreNaN("abc");
    LettersAreNaN("x");
    CartPage.TotalSingle(Normalize(SavedItem(id, Str("abc"), Undefined)));
    CartPage.TotalSingle(Normalize(SavedItem(id, Number(40), Str("x"))));
  }
}
