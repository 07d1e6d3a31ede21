/**
  The two persisted record shapes of the order/inventory core: products and
  orders, with the enumerations, defaults and bounds their schemas declare.
  A record "passes the schema" when `ProductValid` / `OrderValid` holds; a
  save of a record that does not is rejected by the store.
 */
module Schema {
  import opened Wrappers

  /** Document identifiers (product, order and user ids). */
  type Id = string

  /** Milliseconds since the epoch. */
  type Millis = int

  // ---------------------------------------------------------------- products

  /** A catalog entry. `image` and `description` are optional. */
  datatype Product = Product(
    name: string,
    price: int,
    category: string,
    image: Option<string>,
    description: Option<string>,
    stock: int,
    isAvailable: bool,
    createdAt: Millis)

  /** The product schema: `name` and `category` required (an empty string
      fails `required`), `price >= 0`, `stock >= 0`. */
  predicate ProductValid(p: Product) {
    && p.name != ""
    && p.category != ""
    && p.price >= 0
    && p.stock >= 0
  }

  /** The inventory rule that the write paths try to keep: a product is
      offered exactly when it has stock. The schema does not enforce it. */
  predicate AvailabilityMatchesStock(p: Product) {
    p.isAvailable == (p.stock > 0)
  }

  const DefaultStock: int := 0
  const DefaultAvailability: bool := true

  /** A new product document with the schema defaults filled in for the
      fields the caller leaves out. */
  function NewProduct(name: string, price: int, category: string, image: Option<string>,
                      description: Option<string>, stock: Option<int>,
                      isAvailable: Option<bool>, now: Millis): (p: Product)
    ensures p.stock == (if stock.Some? then stock.value else 0)
    ensures p.isAvailable == (if isAvailable.Some? then isAvailable.value else true)
    ensures p.name == name && p.price == price && p.category == category
    ensures p.image == image && p.description == description && p.createdAt == now
  {
    Product(name, price, category, image, description,
            stock.GetOr(DefaultStock), isAvailable.GetOr(DefaultAvailability), now)
  }

  /** Availability defaults to true whatever the stock: a product created with
      no stock and no explicit flag passes the schema yet is offered while
      empty. */
  lemma DefaultsBreakAvailabilityRule()
    ensures var p := NewProduct("Samosa", 20, "Snacks", None, None, None, None, 0);
      ProductValid(p) && p.stock == 0 && p.isAvailable && !AvailabilityMatchesStock(p)
  {
  }

  // ---------------------------------------------------------------- orders

  /** The order status enumeration. */
  datatype Status = Pending | Confirmed | Preparing | OutForDelivery | Delivered | Cancelled

  const DefaultStatus: Status := Pending

  /** The wire spelling of a status. */
  function StatusName(s: Status): string {
    match s
    case Pending => "pending"
    case Confirmed => "confirmed"
    case Preparing => "preparing"
    case OutForDelivery => "out_for_delivery"
    case Delivered => "delivered"
    case Cancelled => "cancelled"
  }

  /** Accepts exactly the six enumerated spellings. */
  function ParseStatus(text: string): (r: Option<Status>)
    ensures r.Some? ==> StatusName(r.value) == text
    ensures r.None? ==> forall s: Status :: StatusName(s) != text
  {
    if text == "pending" then Some(Pending)
    else if text == "confirmed" then Some(Confirmed)
    else if text == "preparing" then Some(Preparing)
    else if text == "out_for_delivery" then Some(OutForDelivery)
    else if text == "delivered" then Some(Delivered)
    else if text == "cancelled" then Some(Cancelled)
    else None
  }

  lemma ParseStatusName(s: Status)
    ensures ParseStatus(StatusName(s)) == Some(s)
  {
  }

  /** The payment-method enumeration. */
  datatype PaymentMethod = CreditCard | DebitCard | Upi | NetBanking | CashOnDelivery

  const DefaultPaymentMethod: PaymentMethod := CashOnDelivery

  function PaymentName(m: PaymentMethod): string {
    match m
    case CreditCard => "Credit Card"
    case DebitCard => "Debit Card"
    case Upi => "UPI"
    case NetBanking => "Net Banking"
    case CashOnDelivery => "Cash on Delivery"
  }

  /** Accepts exactly the five enumerated spellings. */
  function ParsePaymentMethod(text: string): (r: Option<PaymentMethod>)
    ensures r.Some? ==> PaymentName(r.value) == text
    ensures r.None? ==> forall m: PaymentMethod :: PaymentName(m) != text
  {
    if text == "Credit Card" then Some(CreditCard)
    else if text == "Debit Card" then Some(DebitCard)
    else if text == "UPI" then Some(Upi)
    else if text == "Net Banking" then Some(NetBanking)
    else if text == "Cash on Delivery" then Some(CashOnDelivery)
    else None
  }

  lemma ParsePaymentName(m: PaymentMethod)
    ensures ParsePaymentMethod(PaymentName(m)) == Some(m)
  {
  }

  /** A line of a placed order: a snapshot of the product taken when the
      order was created. */
  datatype OrderLine = OrderLine(
    productId: Id,
    name: string,
    price: int,
    quantity: int,
    image: Option<string>)

  /** `productId`, `name` and `price` are required and `quantity >= 1`. */
  predicate LineValid(l: OrderLine) {
    l.productId != "" && l.name != "" && l.quantity >= 1
  }

  /** Shipping and contact details; `phone` is the only optional field. */
  datatype Customer = Customer(
    name: string,
    email: string,
    address: string,
    city: string,
    pincode: string,
    phone: Option<string>)

  predicate CustomerValid(c: Customer) {
    c.name != "" && c.email != "" && c.address != "" && c.city != "" && c.pincode != ""
  }

  datatype Order = Order(
    id: Id,
    userId: Id,
    items: seq<OrderLine>,
    totalAmount: int,
    customer: Customer,
    paymentMethod: PaymentMethod,
    status: Status,
    deliveryFee: int,
    estimatedDelivery: Option<Millis>,
    createdAt: Millis)

  /** The order schema: owner required, every line valid, `totalAmount >= 0`,
      customer details present. The two enumerations hold by typing. */
  predicate OrderValid(o: Order) {
    && o.userId != ""
    && (forall i :: 0 <= i < |o.items| ==> LineValid(o.items[i]))
    && o.totalAmount >= 0
    && CustomerValid(o.customer)
  }

  const DefaultDeliveryFee: int := 0

  /** A new order document with the schema defaults for payment method,
      status and delivery fee. */
  function NewOrder(id: Id, userId: Id, items: seq<OrderLine>, totalAmount: int, customer: Customer,
                    paymentMethod: Option<PaymentMethod>, status: Option<Status>,
                    estimatedDelivery: Option<Millis>, now: Millis): (o: Order)
    ensures o.paymentMethod == (if paymentMethod.Some? then paymentMethod.value else CashOnDelivery)
    ensures o.status == (if status.Some? then status.value else Pending)
    ensures o.deliveryFee == 0
    ensures o.id == id && o.userId == userId && o.items == items && o.totalAmount == totalAmount
    ensures o.customer == customer && o.estimatedDelivery == estimatedDelivery && o.createdAt == now
  {
    Order(id, userId, items, totalAmount, customer, paymentMethod.GetOr(DefaultPaymentMethod),
          status.GetOr(DefaultStatus), DefaultDeliveryFee, estimatedDelivery, now)
  }

  /** Price times quantity of one line. */
  function Subtotal(l: OrderLine): int {
    l.price * l.quantity
  }

  /** Sum of the line subtotals, in line order. */
  function LinesTotal(lines: seq<OrderLine>): int
  {
    if |lines| == 0 then 0 else Subtotal(lines[0]) + LinesTotal(lines[1..])
  }

  /** Splitting a line list splits its total. */
  lemma {:induction false} LinesTotalAppend(a: seq<OrderLine>, b: seq<OrderLine>)
    ensures LinesTotal(a + b) == LinesTotal(a) + LinesTotal(b)
  {
    if |a| > 0 {
      assert (a + b)[1..] == a[1..] + b;
      LinesTotalAppend(a[1..], b);
    } else {
      assert a + b == b;
    }
  }

  /** Lines with non-negative prices and quantities have a non-negative total. */
  lemma {:induction false} LinesTotalNonNegative(lines: seq<OrderLine>)
    requires forall i :: 0 <= i < |lines| ==> lines[i].price >= 0 && lines[i].quantity >= 0
    ensures LinesTotal(lines) >= 0
  {
    if |lines| > 0 {
      LinesTotalNonNegative(lines[1..]);
    }
  }
}
