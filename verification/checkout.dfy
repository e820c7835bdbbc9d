/** The signed-in checkout page: the cart becomes an order with shipping
    details and a payment method. */
module Checkout {
  import opened Wrappers
  import opened Text
  import opened Seqs
  import opened Constants
  import opened Types
  import Orders

  /** The page's text fields. */
  datatype CheckoutForm = CheckoutForm(
    address: string,
    city: string,
    phone: string,
    notes: string,
    bkashNumber: string,
    nagadNumber: string,
    transactionId: string)

  /** The form on arrival: the phone is prefilled from the signed-in user. */
  function InitialForm(user: Option<User>): (f: CheckoutForm)
    ensures f.address == "" && f.city == "" && f.notes == ""
    ensures f.bkashNumber == "" && f.nagadNumber == "" && f.transactionId == ""
    ensures user.Some? ==> f.phone == user.value.phone
    ensures user.None? ==> f.phone == ""
  {
    CheckoutForm("", "", if user.Some? then user.value.phone else "", "", "", "", "")
  }

  datatype CheckoutError = MissingBkashNumber | MissingNagadNumber

  /** The payment checks of `handleSubmit`: a wallet needs its own number typed.
      The test is on the raw field, so a number of only spaces passes. */
  function ValidatePayment(f: CheckoutForm, m: PaymentMethod): (r: Result<(), CheckoutError>)
    ensures r == Err(MissingBkashNumber) <==> m == Bkash && |f.bkashNumber| == 0
    ensures r == Err(MissingNagadNumber) <==> m == Nagad && |f.nagadNumber| == 0
    ensures m == Cod ==> r.Ok?
  {
    if m == Bkash && f.bkashNumber == "" then Err(MissingBkashNumber)
    else if m == Nagad && f.nagadNumber == "" then Err(MissingNagadNumber)
    else Ok(())
  }

  /** One cart entry as an order line; a product that is not loaded gives an
      empty name and a zero price. */
  function LineFromCart(c: CartItem): (item: OrderItem)
    ensures item.productId == c.productId && item.quantity == c.quantity
    ensures c.product.Some? ==> item.productName == c.product.value.name && item.price == c.product.value.price
    ensures c.product.None? ==> item.productName == "" && item.price == 0
  {
    match c.product
    case Some(p) => OrderItem(c.productId, p.name, c.quantity, p.price)
    case None => OrderItem(c.productId, "", c.quantity, 0)
  }

  /** `orderItems`: the cart, entry by entry, in cart order. */
  function OrderItems(cart: seq<CartItem>): (r: seq<OrderItem>)
    ensures |r| == |cart|
    ensures forall i :: 0 <= i < |cart| ==> r[i] == LineFromCart(cart[i])
  {
    seq(|cart|, i requires 0 <= i < |cart| => LineFromCart(cart[i]))
  }

  /** The order summary's line amount: `(price || 0) * quantity`. */
  function SummaryAmount(c: CartItem): int {
    (if c.product.Some? then c.product.value.price else 0) * c.quantity
  }

  /** The summary shows, line for line, the amounts the order will record. */
  lemma SummaryMatchesOrderLines(cart: seq<CartItem>)
    ensures forall i :: 0 <= i < |cart| ==> Orders.LineAmount(OrderItems(cart)[i]) == SummaryAmount(cart[i])
    ensures Orders.ItemsSum(OrderItems(cart)) == Sum(cart, SummaryAmount)
  {
    var items := OrderItems(cart);
    forall i | 0 <= i < |cart|
      ensures Orders.LineAmount(items[i]) == SummaryAmount(cart[i])
    {
      assert items[i] == LineFromCart(cart[i]);
    }
    SumPointwise(items, Orders.LineAmount, cart, SummaryAmount);
  }

  /** `paymentNotes`: the wallet name and the number used, then the transaction
      id when one was typed; nothing for cash on delivery. */
  function PaymentNotes(f: CheckoutForm, m: PaymentMethod): (r: string)
    ensures m == Cod <==> r == ""
    ensures m == Bkash ==> StartsWith(r, "bKash: " + f.bkashNumber)
    ensures m == Nagad ==> StartsWith(r, "Nagad: " + f.nagadNumber)
    ensures m.IsWallet() && f.transactionId == "" ==> r == (if m == Bkash then "bKash: " + f.bkashNumber else "Nagad: " + f.nagadNumber)
    ensures m.IsWallet() && f.transactionId != "" ==>
      r == (if m == Bkash then "bKash: " + f.bkashNumber else "Nagad: " + f.nagadNumber) + ", TxnID: " + f.transactionId
  {
    var txn := if f.transactionId != "" then ", TxnID: " + f.transactionId else "";
    match m
    case Bkash => "bKash: " + f.bkashNumber + txn
    case Nagad => "Nagad: " + f.nagadNumber + txn
    case Cod => ""
  }

  /** The wallet's number as the notes name it. */
  function WalletNumber(f: CheckoutForm, m: PaymentMethod): string {
    if m == Bkash then f.bkashNumber else f.nagadNumber
  }

  /** For a fixed wallet number, the payment notes tell transaction ids apart:
      two forms give the same notes exactly when they typed the same id. */
  lemma PaymentNotesRecordTransaction(f: CheckoutForm, g: CheckoutForm, m: PaymentMethod)
    requires m.IsWallet() && WalletNumber(f, m) == WalletNumber(g, m)
    ensures PaymentNotes(f, m) == PaymentNotes(g, m) <==> f.transactionId == g.transactionId
  {
    var head := (if m == Bkash then "bKash: " else "Nagad: ") + WalletNumber(f, m);
    var x, y := f.transactionId, g.transactionId;
    var nf, ng := PaymentNotes(f, m), PaymentNotes(g, m);
    assert |nf| == |head| + (if x == "" then 0 else 9 + |x|);
    assert |ng| == |head| + (if y == "" then 0 else 9 + |y|);
    if x != "" && y != "" {
      assert nf[|head| + 9..] == x;
      assert ng[|head| + 9..] == y;
    }
  }

  /** `parts.join(sep)`. */
  function Join(parts: seq<string>, sep: string): string {
    if |parts| == 0 then ""
    else if |parts| == 1 then parts[0]
    else parts[0] + sep + Join(parts[1..], sep)
  }

  /** `[notes, paymentNotes].filter(Boolean).join(" | ") || null`: the
      non-empty parts of the two joined, or no notes at all. */
  function CombineNotes(notes: string, payment: string): (r: Option<string>)
    ensures r.None? <==> notes == "" && payment == ""
    ensures notes != "" && payment != "" ==> r == Some(notes + " | " + payment)
    ensures notes != "" && payment == "" ==> r == Some(notes)
    ensures notes == "" && payment != "" ==> r == Some(payment)
  {
    var parts := (if notes != "" then [notes] else []) + (if payment != "" then [payment] else []);
    assert |parts| == 2 ==> parts[0] == notes && parts[1..] == [payment] && Join(parts[1..], " | ") == payment;
    var joined := Join(parts, " | ");
    if joined == "" then None else Some(joined)
  }

  /** The row inserted for the signed-in user. The shipping fields are sent as
      typed, and the total is the cart's own total. */
  function CheckoutOrder(user: User, cart: seq<CartItem>, cartTotal: int, f: CheckoutForm, m: PaymentMethod): (o: OrderData)
    ensures o.userId == Some(user.id) && o.isGuest.None? && o.guestName.None? && o.guestPhone.None?
    ensures o.status == Pending && o.paymentMethod == m.Code() && o.total == cartTotal
    ensures o.items == OrderItems(cart)
    ensures o.shippingAddress == f.address && o.shippingCity == f.city && o.shippingPhone == f.phone
    ensures o.notes == CombineNotes(f.notes, PaymentNotes(f, m))
  {
    OrderData(
      userId := Some(user.id),
      isGuest := None,
      guestName := None,
      guestPhone := None,
      items := OrderItems(cart),
      total := cartTotal,
      status := Pending,
      paymentMethod := m.Code(),
      shippingAddress := f.address,
      shippingCity := f.city,
      shippingPhone := f.phone,
      notes := CombineNotes(f.notes, PaymentNotes(f, m)))
  }

  /** What the page renders. */
  datatype CheckoutView = RedirectTo(path: string) | Confirmation | CheckoutPage

  /** The page guards: no user sends the visitor to login (coming back here
      afterwards); an empty cart with no order just placed sends them to the cart. */
  function View(user: Option<User>, cart: seq<CartItem>, placed: bool): (v: CheckoutView)
    ensures v == RedirectTo("/login?redirect=/checkout") <==> user.None?
    ensures v == RedirectTo("/cart") <==> user.Some? && |cart| == 0 && !placed
    ensures v == Confirmation <==> user.Some? && placed
    ensures v == CheckoutPage <==> user.Some? && |cart| > 0 && !placed
  {
    if user.None? then RedirectTo("/login?redirect=/checkout")
    else if |cart| == 0 && !placed then RedirectTo("/cart")
    else if placed then Confirmation
    else CheckoutPage
  }

  /** The page state `handleSubmit` changes. */
  datatype CheckoutState = CheckoutState(cart: seq<CartItem>, placed: bool, orderId: string)

  datatype CheckoutOutcome = CheckoutOutcome(state: CheckoutState, sent: Option<OrderData>)

  /** `handleSubmit`: on valid payment details the order is sent; `insert` is the
      backend's answer (the new row's id, or an error). Only a successful insert
      empties the cart and shows the confirmation. */
  function Submit(st: CheckoutState, user: User, cartTotal: int, f: CheckoutForm, m: PaymentMethod,
                  insert: Result<string, string>): (r: CheckoutOutcome)
    ensures ValidatePayment(f, m).Err? ==> r == CheckoutOutcome(st, None)
    ensures ValidatePayment(f, m).Ok? ==> r.sent == Some(CheckoutOrder(user, st.cart, cartTotal, f, m))
    ensures insert.Err? ==> r.state == st
    ensures ValidatePayment(f, m).Ok? && insert.Ok? ==>
      r.state == CheckoutState([], true, insert.value)
  {
    if ValidatePayment(f, m).Err? then
      CheckoutOutcome(st, None)
    else
      var order := CheckoutOrder(user, st.cart, cartTotal, f, m);
      match insert
      case Ok(id) => CheckoutOutcome(CheckoutState([], true, id), Some(order))
      case Err(_) => CheckoutOutcome(st, Some(order))
  }

  /** After a successful order the page shows the confirmation, never a redirect,
      even though the cart is now empty. */
  lemma PlacedOrderShowsConfirmation(st: CheckoutState, user: User, cartTotal: int, f: CheckoutForm, m: PaymentMethod, id: string)
    requires ValidatePayment(f, m).Ok?
    ensures var r := Submit(st, user, cartTotal, f, m, Ok(id));
      View(Some(user), r.state.cart, r.state.placed) == Confirmation && |r.state.cart| == 0
  {
  }
}
