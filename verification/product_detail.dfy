/** The product page: the quantity stepper, the two action buttons and the
    discount line. */
module ProductDetail {
  import opened Wrappers
  import opened Types
  import opened Render
  import ProductCard
  import Orders
  import GuestOrder
  import opened Constants

  /** The "−" button: `Math.max(1, quantity - 1)`, disabled at 1 or below. */
  function Decrement(q: int): (r: int)
    ensures r >= 1
    ensures q > 1 ==> r == q - 1
  {
    if q - 1 > 1 then q - 1 else 1
  }

  predicate DecrementDisabled(q: int) { q <= 1 }

  /** The "+" button: `Math.min(stock, quantity + 1)`, disabled at the stock or above. */
  function Increment(q: int, stock: int): (r: int)
    ensures r <= stock
    ensures q < stock ==> r == q + 1
  {
    if stock < q + 1 then stock else q + 1
  }

  predicate IncrementDisabled(q: int, stock: int) { q >= stock }

  datatype Press = Minus | Plus

  /** One press on the stepper; a disabled button does nothing. */
  function PressStepper(q: int, stock: int, b: Press): (r: int)
    ensures b == Minus && DecrementDisabled(q) ==> r == q
    ensures b == Plus && IncrementDisabled(q, stock) ==> r == q
    ensures b == Minus && !DecrementDisabled(q) ==> r == q - 1
    ensures b == Plus && !IncrementDisabled(q, stock) ==> r == q + 1
  {
    match b
    case Minus => if DecrementDisabled(q) then q else Decrement(q)
    case Plus => if IncrementDisabled(q, stock) then q else Increment(q, stock)
  }

  function PressAll(q: int, stock: int, bs: seq<Press>): int
    decreases |bs|
  {
    if |bs| == 0 then q else PressAll(PressStepper(q, stock, bs[0]), stock, bs[1..])
  }

  /** Starting from the initial quantity 1, any presses keep the quantity
      between 1 and the stock (when there is stock), and at 1 when there is none. */
  lemma {:induction false} StepperStaysInRange(q: int, stock: int, bs: seq<Press>)
    requires q == 1 || 1 <= q <= stock
    ensures var r := PressAll(q, stock, bs); r == 1 || 1 <= r <= stock
    ensures stock >= 1 && 1 <= q <= stock ==> 1 <= PressAll(q, stock, bs) <= stock
    ensures stock <= 1 && q == 1 ==> PressAll(q, stock, bs) == 1
    decreases |bs|
  {
    if |bs| > 0 {
      StepperStaysInRange(PressStepper(q, stock, bs[0]), stock, bs[1..]);
    }
  }

  /** Even pressed while disabled, the buttons' own updates keep a quantity in
      `[1, stock]` there. */
  lemma ClampsKeepRange(q: int, stock: int)
    requires 1 <= q <= stock
    ensures 1 <= Decrement(q) <= stock
    ensures 1 <= Increment(q, stock) <= stock
  {
  }

  /** What "Add to Cart" does. */
  datatype AddOutcome = AskToLogIn | AddToCart(product: Product, quantity: int) | NoAction

  /** `handleAddToCart`: a visitor is asked to log in and the cart is left
      alone; a signed-in user adds the loaded product with the chosen quantity. */
  function HandleAddToCart(user: Option<User>, product: Option<Product>, quantity: int): (r: AddOutcome)
    ensures r == AskToLogIn <==> user.None?
    ensures r.AddToCart? <==> user.Some? && product.Some?
    ensures r.AddToCart? ==> r.product == product.value && r.quantity == quantity
  {
    if user.None? then AskToLogIn
    else if product.Some? then AddToCart(product.value, quantity)
    else NoAction
  }

  /** The stepper and the cart agree: a signed-in user who adds an item in
      stock, after any presses from the initial quantity 1, adds that product
      with a quantity between 1 and the stock. */
  lemma AddedQuantityIsInStock(user: Option<User>, p: Product, bs: seq<Press>)
    requires user.Some? && p.stock >= 1
    ensures var r := HandleAddToCart(user, Some(p), PressAll(1, p.stock, bs));
      r.AddToCart? && r.product == p && 1 <= r.quantity <= p.stock
  {
    StepperStaysInRange(1, p.stock, bs);
  }

  /** The amount on "Order Confirm": the line amount of the product at the
      chosen quantity, as an order line records it. */
  function ConfirmAmount(p: Product, quantity: int): (a: int)
    ensures a == Orders.LineAmount(OrderItem(p.id, p.name, quantity, p.price))
    ensures quantity == 1 ==> a == p.price
    ensures p.price >= 0 && quantity >= 1 ==> a >= p.price
  {
    p.price * quantity
  }

  /** The page hands its quantity to the guest order dialog, so the amount on
      the button is the total the guest order records, whatever the form and
      the payment method. */
  lemma ConfirmAmountIsGuestTotal(p: Product, quantity: int, f: GuestOrder.GuestForm, m: PaymentMethod)
    ensures ConfirmAmount(p, quantity) == GuestOrder.BuildOrder(f, m, p, quantity).total
    ensures ConfirmAmount(p, quantity) == Orders.ItemsSum(GuestOrder.BuildOrder(f, m, p, quantity).items)
  {
    var items := GuestOrder.BuildOrder(f, m, p, quantity).items;
    assert items[..0] == [];
    assert Orders.ItemsSum(items) == Orders.ItemsSum(items[..0]) + Orders.LineAmount(items[0]);
  }

  /** The page's discount line uses the same condition as the card, so it shows
      the same stray "0"; the model's page uses the intended slot. */
  function DiscountLine(p: Product): (s: Slot<ProductCard.DiscountBadge>)
    ensures Clean(s)
    ensures s.Element? <==> ProductCard.HasDiscount(p)
  {
    ProductCard.DiscountSlot(p)
  }

  /** The stock line: "In Stock (n available)" or "Out of Stock". */
  predicate InStockLabel(p: Product) { p.stock > 0 }

  /** A failed product fetch sends the visitor back to the product list. */
  datatype ProductLoad = ShowProduct(product: Product) | BackToProducts(path: string)

  function LoadProduct(fetched: Result<Product, string>): (r: ProductLoad)
    ensures fetched.Ok? ==> r == ShowProduct(fetched.value)
    ensures fetched.Err? <==> r == BackToProducts("/products")
  {
    match fetched
    case Ok(p) => ShowProduct(p)
    case Err(_) => BackToProducts("/products")
  }
}
