/** What the customer's order history and the admin order table show for a
    stored order: its total, status badge, payment label and short id. */
module Orders {
  import opened Wrappers
  import opened Text
  import opened Seqs
  import opened Constants
  import opened Types

  /** One line's amount: unit price times quantity. */
  function LineAmount(item: OrderItem): int {
    item.price * item.quantity
  }

  /** `items.reduce((sum, item) => sum + item.price * item.quantity, 0)`. */
  function ItemsSum(items: seq<OrderItem>): int {
    Sum(items, LineAmount)
  }

  /** `getOrderTotal`: the stored total when it is positive, otherwise the sum
      of the order's lines. */
  function OrderTotal(o: OrderData): (t: int)
    ensures o.total > 0 ==> t == o.total
    ensures o.total <= 0 ==> t == ItemsSum(o.items)
  {
    if o.total > 0 then o.total else ItemsSum(o.items)
  }

  /** The same total computed as the page does it: a left-to-right reduce over
      the lines when the stored total is not positive. */
  method ComputeOrderTotal(o: OrderData) returns (t: int)
    ensures t == OrderTotal(o)
    ensures o.total <= 0 && (forall i :: 0 <= i < |o.items| ==> o.items[i].price >= 0 && o.items[i].quantity >= 0) ==> t >= 0
  {
    if o.total > 0 {
      return o.total;
    }
    var items := o.items;
    t := 0;
    var k := 0;
    while k < |items|
      invariant 0 <= k <= |items|
      invariant t == ItemsSum(items[..k])
      invariant (forall i :: 0 <= i < |items| ==> items[i].price >= 0 && items[i].quantity >= 0) ==> t >= 0
    {
      assert items[..k + 1][..k] == items[..k];
      t := t + items[k].price * items[k].quantity;
      k := k + 1;
    }
    assert items[..k] == items;
  }

  /** The colour family of a status badge; anything unknown is gray. */
  function StatusHue(status: string): string {
    if status == Pending then "yellow"
    else if status == Processing then "blue"
    else if status == Delivered then "green"
    else if status == Cancelled then "red"
    else "gray"
  }

  /** `getStatusColor` of the admin pages: background and text of the hue. */
  function StatusClass(status: string): string {
    "bg-" + StatusHue(status) + "-100 text-" + StatusHue(status) + "-800"
  }

  /** `getStatusColor` of the customer's order page: the admin classes plus a border. */
  function StatusClassBordered(status: string): string {
    StatusClass(status) + " border-" + StatusHue(status) + "-200"
  }

  /** The four statuses get four different badge colours, none of them the
      gray that every other value gets, on both pages. */
  lemma StatusColorsDistinct(s: string, t: string)
    requires s in OrderStatuses && t in OrderStatuses && s != t
    ensures StatusHue(s) != StatusHue(t) && StatusHue(s) != "gray"
    ensures StatusClass(s) != StatusClass(t) && StatusClassBordered(s) != StatusClassBordered(t)
    ensures StatusClass(s) != StatusClass("unknown") && StatusClassBordered(s) != StatusClassBordered("unknown")
  {
    ClassWindow(s);
    ClassWindow(t);
    ClassWindow("unknown");
  }

  /** Characters 3 to 6 of either class string: the first four characters of "hue-". */
  lemma ClassWindow(status: string)
    ensures StatusClass(status)[3..7] == (StatusHue(status) + "-")[..4]
    ensures StatusClassBordered(status)[3..7] == (StatusHue(status) + "-")[..4]
  {
    var h := StatusHue(status);
    assert |h| >= 3;
    assert StatusClass(status) == "bg-" + (h + "-") + "100 text-" + h + "-800";
    assert StatusClassBordered(status)[..|StatusClass(status)|] == StatusClass(status);
  }

  /** The customer page's payment label: a known code's label, and "Cash on
      Delivery" for anything else. */
  function CustomerPaymentLabel(code: string): (r: string)
    ensures forall m: PaymentMethod :: m.Code() == code ==> r == m.Label()
    ensures ParsePaymentMethod(code).None? ==> r == Cod.Label()
  {
    LabelOf(code).GetOr("Cash on Delivery")
  }

  /** The short order number: the first eight characters of the id, upper-cased. */
  function DisplayId(id: string): (r: string)
    ensures |r| == if |id| < 8 then |id| else 8
    ensures forall i :: 0 <= i < |r| ==> r[i] == UpperChar(id[i])
  {
    Upper(if |id| < 8 then id else id[..8])
  }

  /** Where the order history page goes on load. */
  datatype OrdersLoad = RedirectTo(path: string) | FetchOrdersOf(userId: string)

  /** Without a signed-in user the page redirects to login and fetches nothing;
      with one it fetches that user's orders. */
  function LoadOrdersPage(user: Option<User>): (r: OrdersLoad)
    ensures user.None? <==> r == RedirectTo("/login?redirect=/orders")
    ensures user.Some? ==> r == FetchOrdersOf(user.value.id)
  {
    match user
    case None => RedirectTo("/login?redirect=/orders")
    case Some(u) => FetchOrdersOf(u.id)
  }
}
