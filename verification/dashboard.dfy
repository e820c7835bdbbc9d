/** The admin dashboard: revenue and order counts over all orders, the
    delivered list, and the revenue reset. */
module Dashboard {
  import opened Wrappers
  import opened Seqs
  import opened Constants
  import opened Types
  import opened Render
  import Orders

  function NotCancelled(o: Order): bool { o.data.status != Cancelled }
  function IsPending(o: Order): bool { o.data.status == Pending }
  function IsDelivered(o: Order): bool { o.data.status == Delivered }
  function StoredTotal(o: Order): int { o.data.total }

  /** What one order adds to the revenue: its total, or nothing when cancelled. */
  function CountedTotal(o: Order): int {
    if o.data.status == Cancelled then 0 else o.data.total
  }

  /** `totalRevenue`: the stored totals of the orders that are not cancelled,
      which is the sum over all orders with cancelled ones counting nothing. */
  function Revenue(orders: seq<Order>): (r: int)
    ensures r == Sum(orders, CountedTotal)
  {
    SumFilter(orders, NotCancelled, StoredTotal);
    SumPointwise(orders, Masked(NotCancelled, StoredTotal), orders, CountedTotal);
    Sum(Filter(orders, NotCancelled), StoredTotal)
  }

  /** Revenue adds up over a split of the order list, so each order contributes
      its own total exactly once. */
  lemma RevenueSplits(a: seq<Order>, b: seq<Order>)
    ensures Revenue(a + b) == Revenue(a) + Revenue(b)
  {
    FilterConcat(a, b, NotCancelled);
    SumConcat(Filter(a, NotCancelled), Filter(b, NotCancelled), StoredTotal);
  }

  /** A single order adds its total to the revenue unless it is cancelled. */
  lemma RevenueOfOne(o: Order)
    ensures Revenue([o]) == if o.data.status == Cancelled then 0 else o.data.total
  {
    assert [o][1..] == [];
    if NotCancelled(o) {
      assert Filter([o], NotCancelled) == [o];
      assert [o][..0] == [];
      assert Sum([o], StoredTotal) == Sum([o][..0], StoredTotal) + StoredTotal(o);
    }
  }

  /** With no negative totals the revenue is never negative. */
  lemma RevenueNonNegative(orders: seq<Order>)
    requires forall i :: 0 <= i < |orders| ==> orders[i].data.total >= 0
    ensures Revenue(orders) >= 0
  {
    var kept := Filter(orders, NotCancelled);
    forall i | 0 <= i < |kept| ensures StoredTotal(kept[i]) >= 0 {
      assert kept[i] in orders;
    }
    SumNonNegative(kept, StoredTotal);
  }

  /** `pendingOrders`: how many orders are still pending. */
  function PendingCount(orders: seq<Order>): (n: nat)
    ensures n == Count(orders, IsPending)
    ensures n <= |orders|
  {
    FilterLength(orders, IsPending);
    |Filter(orders, IsPending)|
  }

  /** `delivered`: exactly the delivered orders, in list order. */
  function DeliveredOrders(orders: seq<Order>): (r: seq<Order>)
    ensures forall i :: 0 <= i < |r| ==> r[i].data.status == Delivered && r[i] in orders
    ensures forall o :: o in orders && o.data.status == Delivered ==> o in r
    ensures IsSubsequence(r, orders)
  {
    FilterIsSubsequence(orders, IsDelivered);
    Filter(orders, IsDelivered)
  }

  /** The figures `fetchStats` puts on the page. */
  datatype Stats = Stats(
    totalProducts: int,
    totalOrders: nat,
    totalUsers: int,
    totalRevenue: int,
    pendingOrders: nat,
    recentOrders: seq<Order>)

  /** `count || 0`: a missing count shows as zero. */
  function CountOrZero(c: Option<int>): int {
    if c.Some? then c.value else 0
  }

  /** `fetchStats`, given the three backend answers: a missing order list is
      read as no orders, and the recent list is the first five rows. */
  function FetchStats(productsCount: Option<int>, ordersRows: Option<seq<Order>>, usersCount: Option<int>): (s: Stats)
    ensures var orders := if ordersRows.Some? then ordersRows.value else [];
      && s.totalOrders == |orders|
      && s.totalRevenue == Revenue(orders)
      && s.pendingOrders == PendingCount(orders)
      && |s.recentOrders| == (if |orders| < 5 then |orders| else 5)
      && s.recentOrders == orders[..|s.recentOrders|]
    ensures productsCount.None? ==> s.totalProducts == 0
    ensures productsCount.Some? ==> s.totalProducts == productsCount.value
    ensures usersCount.None? ==> s.totalUsers == 0
    ensures usersCount.Some? ==> s.totalUsers == usersCount.value
  {
    var orders := if ordersRows.Some? then ordersRows.value else [];
    Stats(
      totalProducts := CountOrZero(productsCount),
      totalOrders := |orders|,
      totalUsers := CountOrZero(usersCount),
      totalRevenue := Revenue(orders),
      pendingOrders := PendingCount(orders),
      recentOrders := orders[..if |orders| < 5 then |orders| else 5])
  }

  /** The pending-orders alert as the page writes it:
      `stats?.pendingOrders && stats.pendingOrders > 0 && (...)`. With no
      pending order the count 0 is the value of the expression, and React
      prints it. */
  function PendingAlertAsWritten(stats: Option<Stats>): (s: Slot<nat>)
    ensures s.Stray? <==> stats.Some? && stats.value.pendingOrders == 0
    ensures s.Stray? ==> s.text == "0"
    ensures s.Element? <==> stats.Some? && stats.value.pendingOrders > 0
  {
    if stats.None? then Nothing
    else if stats.value.pendingOrders == 0 then Stray("0")
    else Element(stats.value.pendingOrders)
  }

  /** Where the written alert shows anything but a bare "0", it is the intended one. */
  lemma PendingAlertAgreesOffZero(stats: Option<Stats>)
    ensures !PendingAlertAsWritten(stats).Stray? ==> PendingAlertAsWritten(stats) == PendingAlert(stats)
  {
  }

  /** A dashboard with no pending order shows a stray "0" where the alert would be. */
  lemma NoPendingShowsStrayZero(productsCount: Option<int>, orders: seq<Order>, usersCount: Option<int>)
    requires forall i :: 0 <= i < |orders| ==> orders[i].data.status != Pending
    ensures PendingAlertAsWritten(Some(FetchStats(productsCount, Some(orders), usersCount))) == Stray("0")
  {
    CountPositiveIff(orders, IsPending);
  }

  /** The alert as intended: the pending count when it is positive, else nothing. */
  function PendingAlert(stats: Option<Stats>): (s: Slot<nat>)
    ensures Clean(s)
    ensures s.Element? <==> stats.Some? && stats.value.pendingOrders > 0
    ensures s.Element? ==> stats.Some? && s.value == stats.value.pendingOrders
  {
    if stats.Some? && stats.value.pendingOrders > 0 then Element(stats.value.pendingOrders) else Nothing
  }

  /** The intended alert is shown exactly when some fetched order is pending. */
  lemma PendingAlertIffSomePending(productsCount: Option<int>, orders: seq<Order>, usersCount: Option<int>)
    ensures PendingAlert(Some(FetchStats(productsCount, Some(orders), usersCount))).Element?
      <==> exists i :: 0 <= i < |orders| && orders[i].data.status == Pending
  {
    CountPositiveIff(orders, IsPending);
  }

  /** `order.is_guest ? order.guest_name : "Registered User"`. */
  function CustomerLabel(o: Order): (r: string)
    ensures o.data.isGuest == Some(true) ==> r == o.data.guestName.GetOr("")
    ensures o.data.isGuest != Some(true) ==> r == "Registered User"
  {
    if o.data.isGuest == Some(true) then o.data.guestName.GetOr("") else "Registered User"
  }

  /** One order after the reset: its total is zeroed unless it is cancelled. */
  function ResetOne(o: Order): Order {
    if o.data.status != Cancelled then o.(data := o.data.(total := 0)) else o
  }

  /** `handleResetRevenue`: the backend sets `total` to zero on every order that
      is not cancelled; `backendOk` is whether that update succeeded. */
  function ResetRevenue(orders: seq<Order>, backendOk: bool): (r: seq<Order>)
    ensures |r| == |orders|
    ensures !backendOk ==> r == orders
    ensures backendOk ==> forall i :: 0 <= i < |r| ==>
      r[i].id == orders[i].id && r[i].data.status == orders[i].data.status &&
      r[i].data.items == orders[i].data.items &&
      (orders[i].data.status == Cancelled ==> r[i] == orders[i]) &&
      (orders[i].data.status != Cancelled ==> r[i].data.total == 0)
    ensures backendOk ==> forall i :: 0 <= i < |r| ==>
      r[i] == (if orders[i].data.status != Cancelled then orders[i].(data := orders[i].data.(total := 0)) else orders[i])
  {
    if backendOk then seq(|orders|, i requires 0 <= i < |orders| => ResetOne(orders[i])) else orders
  }

  /** After a successful reset the dashboard's revenue reads zero, the order and
      pending counts do not move, and the delivered list keeps the same orders. */
  lemma ResetClearsRevenue(orders: seq<Order>)
    ensures Revenue(ResetRevenue(orders, true)) == 0
    ensures PendingCount(ResetRevenue(orders, true)) == PendingCount(orders)
    ensures |DeliveredOrders(ResetRevenue(orders, true))| == |DeliveredOrders(orders)|
  {
    var r := ResetRevenue(orders, true);
    var kept := Filter(r, NotCancelled);
    forall i | 0 <= i < |kept| ensures StoredTotal(kept[i]) == 0 {
      assert kept[i] in r;
    }
    SumOfZeros(kept, StoredTotal);
    CountSameStatus(orders, r, IsPending);
    CountSameStatus(orders, r, IsDelivered);
    FilterLength(orders, IsDelivered);
    FilterLength(r, IsDelivered);
  }

  /** Counting by a property of the status gives the same number on two lists
      whose orders have the same statuses position by position. */
  lemma {:induction false} CountSameStatus(a: seq<Order>, b: seq<Order>, p: Order -> bool)
    requires |a| == |b|
    requires forall i :: 0 <= i < |a| ==> p(a[i]) == p(b[i])
    ensures Count(a, p) == Count(b, p)
  {
    if |a| > 0 {
      assert forall i :: 0 <= i < |a| - 1 ==> a[1..][i] == a[i + 1] && b[1..][i] == b[i + 1];
      CountSameStatus(a[1..], b[1..], p);
    }
  }

  /** The reset does not clear what customers see: an order with a zero total
      is shown on the orders page with the sum of its lines instead. */
  lemma ResetOrderShowsLineSum(orders: seq<Order>, i: nat)
    requires i < |orders| && orders[i].data.status != Cancelled
    ensures Orders.OrderTotal(ResetRevenue(orders, true)[i].data) == Orders.ItemsSum(orders[i].data.items)
  {
  }
}
