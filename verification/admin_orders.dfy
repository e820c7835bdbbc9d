/** The admin order table: searching, filtering by status, and changing an
    order's status. */
module AdminOrders {
  import opened Wrappers
  import opened Text
  import opened Seqs
  import opened Constants
  import opened Types

  /** The status filter's "every status" choice. */
  const AllStatuses := "all"

  /** The search box: the lower-cased query in the lower-cased id, city or
      guest name, or the query exactly as typed in the guest phone. */
  predicate MatchesSearch(o: Order, query: string) {
    var q := Lower(query);
    Contains(Lower(o.id), q) ||
    Contains(Lower(o.data.shippingCity), q) ||
    (o.data.guestName.Some? && Contains(Lower(o.data.guestName.value), q)) ||
    (o.data.guestPhone.Some? && Contains(o.data.guestPhone.value, query))
  }

  /** The status select: "all" passes everything, any other value only equal statuses. */
  predicate MatchesStatus(o: Order, filter: string) {
    filter == AllStatuses || o.data.status == filter
  }

  /** `filteredOrders`: the orders passing both the search and the status filter, in table order. */
  function FilterOrders(orders: seq<Order>, query: string, filter: string): (r: seq<Order>)
    ensures IsSubsequence(r, orders)
    ensures forall i :: 0 <= i < |r| ==> r[i] in orders && MatchesSearch(r[i], query) && MatchesStatus(r[i], filter)
    ensures forall i :: 0 <= i < |orders| && MatchesSearch(orders[i], query) && MatchesStatus(orders[i], filter) ==> orders[i] in r
  {
    var keep := (o: Order) => MatchesSearch(o, query) && MatchesStatus(o, filter);
    FilterIsSubsequence(orders, keep);
    Filter(orders, keep)
  }

  /** An empty query with the "all" filter shows every order, in order. */
  lemma {:induction false} EmptySearchShowsAll(orders: seq<Order>)
    ensures FilterOrders(orders, "", AllStatuses) == orders
  {
    var keep := (o: Order) => MatchesSearch(o, "") && MatchesStatus(o, AllStatuses);
    forall i | 0 <= i < |orders|
      ensures keep(orders[i])
    {
      assert Lower("") == [];
      ContainsEmpty(Lower(orders[i].id));
    }
    FilterKeepsAll(orders, keep);
  }

  /** `updateStatus`: when the backend accepts the change, every order with the
      given id gets the new status and nothing else changes; when it refuses,
      the table is untouched. */
  function UpdateStatus(orders: seq<Order>, id: string, status: string, backendOk: bool): (r: seq<Order>)
    ensures |r| == |orders|
    ensures !backendOk ==> r == orders
    ensures backendOk ==> forall i :: 0 <= i < |orders| ==>
      r[i] == (if orders[i].id == id then orders[i].(data := orders[i].data.(status := status)) else orders[i])
  {
    if !backendOk then
      orders
    else
      seq(|orders|, i requires 0 <= i < |orders| => WithStatusIf(orders[i], id, status))
  }

  /** `o` with its status replaced when its id is `id`. */
  function WithStatusIf(o: Order, id: string, status: string): Order {
    if o.id == id then o.(data := o.data.(status := status)) else o
  }

  /** After a successful change the order shows the new status and nothing
      else about it changes, every other order is as it was, filtering by the
      new status finds the order, and repeating the change alters nothing. */
  lemma UpdateStatusTakesEffect(orders: seq<Order>, id: string, status: string, i: nat)
    requires i < |orders| && orders[i].id == id
    ensures var r := UpdateStatus(orders, id, status, true);
      r[i].data.status == status && r[i] == orders[i].(data := orders[i].data.(status := status))
    ensures var r := UpdateStatus(orders, id, status, true);
      forall j :: 0 <= j < |orders| && orders[j].id != id ==> r[j] == orders[j]
    ensures var r := UpdateStatus(orders, id, status, true);
      r[i] in FilterOrders(r, "", status) && r[i].id == id
    ensures var r := UpdateStatus(orders, id, status, true);
      UpdateStatus(r, id, status, true) == r
  {
    var r := UpdateStatus(orders, id, status, true);
    assert Lower("") == [];
    ContainsEmpty(Lower(r[i].id));
    assert MatchesSearch(r[i], "") && MatchesStatus(r[i], status);
  }

  /** The admin table's payment label: a known code's label, "COD" otherwise. */
  function AdminPaymentLabel(code: string): (r: string)
    ensures forall m: PaymentMethod :: m.Code() == code ==> r == m.Label()
    ensures ParsePaymentMethod(code).None? ==> r == "COD"
  {
    LabelOf(code).GetOr("COD")
  }
}
