/** The admin order list: search by order number or customer, a status
    filter, the status badges and the empty-list text. */
module OrderManager {
  import opened Text
  import opened Seqs
  import opened Database
  import opened AdminUi
  import AdminOverview

  /** The search matches the order number or the shipping name; the status
      filter is `all` or a status's stored name. */
  predicate OrderMatches(o: Order, term: string, statusFilter: string) {
    (MatchesTerm(o.orderNumber, term) || MatchesTerm(o.shippingAddress.fullName, term)) &&
    (statusFilter == "all" || o.status.Name() == statusFilter)
  }

  function OrderFilter(term: string, statusFilter: string): Order -> bool {
    (o: Order) => OrderMatches(o, term, statusFilter)
  }

  /** The listed orders, in the order the hook delivered them. */
  function FilteredOrders(orders: seq<Order>, term: string, statusFilter: string): (r: seq<Order>)
    ensures |r| <= |orders|
  {
    Filter(orders, OrderFilter(term, statusFilter))
  }

  /** An order is listed iff it matches, and the list keeps the input order. */
  lemma FilteredOrdersContents(orders: seq<Order>, term: string, statusFilter: string)
    ensures forall o :: o in FilteredOrders(orders, term, statusFilter) <==>
      o in orders && OrderMatches(o, term, statusFilter)
    ensures IsSubseq(FilteredOrders(orders, term, statusFilter), orders)
  {
    FilterIsSubseq(orders, OrderFilter(term, statusFilter));
  }

  /** An empty search with `all` keeps every order: every order has an
      order number, and the empty string occurs in every string. */
  lemma UnfilteredListsAll(orders: seq<Order>)
    ensures FilteredOrders(orders, "", "all") == orders
  {
    forall i | 0 <= i < |orders|
      ensures OrderFilter("", "all")(orders[i])
    {
      EmptyTermMatches(orders[i].orderNumber);
    }
    FilterAll(orders, OrderFilter("", "all"));
  }

  /** A status filter keeps only orders with exactly that status, and one
      that names no status keeps nothing. */
  lemma StatusFilterExact(orders: seq<Order>, term: string, st: OrderStatus, unknown: string)
    requires unknown != "all" && unknown !in OrderStatusNames
    ensures forall o :: o in FilteredOrders(orders, term, st.Name()) ==> o.status == st
    ensures FilteredOrders(orders, term, unknown) == []
  {
    FilteredOrdersContents(orders, term, st.Name());
    forall o: Order
      ensures o.status.Name() != unknown
    {
      assert o.status.Name() in OrderStatusNames;
    }
    FilterNone(orders, OrderFilter(term, unknown));
  }

  /** `getStatusBadgeVariant` on the stored status text. */
  function OrderBadge(status: string): (v: BadgeVariant)
    ensures v == Destructive <==> status == "cancelled"
    ensures v == Secondary <==> status == "pending" || status !in OrderStatusNames
  {
    if status == "pending" then Secondary
    else if status == "confirmed" then Default
    else if status == "processing" then Default
    else if status == "shipped" then Default
    else if status == "delivered" then Default
    else if status == "cancelled" then Destructive
    else Secondary
  }

  /** The order list and the overview badge processing and shipped orders
      differently: default here, destructive there. They agree on the other
      four statuses. */
  lemma BadgesDisagreeInTransit(st: OrderStatus)
    ensures (OrderBadge(st.Name()) == AdminOverview.OverviewBadge(st))
        <==> !(st == OrderStatus.Processing || st == OrderStatus.Shipped)
  {
  }

  const NoOrdersIdle := "Orders will appear here when customers place them"

  /** The line under "No orders found". */
  function EmptyOrdersText(term: string, statusFilter: string): (r: string)
    ensures r == FilterHint <==> term != "" || statusFilter != "all"
    ensures r != FilterHint ==> r == NoOrdersIdle
  {
    EmptyStateText(term, statusFilter, NoOrdersIdle)
  }
}
