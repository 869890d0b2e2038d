/** The stand-alone admin dashboard page: order statistics, the status
    colours, the recent-activity list, the quick stats and the admin guard. */
module AdminDashboard {
  import opened Seqs
  import opened Database
  import opened Auth

  function HasStatus(st: OrderStatus): Order -> bool {
    (o: Order) => o.status == st
  }

  function OrderTotal(o: Order): int {
    o.totalAmount
  }

  /** How many orders have the given status. */
  function CountStatus(orders: seq<Order>, st: OrderStatus): (n: nat)
    ensures n <= |orders|
  {
    |Filter(orders, HasStatus(st))|
  }

  datatype OrderStats = OrderStats(totalOrders: nat, totalRevenue: int, pendingOrders: nat, completedOrders: nat)

  /** The four figures at the top of the page: every order counted, every
      order's amount summed whatever its status, and the pending and the
      delivered orders. */
  function GetOrderStats(orders: seq<Order>): (r: OrderStats)
    ensures r.totalOrders == |orders|
    ensures r.pendingOrders + r.completedOrders <= r.totalOrders
    ensures orders == [] ==> r.totalRevenue == 0 && r.pendingOrders == 0 && r.completedOrders == 0
  {
    DisjointCounts(orders, HasStatus(OrderStatus.Pending), HasStatus(OrderStatus.Delivered));
    OrderStats(|orders|, SumOf(orders, OrderTotal),
      CountStatus(orders, OrderStatus.Pending), CountStatus(orders, OrderStatus.Delivered))
  }

  /** Appending an order adds its amount to the revenue whatever its status,
      cancelled included, and adds one to exactly the matching count. */
  lemma StatsSnoc(orders: seq<Order>, o: Order)
    ensures GetOrderStats(orders + [o]).totalRevenue == GetOrderStats(orders).totalRevenue + o.totalAmount
    ensures GetOrderStats(orders + [o]).pendingOrders
         == GetOrderStats(orders).pendingOrders + (if o.status == OrderStatus.Pending then 1 else 0)
    ensures GetOrderStats(orders + [o]).completedOrders
         == GetOrderStats(orders).completedOrders + (if o.status == OrderStatus.Delivered then 1 else 0)
  {
    SumConcat(orders, [o], OrderTotal);
    assert SumOf([o], OrderTotal) == o.totalAmount;
    FilterConcat(orders, [o], HasStatus(OrderStatus.Pending));
    FilterConcat(orders, [o], HasStatus(OrderStatus.Delivered));
  }

  /** Every order has exactly one of the six statuses: the six counts add up
      to the number of orders. */
  lemma {:induction false} StatusCountsPartition(orders: seq<Order>)
    ensures CountStatus(orders, OrderStatus.Pending) + CountStatus(orders, OrderStatus.Confirmed)
          + CountStatus(orders, OrderStatus.Processing) + CountStatus(orders, OrderStatus.Shipped)
          + CountStatus(orders, OrderStatus.Delivered) + CountStatus(orders, OrderStatus.Cancelled)
         == |orders|
    decreases |orders|
  {
    if orders != [] {
      StatusCountsPartition(orders[1..]);
    }
  }

  // ---------------------------------------------------------------- colours

  /** `getStatusColor` on the stored status text. */
  function GetStatusColor(status: string): string {
    if status == "pending" then "bg-yellow-500"
    else if status == "confirmed" then "bg-blue-500"
    else if status == "processing" then "bg-purple-500"
    else if status == "shipped" then "bg-orange-500"
    else if status == "delivered" then "bg-green-500"
    else if status == "cancelled" then "bg-red-500"
    else "bg-gray-500"
  }

  const Gray := "bg-gray-500"

  /** The six statuses get six different colours, none of them gray, and any
      other text is gray. */
  lemma StatusColorsDistinct(a: OrderStatus, b: OrderStatus, other: string)
    requires other !in OrderStatusNames
    ensures a != b ==> GetStatusColor(a.Name()) != GetStatusColor(b.Name())
    ensures GetStatusColor(a.Name()) != Gray
    ensures GetStatusColor(other) == Gray
  {
  }

  // --------------------------------------------------------- recent, quick

  /** The recent-activity card: the first five orders in list order. */
  function RecentActivity(orders: seq<Order>): (r: seq<Order>)
    ensures r <= orders
    ensures |r| == if |orders| < 5 then |orders| else 5
  {
    Take(orders, 5)
  }

  /** Average order value, or a fixed zero when there are no orders. */
  function AverageOrderValue(stats: OrderStats): (r: real)
    ensures stats.totalOrders == 0 ==> r == 0.0
    ensures stats.totalOrders > 0 ==> r * stats.totalOrders as real == stats.totalRevenue as real
  {
    if stats.totalOrders > 0 then stats.totalRevenue as real / stats.totalOrders as real else 0.0
  }

  /** A share of the orders in per cent, or a fixed zero when there are none. */
  function Rate(count: nat, total: nat): (r: real)
    requires count <= total
    ensures total == 0 ==> r == 0.0
    ensures 0.0 <= r <= 100.0
    ensures total > 0 ==> r * total as real == 100.0 * count as real
  {
    if total > 0 then (count as real / total as real) * 100.0 else 0.0
  }

  /** The completion and pending rates never add up to more than 100. */
  lemma RatesWithinWhole(orders: seq<Order>)
    ensures var s := GetOrderStats(orders);
      Rate(s.completedOrders, s.totalOrders) + Rate(s.pendingOrders, s.totalOrders) <= 100.0
  {
    var s := GetOrderStats(orders);
    DisjointRates(s.completedOrders, s.pendingOrders, s.totalOrders);
  }

  lemma DisjointRates(c: nat, p: nat, t: nat)
    requires c + p <= t
    ensures Rate(c, t) + Rate(p, t) <= 100.0
  {
    if t > 0 {
      var tr, cr, pr := t as real, c as real, p as real;
      assert Rate(c, t) + Rate(p, t) == ((cr + pr) / tr) * 100.0;
      ShareAtMostOne(cr + pr, tr);
    }
  }

  lemma ShareAtMostOne(a: real, t: real)
    requires 0.0 <= a <= t && t > 0.0
    ensures a / t <= 1.0
  {
  }

  // ------------------------------------------------------------------ guard

  /** What the page does for a session: render, or render nothing and send
      the visitor to the login page. */
  datatype PageOutcome = Render | RedirectTo(path: string)

  function DashboardGuard(s: Session): (r: PageOutcome)
    ensures r == Render <==> CanManage(s)
    ensures r != Render ==> r == RedirectTo("/login")
  {
    if s.user.None? || !s.isAdmin then RedirectTo("/login") else Render
  }
}
