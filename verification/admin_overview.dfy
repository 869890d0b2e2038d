/** The admin panel's overview tab: product and order counts, the revenue
    cards, the recent orders with their badges, and the alerts card. */
module AdminOverview {
  import opened Seqs
  import opened Database
  import opened Products
  import opened Revenue
  import opened AdminUi
  import AdminDashboard

  datatype OverviewStats = OverviewStats(
    totalProducts: nat,
    lowStockProducts: nat,
    totalOrders: nat,
    pendingOrders: nat,
    revenue: RevenueStats)

  function LowStock(): Product -> bool {
    (p: Product) => IsLowStock(p)
  }

  /** The four stat cards' figures. */
  function GetOverviewStats(products: seq<Product>, orders: seq<Order>, ts: seq<Transaction>,
                            now: int, monthStart: int): (r: OverviewStats)
    ensures r.totalProducts == |products| && r.totalOrders == |orders|
    ensures r.lowStockProducts <= r.totalProducts && r.pendingOrders <= r.totalOrders
    ensures r.revenue == GetRevenueStats(ts, now, monthStart)
    ensures products == [] ==> r.lowStockProducts == 0
    ensures orders == [] ==> r.pendingOrders == 0
  {
    OverviewStats(|products|, |Filter(products, LowStock())|,
      |orders|, AdminDashboard.CountStatus(orders, OrderStatus.Pending),
      GetRevenueStats(ts, now, monthStart))
  }

  /** Appending a product adds one to the low-stock card exactly when it
      has fewer than ten units; appending an order adds one to the pending
      card exactly when it is pending. */
  lemma OverviewSnoc(products: seq<Product>, p: Product, orders: seq<Order>, o: Order,
                     ts: seq<Transaction>, now: int, monthStart: int)
    ensures GetOverviewStats(products + [p], orders, ts, now, monthStart).lowStockProducts
         == GetOverviewStats(products, orders, ts, now, monthStart).lowStockProducts + (if p.stock < 10 then 1 else 0)
    ensures GetOverviewStats(products, orders + [o], ts, now, monthStart).pendingOrders
         == GetOverviewStats(products, orders, ts, now, monthStart).pendingOrders
          + (if o.status == OrderStatus.Pending then 1 else 0)
  {
    FilterConcat(products, [p], LowStock());
    AdminDashboard.StatsSnoc(orders, o);
  }

  /** A product with exactly ten units is not counted as low, one with nine
      is. */
  lemma LowStockBoundary(p: Product)
    ensures p.stock == 10 ==> |Filter([p], LowStock())| == 0
    ensures p.stock == 9 ==> |Filter([p], LowStock())| == 1
  {
  }

  /** The overview and the stand-alone dashboard count pending orders the
      same way. */
  lemma PendingAgreesWithDashboard(products: seq<Product>, orders: seq<Order>, ts: seq<Transaction>,
                                   now: int, monthStart: int)
    ensures GetOverviewStats(products, orders, ts, now, monthStart).pendingOrders
         == AdminDashboard.GetOrderStats(orders).pendingOrders
  {
  }

  /** The recent-orders card: the first five orders. */
  function RecentOrders(orders: seq<Order>): (r: seq<Order>)
    ensures r <= orders
    ensures |r| == if |orders| < 5 then |orders| else 5
    ensures r == [] <==> orders == []
  {
    Take(orders, 5)
  }

  /** The badge on a recent order: pending is secondary, confirmed and
      delivered are default, and everything else, processing and shipped
      included, is destructive. */
  function OverviewBadge(st: OrderStatus): (v: BadgeVariant)
    ensures v == Secondary <==> st == OrderStatus.Pending
    ensures v == Default <==> st == OrderStatus.Confirmed || st == OrderStatus.Delivered
  {
    if st == OrderStatus.Pending then Secondary
    else if st == OrderStatus.Confirmed then Default
    else if st == OrderStatus.Delivered then Default
    else Destructive
  }

  /** One entry of the alerts card. */
  datatype Alert = LowStockAlert(count: nat) | PendingOrdersAlert(count: nat) | NoActiveAlerts

  /** The alerts card, top to bottom: the low-stock alert above the
      pending-orders alert, or the all-clear alone. */
  function Alerts(stats: OverviewStats): (r: seq<Alert>)
    ensures LowStockAlert(stats.lowStockProducts) in r <==> stats.lowStockProducts > 0
    ensures PendingOrdersAlert(stats.pendingOrders) in r <==> stats.pendingOrders > 0
    ensures NoActiveAlerts in r <==> stats.lowStockProducts == 0 && stats.pendingOrders == 0
    ensures 1 <= |r| <= 2
    ensures forall a :: a in r ==>
      a == LowStockAlert(stats.lowStockProducts) || a == PendingOrdersAlert(stats.pendingOrders) || a == NoActiveAlerts
    ensures |r| == 2 <==> stats.lowStockProducts > 0 && stats.pendingOrders > 0
    ensures |r| == 2 ==> r[0].LowStockAlert? && r[1].PendingOrdersAlert?
  {
    (if stats.lowStockProducts > 0 then [LowStockAlert(stats.lowStockProducts)] else []) +
    (if stats.pendingOrders > 0 then [PendingOrdersAlert(stats.pendingOrders)] else []) +
    (if stats.lowStockProducts == 0 && stats.pendingOrders == 0 then [NoActiveAlerts] else [])
  }
}
