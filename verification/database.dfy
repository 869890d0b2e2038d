/** The record shapes the storefront reads from its remote store, and their
    closed enumerations. Timestamps are milliseconds since the epoch and money
    is a whole number of rupees. */
module Database {
  import opened Wrappers

  // ----------------------------------------------------------- enumerations

  /** An order's lifecycle status. */
  datatype OrderStatus = Pending | Confirmed | Processing | Shipped | Delivered | Cancelled {
    /** The string the store holds for this status. */
    function Name(): string {
      match this
      case Pending => "pending"
      case Confirmed => "confirmed"
      case Processing => "processing"
      case Shipped => "shipped"
      case Delivered => "delivered"
      case Cancelled => "cancelled"
    }
  }

  const OrderStatusNames: seq<string> :=
    ["pending", "confirmed", "processing", "shipped", "delivered", "cancelled"]

  /** Reads a stored order status; only the six names are statuses. */
  function ParseOrderStatus(s: string): (r: Option<OrderStatus>)
    ensures r.Some? <==> s in OrderStatusNames
    ensures r.Some? ==> r.value.Name() == s
  {
    if s == "pending" then Some(OrderStatus.Pending)
    else if s == "confirmed" then Some(OrderStatus.Confirmed)
    else if s == "processing" then Some(OrderStatus.Processing)
    else if s == "shipped" then Some(OrderStatus.Shipped)
    else if s == "delivered" then Some(OrderStatus.Delivered)
    else if s == "cancelled" then Some(OrderStatus.Cancelled)
    else None
  }

  lemma OrderStatusRoundTrip(st: OrderStatus)
    ensures ParseOrderStatus(st.Name()) == Some(st)
  {
  }

  /** An order's payment status. */
  datatype PaymentStatus = Pending | Paid | Failed | Refunded {
    function Name(): string {
      match this
      case Pending => "pending"
      case Paid => "paid"
      case Failed => "failed"
      case Refunded => "refunded"
    }
  }

  const PaymentStatusNames: seq<string> := ["pending", "paid", "failed", "refunded"]

  function ParsePaymentStatus(s: string): (r: Option<PaymentStatus>)
    ensures r.Some? <==> s in PaymentStatusNames
    ensures r.Some? ==> r.value.Name() == s
  {
    if s == "pending" then Some(PaymentStatus.Pending)
    else if s == "paid" then Some(PaymentStatus.Paid)
    else if s == "failed" then Some(PaymentStatus.Failed)
    else if s == "refunded" then Some(PaymentStatus.Refunded)
    else None
  }

  lemma PaymentStatusRoundTrip(st: PaymentStatus)
    ensures ParsePaymentStatus(st.Name()) == Some(st)
  {
  }

  /** A payment attempt's status. */
  datatype TransactionStatus = Pending | Success | Failed | Cancelled {
    function Name(): string {
      match this
      case Pending => "pending"
      case Success => "success"
      case Failed => "failed"
      case Cancelled => "cancelled"
    }
  }

  const TransactionStatusNames: seq<string> := ["pending", "success", "failed", "cancelled"]

  function ParseTransactionStatus(s: string): (r: Option<TransactionStatus>)
    ensures r.Some? <==> s in TransactionStatusNames
    ensures r.Some? ==> r.value.Name() == s
  {
    if s == "pending" then Some(TransactionStatus.Pending)
    else if s == "success" then Some(TransactionStatus.Success)
    else if s == "failed" then Some(TransactionStatus.Failed)
    else if s == "cancelled" then Some(TransactionStatus.Cancelled)
    else None
  }

  lemma TransactionStatusRoundTrip(st: TransactionStatus)
    ensures ParseTransactionStatus(st.Name()) == Some(st)
  {
  }

  /** An administrator's level. */
  datatype AdminLevel = Admin | SuperAdmin {
    function Name(): string {
      match this
      case Admin => "admin"
      case SuperAdmin => "super_admin"
    }
  }

  function ParseAdminLevel(s: string): (r: Option<AdminLevel>)
    ensures r.Some? <==> s == "admin" || s == "super_admin"
    ensures r.Some? ==> r.value.Name() == s
  {
    if s == "admin" then Some(Admin)
    else if s == "super_admin" then Some(SuperAdmin)
    else None
  }

  // ---------------------------------------------------------------- records

  datatype Profile = Profile(
    id: string,
    userId: string,
    fullName: Option<string>,
    phone: Option<string>,
    address: Option<string>,
    pincode: Option<string>,
    createdAt: int,
    updatedAt: int)

  datatype AdminUser = AdminUser(
    id: string,
    userId: string,
    adminLevel: AdminLevel,
    createdAt: int,
    updatedAt: int)

  /** The shipping address snapshot an order carries; all four parts are required. */
  datatype ShippingAddress = ShippingAddress(
    fullName: string,
    phone: string,
    address: string,
    pincode: string)

  datatype Order = Order(
    id: string,
    userId: string,
    orderNumber: string,
    status: OrderStatus,
    totalAmount: int,
    shippingAddress: ShippingAddress,
    paymentStatus: PaymentStatus,
    paymentMethod: Option<string>,
    notes: Option<string>,
    createdAt: int,
    updatedAt: int)

  datatype OrderItem = OrderItem(
    id: string,
    orderId: string,
    productId: string,
    productTitle: string,
    productCategory: Option<string>,
    quantity: int,
    unitPrice: int,
    totalPrice: int,
    createdAt: int)

  /** The order columns joined onto a transaction when transactions are
      fetched; `customerName` is the joined profile's `full_name`. */
  datatype JoinedOrder = JoinedOrder(
    id: string,
    userId: string,
    orderNumber: string,
    totalAmount: int,
    customerName: Option<string>)

  datatype Transaction = Transaction(
    id: string,
    orderId: string,
    transactionId: Option<string>,
    amount: int,
    status: TransactionStatus,
    paymentMethod: Option<string>,
    createdAt: int,
    updatedAt: int,
    order: Option<JoinedOrder>)
}
