/** The orders hook's local rules: who may fetch which orders, the guards
    in front of creating an order and changing its status, and how a
    recorded payment attempt sets the order's payment status. The remote
    store is not modelled: each operation yields the request it would send. */
module Orders {
  import opened Wrappers
  import opened Seqs
  import opened Database
  import opened Auth

  /** The orders a session receives when it fetches: nothing happens without
      a user; an admin gets every order and anyone else only their own. */
  function FetchOrders(s: Session, all: seq<Order>): (r: Option<seq<Order>>)
    ensures r.None? <==> s.user.None?
    ensures r.Some? && s.isAdmin ==> r.value == all
    ensures r.Some? && !s.isAdmin ==>
      forall i :: 0 <= i < |r.value| ==> r.value[i].userId == s.user.value && r.value[i] in all
    ensures r.Some? && !s.isAdmin ==>
      forall i :: 0 <= i < |all| && all[i].userId == s.user.value ==> all[i] in r.value
  {
    match s.user
    case None => None
    case Some(uid) => if s.isAdmin then Some(all) else Some(Filter(all, OwnedBy(uid)))
  }

  function OwnedBy(uid: string): Order -> bool {
    (o: Order) => o.userId == uid
  }

  /** A customer's fetch keeps the store's order and never shows another
      customer's order. */
  lemma CustomerSeesOwnOrdersInOrder(uid: string, all: seq<Order>)
    ensures var r := FetchOrders(Session(Some(uid), false), all);
      r.Some? && IsSubseq(r.value, all) &&
      forall o :: o in r.value <==> o in all && o.userId == uid
  {
    FilterIsSubseq(all, OwnedBy(uid));
  }

  // ---------------------------------------------------------- create order

  datatype NewOrderItem = NewOrderItem(
    productId: string,
    productTitle: string,
    productCategory: string,
    quantity: int,
    unitPrice: int,
    totalPrice: int)

  /** The arguments of the order-creating procedure call. */
  datatype CreateOrderCall = CreateOrderCall(
    userId: string,
    totalAmount: int,
    shippingAddress: ShippingAddress,
    paymentMethod: string,
    items: seq<NewOrderItem>)

  const NotAuthenticated := "User not authenticated"

  /** `createOrder`: refused without a user; otherwise the call carries the
      user's id and the caller's data unchanged. */
  function CreateOrder(s: Session, items: seq<NewOrderItem>, totalAmount: int,
                       address: ShippingAddress, paymentMethod: string): (r: Result<CreateOrderCall, string>)
    ensures r.Failure? <==> s.user.None?
    ensures r.Failure? ==> r.error == NotAuthenticated
    ensures r.Success? ==>
      r.value.userId == s.user.value && r.value.items == items &&
      r.value.totalAmount == totalAmount && r.value.shippingAddress == address &&
      r.value.paymentMethod == paymentMethod
  {
    match s.user
    case None => Failure(NotAuthenticated)
    case Some(uid) => Result.Success(CreateOrderCall(uid, totalAmount, address, paymentMethod, items))
  }

  // ---------------------------------------------------------- order status

  /** An order row update: the status and the update instant. */
  datatype StatusUpdate = StatusUpdate(orderId: string, status: OrderStatus, updatedAt: int)

  const AdminRequired := "Admin access required"

  /** `updateOrderStatus`: refused unless the `isAdmin` flag is set (the
      user itself is not checked here), before anything is sent. */
  function UpdateOrderStatus(s: Session, orderId: string, status: OrderStatus, now: int): (r: Result<StatusUpdate, string>)
    ensures r.Failure? <==> !s.isAdmin
    ensures r.Failure? ==> r.error == AdminRequired
    ensures r.Success? ==> r.value == StatusUpdate(orderId, status, now)
  {
    if !s.isAdmin then Failure(AdminRequired) else Result.Success(StatusUpdate(orderId, status, now))
  }

  /** What the store holds after a status update of this order. */
  function ApplyStatusUpdate(o: Order, u: StatusUpdate): (r: Order)
    requires u.orderId == o.id
    ensures r.status == u.status && r.updatedAt == u.updatedAt
    ensures r.(status := o.status, updatedAt := o.updatedAt) == o
  {
    o.(status := u.status, updatedAt := u.updatedAt)
  }

  // --------------------------------------------------- create transaction

  datatype NewTransaction = NewTransaction(
    orderId: string,
    transactionId: Option<string>,
    amount: int,
    status: TransactionStatus,
    paymentMethod: Option<string>)

  /** An order row update: the payment status and the update instant. */
  datatype PaymentUpdate = PaymentUpdate(orderId: string, paymentStatus: PaymentStatus, updatedAt: int)

  /** The payment status an order gets from a payment attempt: paid for a
      successful one, failed for every other status, pending included. */
  function PaymentStatusFor(st: TransactionStatus): (r: PaymentStatus)
    ensures r == PaymentStatus.Paid <==> st == TransactionStatus.Success
    ensures r == PaymentStatus.Paid || r == PaymentStatus.Failed
  {
    if st == TransactionStatus.Success then PaymentStatus.Paid else PaymentStatus.Failed
  }

  /** The writes `createTransaction` makes: the insert, and, once the insert
      succeeded (`inserted`), the order's payment status. There is no user
      or admin check. */
  datatype TransactionWrite = InsertTransaction(data: NewTransaction) | SetPaymentStatus(update: PaymentUpdate)

  function CreateTransaction(data: NewTransaction, inserted: bool, now: int): (r: seq<TransactionWrite>)
    ensures |r| >= 1 && r[0] == InsertTransaction(data)
    ensures |r| == (if inserted then 2 else 1)
    ensures inserted ==> r[1] == SetPaymentStatus(PaymentUpdate(data.orderId, PaymentStatusFor(data.status), now))
  {
    if !inserted then [InsertTransaction(data)]
    else [InsertTransaction(data), SetPaymentStatus(PaymentUpdate(data.orderId, PaymentStatusFor(data.status), now))]
  }

  /** A still-pending payment attempt already marks its order as failed. */
  lemma PendingAttemptMarksFailed(data: NewTransaction, now: int)
    requires data.status == TransactionStatus.Pending
    ensures CreateTransaction(data, true, now)[1].update.paymentStatus == PaymentStatus.Failed
  {
  }

  /** Recording an attempt never leaves an order pending or refunded. */
  lemma PaymentStatusNeverPendingOrRefunded(st: TransactionStatus)
    ensures PaymentStatusFor(st) != PaymentStatus.Pending && PaymentStatusFor(st) != PaymentStatus.Refunded
  {
  }
}
