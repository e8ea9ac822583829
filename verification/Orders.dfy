/** Orders, trades, reports and events: the plain data the engine works on. */
module Orders {
  type OrderId = nat
  type Price = int        // integer ticks
  type Quantity = nat     // unbounded here, 64 bits in the engine
  type Timestamp = nat

  datatype Side = Buy | Sell

  datatype OrderType = Limit | Market | Stop | StopLimit | Iceberg

  datatype OrderStatus = New | Resting | PartialFill | Filled | Cancelled | Rejected | Triggered

  datatype RejectReason = OrderNotFound | OrderNotCancellable | MarketExhausted

  datatype Option<+T> = None | Some(value: T)

  datatype Order = Order(
    id: OrderId,
    side: Side,
    kind: OrderType,
    price: Price,            // 0 for market orders
    stopPrice: Price,        // trigger of a stop or stop-limit
    quantity: Quantity,      // remaining; the visible slice of an iceberg
    origQty: Quantity,
    peakQty: Quantity,       // 0 when not an iceberg
    reserveQty: Quantity,    // hidden part of an iceberg
    timestamp: Timestamp,
    status: OrderStatus)
  {
    predicate IsBuy() { side.Buy? }

    predicate IsSell() { side.Sell? }

    predicate IsResting() { status.Resting? || status.PartialFill? }

    predicate IsIceberg() { peakQty > 0 }

    predicate IsStop() { kind.Stop? || kind.StopLimit? }

    function VisibleQty(): Quantity { if IsIceberg() then peakQty else quantity }

    /** Everything that can still trade: the visible slice and the hidden reserve. */
    function OpenQty(): Quantity { quantity + reserveQty }
  }

  datatype Trade = Trade(
    aggressorId: OrderId,
    passiveId: OrderId,
    price: Price,
    quantity: Quantity,
    aggressorSide: Side)

  datatype Report = Report(orderId: OrderId, status: OrderStatus, remainingQty: Quantity, timestamp: Timestamp)

  datatype Rejection = Rejection(orderId: OrderId, reason: RejectReason, timestamp: Timestamp)

  datatype MatchResult = MatchResult(trades: seq<Trade>, reports: seq<Report>, rejections: seq<Rejection>)

  const EMPTY_RESULT := MatchResult([], [], [])

  /** The result of running `a` and then appending what `b` produced. */
  function Merge(a: MatchResult, b: MatchResult): MatchResult {
    MatchResult(a.trades + b.trades, a.reports + b.reports, a.rejections + b.rejections)
  }

  lemma MergeAssociative(a: MatchResult, b: MatchResult, c: MatchResult)
    ensures Merge(Merge(a, b), c) == Merge(a, Merge(b, c))
    ensures Merge(a, EMPTY_RESULT) == a == Merge(EMPTY_RESULT, a)
  {
  }

  datatype Event =
    | NewOrder(order: Order)
    | CancelOrder(orderId: OrderId, timestamp: Timestamp)
    | ModifyOrder(orderId: OrderId, newPrice: Price, newQuantity: Quantity, timestamp: Timestamp)
    | ReplaceOrder(oldOrderId: OrderId, newOrder: Order)

  function Opp(side: Side): Side { if side.Buy? then Sell else Buy }

  function Min(a: nat, b: nat): nat { if a <= b then a else b }

  function Minus(a: nat, b: nat): nat { if a >= b then a - b else 0 }

  /** True when the last trade price `last` fires the stop `o`. */
  predicate Fires(o: Order, last: Price) {
    (o.IsBuy() && last >= o.stopPrice) || (o.IsSell() && last <= o.stopPrice)
  }

  /** The one demand the engine makes of a new order by itself: its iceberg
      split must not underflow. */
  predicate Admissible(o: Order) {
    o.kind.Iceberg? ==> o.peakQty <= o.quantity
  }
}
