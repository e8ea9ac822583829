/** The reference matcher: a small-step machine over eager books.

    A state holds the two sides of the book as price-time sorted lists, the last
    trade price and the pending stops. A configuration adds the stack of
    activities the recursive engine has under way: an order looking for
    counterparties, or a batch of suspended stops being evaluated. */
module Matcher {
  import opened Orders
  import opened Ladder

  datatype State = State(bids: seq<Order>, asks: seq<Order>, last: Price, stops: seq<Order>)

  datatype Frame =
    | Matching(order: Order)
    | Evaluating(price: Price, working: seq<Order>)

  datatype Stack = Idle | Push(top: Frame, below: Stack)

  datatype Config = Config(st: State, stack: Stack, out: MatchResult)

  const EMPTY_STATE := State([], [], 0, [])

  function OnSide(st: State, side: Side): seq<Order> {
    if side.Buy? then st.bids else st.asks
  }

  function WithSide(st: State, side: Side, s: seq<Order>): State {
    if side.Buy? then st.(bids := s) else st.(asks := s)
  }

  // ---- one step ---------------------------------------------------------------

  /** Would an aggressor accept this price? A market order accepts any. */
  predicate Crosses(a: Order, price: Price) {
    a.kind.Market? || (if a.IsBuy() then price <= a.price else price >= a.price)
  }

  predicate CanFill(st: State, a: Order) {
    var opposite := OnSide(st, Opp(a.side));
    a.quantity > 0 && opposite != [] && Crosses(a, opposite[0].price)
  }

  /** A fresh slice out of the reserve. */
  function Replenished(p: Order): Order {
    var peak := Min(p.peakQty, p.reserveQty);
    p.(quantity := peak, reserveQty := p.reserveQty - peak)
  }

  /** The passive side after its first order gave up `q`. */
  function AfterFill(side: Side, s: seq<Order>, q: Quantity): seq<Order>
    requires s != [] && q <= s[0].quantity
  {
    var p := s[0].(quantity := s[0].quantity - q);
    if p.quantity > 0 then [p] + s[1..]
    else if p.IsIceberg() && p.reserveQty > 0 then Insert(side, s[1..], Replenished(p))
    else s[1..]
  }

  function TradeOf(a: Order, p: Order, q: Quantity): Trade {
    Trade(a.id, p.id, p.price, q, a.side)
  }

  function AddTrade(out: MatchResult, t: Trade): MatchResult {
    out.(trades := out.trades + [t])
  }

  function AddRejection(out: MatchResult, r: Rejection): MatchResult {
    out.(rejections := out.rejections + [r])
  }

  /** Moves all pending stops into a batch to be judged at the last price. */
  function StartEvaluation(c: Config): Config {
    if c.st.stops == [] || c.st.last == 0 then c
    else Config(c.st.(stops := []), Push(Evaluating(c.st.last, c.st.stops), c.stack), c.out)
  }

  function FillQty(st: State, a: Order): Quantity
    requires CanFill(st, a)
  {
    Min(a.quantity, OnSide(st, Opp(a.side))[0].quantity)
  }

  /** The trade itself, before any stop is looked at. */
  function Traded(c: Config, a: Order, below: Stack): Config
    requires CanFill(c.st, a)
  {
    var opposite := OnSide(c.st, Opp(a.side));
    var q := FillQty(c.st, a);
    Config(WithSide(c.st, Opp(a.side), AfterFill(Opp(a.side), opposite, q)).(last := opposite[0].price),
           Push(Matching(a.(quantity := a.quantity - q)), below),
           AddTrade(c.out, TradeOf(a, opposite[0], q)))
  }

  function Settled(a: Order): Order {
    if a.quantity == 0 then a.(status := Filled) else a
  }

  /** Does a finished aggressor stay on the book? */
  predicate Rests(a: Order) {
    !a.kind.Market? && (a.quantity > 0 || (a.kind.Iceberg? && a.reserveQty > 0))
  }

  function Exhausted(a: Order): Rejection {
    Rejection(a.id, MarketExhausted, 0)
  }

  function Finish(c: Config, a: Order, below: Stack): Config {
    if a.kind.Market? then
      Config(c.st, below, if a.quantity > 0 then AddRejection(c.out, Exhausted(a)) else c.out)
    else if Rests(a) then
      Config(WithSide(c.st, a.side, Insert(a.side, OnSide(c.st, a.side), Settled(a))), below, c.out)
    else
      Config(c.st, below, c.out)
  }

  /** What a fired stop turns into. */
  function Converted(o: Order): Order {
    if o.kind.Stop? then o.(status := Triggered, kind := Market, price := 0)
    else o.(status := Triggered, kind := Limit)
  }

  /** Admits an order: it starts matching, or waits as a pending stop. */
  function Launch(c: Config, e: Order): Config
    requires Admissible(e)
    decreases e.IsStop()
  {
    var o := e.(status := OrderStatus.Resting);
    if o.kind.Limit? || o.kind.Market? then
      Config(c.st, Push(Matching(o), c.stack), c.out)
    else if o.IsStop() then
      if c.st.last != 0 && Fires(o, c.st.last) then Launch(c, Converted(o))
      else Config(c.st.(stops := c.st.stops + [o]), c.stack, c.out)
    else
      Config(c.st, Push(Matching(o.(reserveQty := o.quantity - o.peakQty, quantity := o.peakQty)), c.stack), c.out)
  }

  /** An order as it starts matching: an iceberg split into slice and reserve. */
  function Entering(o: Order): Order
    requires Admissible(o)
  {
    if o.kind.Iceberg? then o.(reserveQty := o.quantity - o.peakQty, quantity := o.peakQty) else o
  }

  lemma LaunchConverted(c: Config, o: Order)
    ensures Launch(c, Converted(o)) ==
            Config(c.st, Push(Matching(Converted(o).(status := OrderStatus.Resting)), c.stack), c.out)
  {
  }

  function Judge(c: Config, price: Price, working: seq<Order>, below: Stack): Config
    requires working != []
  {
    var waiting := Push(Evaluating(price, working[1..]), below);
    if Fires(working[0], price) then Launch(Config(c.st, waiting, c.out), Converted(working[0]))
    else Config(c.st.(stops := c.st.stops + [working[0]]), waiting, c.out)
  }

  function Step(c: Config): Config {
    match c.stack
    case Idle => c
    case Push(Matching(a), below) =>
      if CanFill(c.st, a) then StartEvaluation(Traded(c, a, below)) else Finish(c, a, below)
    case Push(Evaluating(price, working), below) =>
      if working == [] then Config(c.st, below, c.out) else Judge(c, price, working, below)
  }

  // ---- termination ------------------------------------------------------------

  /** Stops that can still fire: pending ones and those in suspended batches. */
  ghost function StopsInStack(k: Stack): nat {
    match k
    case Idle => 0
    case Push(Matching(_), below) => StopsInStack(below)
    case Push(Evaluating(_, w), below) => |w| + StopsInStack(below)
  }

  ghost function InFlight(k: Stack): nat {
    match k
    case Idle => 0
    case Push(Matching(a), below) => a.quantity + InFlight(below)
    case Push(Evaluating(_, _), below) => InFlight(below)
  }

  ghost function Matchings(k: Stack): nat {
    match k
    case Idle => 0
    case Push(Matching(_), below) => 1 + Matchings(below)
    case Push(Evaluating(_, _), below) => Matchings(below)
  }

  ghost function Work(k: Stack): nat {
    match k
    case Idle => 0
    case Push(Matching(_), below) => 1 + Work(below)
    case Push(Evaluating(_, w), below) => 1 + |w| + Work(below)
  }

  ghost const IS_ZERO: Order -> nat := (o: Order) => if o.quantity == 0 then 1 else 0

  ghost function Rank0(c: Config): nat { |c.st.stops| + StopsInStack(c.stack) }

  ghost function Rank1(c: Config): nat { InFlight(c.stack) }

  /** A fill of size zero uses up a resting order whose visible slice is empty. */
  ghost function Rank2(c: Config): nat {
    Sum(c.st.bids, IS_ZERO) + Sum(c.st.asks, IS_ZERO) + Matchings(c.stack)
  }

  ghost function Rank3(c: Config): nat { Work(c.stack) }

  ghost predicate Lower(d: Config, c: Config) {
    || Rank0(d) < Rank0(c)
    || (Rank0(d) == Rank0(c) && Rank1(d) < Rank1(c))
    || (Rank0(d) == Rank0(c) && Rank1(d) == Rank1(c) && Rank2(d) < Rank2(c))
    || (Rank0(d) == Rank0(c) && Rank1(d) == Rank1(c) && Rank2(d) == Rank2(c) && Rank3(d) < Rank3(c))
  }

  lemma AfterFillZeros(side: Side, s: seq<Order>, q: Quantity)
    requires s != [] && q <= s[0].quantity
    ensures s[0].quantity == 0 ==> Sum(AfterFill(side, s, q), IS_ZERO) < Sum(s, IS_ZERO)
  {
    var p := s[0].(quantity := s[0].quantity - q);
    if p.quantity == 0 && p.IsIceberg() && p.reserveQty > 0 {
      SumInsert(side, s[1..], Replenished(p), IS_ZERO);
    }
  }

  lemma FillDescends(c: Config, a: Order, below: Stack)
    requires c.stack == Push(Matching(a), below) && CanFill(c.st, a)
    ensures Lower(Step(c), c)
  {
    var opposite := OnSide(c.st, Opp(a.side));
    AfterFillZeros(Opp(a.side), opposite, FillQty(c.st, a));
    var d := Traded(c, a, below);
    assert Rank0(StartEvaluation(d)) == Rank0(d) == Rank0(c);
    assert Rank1(StartEvaluation(d)) == Rank1(d) == Rank1(c) - FillQty(c.st, a);
    assert Rank2(StartEvaluation(d)) == Rank2(d);
  }

  lemma JudgeDescends(c: Config, price: Price, working: seq<Order>, below: Stack)
    requires c.stack == Push(Evaluating(price, working), below) && working != []
    ensures Lower(Judge(c, price, working, below), c)
  {
    var waiting := Push(Evaluating(price, working[1..]), below);
    var d := Judge(c, price, working, below);
    if Fires(working[0], price) {
      assert d == Config(c.st, Push(Matching(Converted(working[0]).(status := OrderStatus.Resting)), waiting), c.out)
        by { assert !Converted(working[0]).IsStop(); }
      assert StopsInStack(d.stack) == StopsInStack(waiting) == StopsInStack(c.stack) - 1;
    } else {
      assert StopsInStack(d.stack) == StopsInStack(c.stack) - 1;
      assert Work(d.stack) == Work(c.stack) - 1;
    }
  }

  lemma FinishDescends(c: Config, a: Order, below: Stack)
    requires c.stack == Push(Matching(a), below)
    ensures Lower(Finish(c, a, below), c)
  {
    SumInsert(a.side, OnSide(c.st, a.side), Settled(a), IS_ZERO);
  }

  /** Every step lowers the rank: stops that can fire, then quantity in flight,
      then empty slices and aggressors, then pending bookkeeping. */
  lemma StepDescends(c: Config)
    requires c.stack.Push?
    ensures Lower(Step(c), c)
  {
    match c.stack {
      case Push(Matching(a), below) =>
        if CanFill(c.st, a) {
          FillDescends(c, a, below);
        } else {
          FinishDescends(c, a, below);
        }
      case Push(Evaluating(price, working), below) =>
        if working != [] {
          JudgeDescends(c, price, working, below);
        }
    }
  }

  /** Runs a configuration until nothing is under way. */
  ghost function Run(c: Config): (d: Config)
    ensures d.stack.Idle?
    decreases Rank0(c), Rank1(c), Rank2(c), Rank3(c)
  {
    if c.stack.Idle? then c
    else
      StepDescends(c);
      Run(Step(c))
  }

  lemma RunIdle(c: Config)
    requires c.stack.Idle?
    ensures Run(c) == c
  {
  }

  /** How many steps that takes. */
  ghost function Steps(c: Config): (n: nat)
    ensures n == 0 <==> c.stack.Idle?
    decreases Rank0(c), Rank1(c), Rank2(c), Rank3(c)
  {
    if c.stack.Idle? then 0
    else
      StepDescends(c);
      1 + Steps(Step(c))
  }

  /** The configuration after `n` steps. */
  ghost function Iterate(c: Config, n: nat): Config
    decreases n
  {
    if n == 0 then c else Iterate(Step(c), n - 1)
  }

  lemma {:induction false} RunIsIterate(c: Config)
    ensures Iterate(c, Steps(c)) == Run(c)
    decreases Steps(c)
  {
    if c.stack.Push? {
      RunIsIterate(Step(c));
    }
  }

  lemma {:induction false} IterateStep(c: Config, n: nat)
    ensures Iterate(c, n + 1) == Step(Iterate(c, n))
    decreases n
  {
    if n > 0 {
      IterateStep(Step(c), n - 1);
    }
  }

  lemma {:induction false} IterateSum(c: Config, m: nat, n: nat)
    ensures Iterate(c, m + n) == Iterate(Iterate(c, m), n)
    decreases m
  {
    if m > 0 {
      IterateSum(Step(c), m - 1, n);
    }
  }

  lemma {:induction false} IterateSteps(c: Config, n: nat)
    requires n <= Steps(c)
    ensures Steps(Iterate(c, n)) == Steps(c) - n && Run(Iterate(c, n)) == Run(c)
    decreases n
  {
    hide Step;
    if n > 0 {
      IterateSteps(Step(c), n - 1);
    }
  }

  /** The run of `c` comes by `d`. */
  ghost predicate Reaches(c: Config, d: Config) {
    exists n: nat :: n <= Steps(c) && Iterate(c, n) == d
  }

  lemma ReachesNowhere(c: Config)
    ensures Reaches(c, c)
  {
    assert Iterate(c, 0) == c;
  }

  lemma ReachesStep(c: Config)
    requires c.stack.Push?
    ensures Reaches(c, Step(c))
  {
    hide Step;
    assert Iterate(Step(c), 0) == Step(c);
    assert Iterate(c, 1) == Step(c);
  }

  lemma ReachesOn(c: Config, d: Config, e: Config)
    requires Reaches(c, d) && Reaches(d, e)
    ensures Reaches(c, e) && Run(c) == Run(d) && Steps(e) <= Steps(d) <= Steps(c)
  {
    var m: nat :| m <= Steps(c) && Iterate(c, m) == d;
    var n: nat :| n <= Steps(d) && Iterate(d, n) == e;
    IterateSum(c, m, n);
    IterateSteps(c, m);
    IterateSteps(d, n);
  }

  // ---- events -----------------------------------------------------------------

  function Lookup(st: State, id: OrderId): Option<Order> {
    var b := Find(st.bids, id);
    if b.Some? then b else Find(st.asks, id)
  }

  /** Takes an order off the book. */
  function Withdraw(st: State, id: OrderId): State {
    st.(bids := Remove(st.bids, id), asks := Remove(st.asks, id))
  }

  function Place(st: State, o: Order): State {
    WithSide(st, o.side, Insert(o.side, OnSide(st, o.side), o))
  }

  ghost function Enter(st: State, o: Order): (State, MatchResult)
    requires Admissible(o)
  {
    var c := Run(Launch(Config(st, Idle, EMPTY_RESULT), o));
    (c.st, c.out)
  }

  function Rejecting(id: OrderId, reason: RejectReason, timestamp: Timestamp): MatchResult {
    MatchResult([], [], [Rejection(id, reason, timestamp)])
  }

  function Reporting(id: OrderId, remaining: Quantity, timestamp: Timestamp): MatchResult {
    MatchResult([], [Report(id, Cancelled, remaining, timestamp)], [])
  }

  function Cancel(st: State, id: OrderId, timestamp: Timestamp): (State, MatchResult) {
    var stop := Find(st.stops, id);
    var found := Lookup(st, id);
    if stop.Some? then
      (st.(stops := Remove(st.stops, id)), Reporting(id, stop.value.quantity, timestamp))
    else if found.None? then (st, Rejecting(id, OrderNotFound, timestamp))
    else if !found.value.IsResting() then (st, Rejecting(id, OrderNotCancellable, timestamp))
    else (Withdraw(st, id), Reporting(id, found.value.quantity, timestamp))
  }

  /** A price change or a quantity increase gives up the place in the queue. */
  predicate Requeues(o: Order, newPrice: Price, newQuantity: Quantity) {
    (newPrice != 0 && newPrice != o.price) || (newQuantity != 0 && newQuantity > o.quantity)
  }

  function Modified(o: Order, newPrice: Price, newQuantity: Quantity, timestamp: Timestamp): Order {
    o.(price := if newPrice != 0 then newPrice else o.price,
       quantity := if newQuantity != 0 then newQuantity else o.quantity,
       timestamp := timestamp)
  }

  function Modify(st: State, id: OrderId, newPrice: Price, newQuantity: Quantity, timestamp: Timestamp)
    : (State, MatchResult)
  {
    var found := Lookup(st, id);
    if found.None? then (st, Rejecting(id, OrderNotFound, 0))
    else if !found.value.IsResting() then (st, Rejecting(id, OrderNotCancellable, 0))
    else if Requeues(found.value, newPrice, newQuantity) then
      (Place(Withdraw(st, id), Modified(found.value, newPrice, newQuantity, timestamp)), EMPTY_RESULT)
    else if newQuantity != 0 && newQuantity < found.value.quantity then
      var o := found.value.(quantity := newQuantity);
      (WithSide(st, o.side, Update(OnSide(st, o.side), o)), EMPTY_RESULT)
    else (st, EMPTY_RESULT)
  }

  ghost function Replace(st: State, id: OrderId, o: Order): (State, MatchResult)
    requires Admissible(o)
  {
    if Lookup(st, id).None? then (st, Rejecting(id, OrderNotFound, 0))
    else Enter(Withdraw(st, id), o)
  }

  predicate AdmissibleEvent(e: Event) {
    match e
    case NewOrder(o) => Admissible(o)
    case ReplaceOrder(_, o) => Admissible(o)
    case _ => true
  }

  ghost function Submit(st: State, e: Event): (State, MatchResult)
    requires AdmissibleEvent(e)
  {
    match e
    case NewOrder(o) => Enter(st, o)
    case CancelOrder(id, timestamp) => Cancel(st, id, timestamp)
    case ModifyOrder(id, newPrice, newQuantity, timestamp) => Modify(st, id, newPrice, newQuantity, timestamp)
    case ReplaceOrder(id, o) => Replace(st, id, o)
  }

  /** The event takes an order off the book on request. */
  predicate Evicts(st: State, e: Event) {
    match e
    case NewOrder(_) => false
    case CancelOrder(id, _) =>
      Find(st.stops, id).None? && Lookup(st, id).Some? && Lookup(st, id).value.IsResting()
    case ModifyOrder(id, newPrice, newQuantity, _) =>
      Lookup(st, id).Some? && Lookup(st, id).value.IsResting() && Requeues(Lookup(st, id).value, newPrice, newQuantity)
    case ReplaceOrder(id, _) => Lookup(st, id).Some?
  }

  /** The order an event is about. */
  function Subject(e: Event): OrderId {
    match e
    case NewOrder(o) => o.id
    case CancelOrder(id, _) => id
    case ModifyOrder(id, _, _, _) => id
    case ReplaceOrder(id, _) => id
  }

  /** A whole run of events: the final state and the result of each. */
  ghost function Play(st: State, es: seq<Event>): (State, seq<MatchResult>)
    requires forall e :: e in es ==> AdmissibleEvent(e)
    decreases |es|
  {
    if es == [] then (st, [])
    else
      var (st1, r) := Submit(st, es[0]);
      var (st2, rs) := Play(st1, es[1..]);
      (st2, [r] + rs)
  }
}
