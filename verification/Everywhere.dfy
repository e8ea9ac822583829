/** Properties of single orders that hold wherever an order is: on the book,
    pending, suspended or in flight. */
module Everywhere {
  import opened Orders
  import opened Ladder
  import opened Matcher

  ghost predicate All(s: seq<Order>, p: Order -> bool) {
    forall o :: o in s ==> p(o)
  }

  /** Stop lists hold nothing but stops. */
  ghost predicate AllStops(s: seq<Order>, p: Order -> bool) {
    forall o :: o in s ==> p(o) && o.IsStop()
  }

  ghost predicate AllStack(k: Stack, p: Order -> bool) {
    match k
    case Idle => true
    case Push(Matching(a), below) => p(a) && AllStack(below, p)
    case Push(Evaluating(_, w), below) => AllStops(w, p) && AllStack(below, p)
  }

  ghost predicate AllState(st: State, p: Order -> bool) {
    All(st.bids, p) && All(st.asks, p) && AllStops(st.stops, p)
  }

  ghost predicate Every(c: Config, p: Order -> bool) {
    AllState(c.st, p) && AllStack(c.stack, p)
  }

  function WithQuantity(o: Order, q: Quantity): Order { o.(quantity := q) }

  function WithStatus(o: Order, s: OrderStatus): Order { o.(status := s) }

  /** The property survives everything the engine does to an order. */
  ghost predicate Closed(p: Order -> bool) {
    && (forall o, q :: p(o) ==> p(WithQuantity(o, q)))
    && (forall o, s :: p(o) ==> p(WithStatus(o, s)))
    && (forall o :: p(o) ==> p(Replenished(o)))
    && (forall o: Order :: p(o) && o.IsStop() ==> p(Converted(o)))
  }

  lemma LaunchEvery(c: Config, o: Order, p: Order -> bool)
    requires Admissible(o) && Every(c, p) && Closed(p) && p(Entering(o))
    ensures Every(Launch(c, o), p)
  {
    assert p(WithStatus(Entering(o), OrderStatus.Resting));
    if o.IsStop() && c.st.last != 0 && Fires(o, c.st.last) {
      var r := o.(status := OrderStatus.Resting);
      assert p(WithStatus(Converted(r), OrderStatus.Resting));
      LaunchConverted(c, r);
    }
  }

  lemma AfterFillEvery(side: Side, s: seq<Order>, q: Quantity, p: Order -> bool)
    requires s != [] && q <= s[0].quantity && All(s, p) && Closed(p)
    ensures All(AfterFill(side, s, q), p)
  {
    assert s[0] in s && p(WithQuantity(s[0], s[0].quantity - q));
    assert All(s[1..], p);
    var r := s[0].(quantity := s[0].quantity - q);
    if r.quantity == 0 && r.IsIceberg() && r.reserveQty > 0 {
      InsertMembers(side, s[1..], Replenished(r));
    }
  }

  lemma FinishEvery(c: Config, a: Order, below: Stack, p: Order -> bool)
    requires c.stack == Push(Matching(a), below) && Every(c, p) && Closed(p)
    ensures Every(Finish(c, a, below), p)
  {
    assert p(WithStatus(a, Filled));
    InsertMembers(a.side, OnSide(c.st, a.side), Settled(a));
  }

  lemma JudgeEvery(c: Config, price: Price, w: seq<Order>, below: Stack, p: Order -> bool)
    requires c.stack == Push(Evaluating(price, w), below) && w != [] && Every(c, p) && Closed(p)
    ensures Every(Judge(c, price, w, below), p)
  {
    assert w[0] in w && AllStops(w[1..], p);
    var d := Config(c.st, Push(Evaluating(price, w[1..]), below), c.out);
    if Fires(w[0], price) {
      LaunchConverted(d, w[0]);
      assert p(WithStatus(Converted(w[0]), OrderStatus.Resting));
    }
  }

  /** A property closed under the engine's changes holds everywhere after a step. */
  lemma StepEvery(c: Config, p: Order -> bool)
    requires Every(c, p) && Closed(p)
    ensures Every(Step(c), p)
  {
    match c.stack {
      case Idle =>
      case Push(Matching(a), below) =>
        if CanFill(c.st, a) {
          AfterFillEvery(Opp(a.side), OnSide(c.st, Opp(a.side)), FillQty(c.st, a), p);
          assert p(WithQuantity(a, a.quantity - FillQty(c.st, a)));
        } else {
          FinishEvery(c, a, below, p);
        }
      case Push(Evaluating(price, w), below) =>
        if w != [] {
          JudgeEvery(c, price, w, below, p);
        }
    }
  }

  lemma {:induction false} RunEvery(c: Config, p: Order -> bool)
    requires Every(c, p) && Closed(p)
    ensures Every(Run(c), p)
    decreases Steps(c)
  {
    if c.stack.Push? {
      StepEvery(c, p);
      RunEvery(Step(c), p);
    }
  }

  lemma {:induction false} RemoveSubset(s: seq<Order>, id: OrderId)
    ensures forall o :: o in Remove(s, id) ==> o in s
  {
    if s != [] && s[0].id != id {
      RemoveSubset(s[1..], id);
    }
  }

  lemma {:induction false} UpdateSubset(s: seq<Order>, o: Order)
    ensures forall x :: x in Update(s, o) ==> x in s || x == o
  {
    if s != [] && s[0].id != o.id {
      UpdateSubset(s[1..], o);
    }
  }

  /** What an event must bring along for the property to hold afterwards. */
  ghost predicate Brings(e: Event, p: Order -> bool)
    requires AdmissibleEvent(e)
  {
    match e
    case NewOrder(o) => p(Entering(o))
    case CancelOrder(_, _) => true
    case ModifyOrder(_, price, quantity, timestamp) => forall o :: p(o) ==> p(Modified(o, price, quantity, timestamp))
    case ReplaceOrder(_, o) => p(Entering(o))
  }

  lemma EnterEvery(st: State, o: Order, p: Order -> bool)
    requires Admissible(o) && AllState(st, p) && Closed(p) && p(Entering(o))
    ensures AllState(Enter(st, o).0, p)
  {
    var c := Config(st, Idle, EMPTY_RESULT);
    LaunchEvery(c, o, p);
    RunEvery(Launch(c, o), p);
  }

  /** Such a property is an invariant of every event. */
  lemma SubmitEvery(st: State, e: Event, p: Order -> bool)
    requires AdmissibleEvent(e) && AllState(st, p) && Closed(p) && Brings(e, p)
    ensures AllState(Submit(st, e).0, p)
  {
    match e {
      case NewOrder(o) =>
        EnterEvery(st, o, p);
      case CancelOrder(id, timestamp) =>
        RemoveSubset(st.stops, id);
        RemoveSubset(st.bids, id);
        RemoveSubset(st.asks, id);
      case ModifyOrder(id, price, quantity, timestamp) =>
        ModifyEvery(st, id, price, quantity, timestamp, p);
      case ReplaceOrder(id, o) =>
        RemoveSubset(st.bids, id);
        RemoveSubset(st.asks, id);
        if Lookup(st, id).Some? {
          EnterEvery(Withdraw(st, id), o, p);
        }
    }
  }

  lemma ModifyEvery(st: State, id: OrderId, price: Price, quantity: Quantity, timestamp: Timestamp, p: Order -> bool)
    requires AllState(st, p) && Closed(p) && forall o :: p(o) ==> p(Modified(o, price, quantity, timestamp))
    ensures AllState(Modify(st, id, price, quantity, timestamp).0, p)
  {
    RemoveSubset(st.bids, id);
    RemoveSubset(st.asks, id);
    var found := Lookup(st, id);
    if found.Some? {
      var o := found.value;
      assert p(o);
      var m := Modified(o, price, quantity, timestamp);
      InsertMembers(m.side, OnSide(Withdraw(st, id), m.side), m);
      assert p(WithQuantity(o, quantity));
      UpdateSubset(OnSide(st, o.side), o.(quantity := quantity));
    }
  }
}
