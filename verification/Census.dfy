/** Counting over everything open in a configuration: both sides, pending and
    suspended stops, and orders in flight. */
module Census {
  import opened Orders
  import opened Ladder
  import opened Matcher

  ghost function StackSum(k: Stack, f: Order -> nat): nat {
    match k
    case Idle => 0
    case Push(Matching(a), below) => f(a) + StackSum(below, f)
    case Push(Evaluating(_, w), below) => Sum(w, f) + StackSum(below, f)
  }

  ghost function StateSum(st: State, f: Order -> nat): nat {
    Sum(st.bids, f) + Sum(st.asks, f) + Sum(st.stops, f)
  }

  ghost function Total(c: Config, f: Order -> nat): nat {
    StateSum(c.st, f) + StackSum(c.stack, f)
  }

  /** The measure looks at nothing but an order's id and side. */
  ghost predicate Stable(f: Order -> nat) {
    forall o: Order, o': Order :: o.id == o'.id && o.side == o'.side ==> f(o) == f(o')
  }

  function IdIs(id: OrderId): Order -> nat {
    (o: Order) => if o.id == id then 1 else 0
  }

  /** An admitted order adds its own weight, in whatever form it starts. */
  lemma LaunchWeight(c: Config, o: Order, f: Order -> nat)
    requires Admissible(o)
    requires o.IsStop() ==> f(Launched(o)) == f(o.(status := OrderStatus.Resting))
    ensures Total(Launch(c, o), f) == Total(c, f) + f(Entering(o).(status := OrderStatus.Resting))
  {
    var r := o.(status := OrderStatus.Resting);
    if o.IsStop() {
      if c.st.last != 0 && Fires(o, c.st.last) {
        LaunchConverted(c, r);
      } else {
        SumConcat(c.st.stops, [r], f);
      }
    }
  }

  lemma LaunchTotal(c: Config, o: Order, f: Order -> nat)
    requires Admissible(o) && Stable(f)
    ensures Total(Launch(c, o), f) == Total(c, f) + f(o)
  {
    LaunchWeight(c, o, f);
  }

  /** A fired stop as it starts matching. */
  function Launched(o: Order): Order { Converted(o).(status := OrderStatus.Resting) }

  lemma AfterFillTotal(side: Side, s: seq<Order>, q: Quantity, f: Order -> nat)
    requires s != [] && q <= s[0].quantity && Stable(f)
    ensures Sum(AfterFill(side, s, q), f) <= Sum(s, f)
  {
    var p := s[0].(quantity := s[0].quantity - q);
    if p.quantity > 0 {
      assert ([p] + s[1..])[1..] == s[1..];
    } else if p.IsIceberg() && p.reserveQty > 0 {
      SumInsert(side, s[1..], Replenished(p), f);
    }
  }

  /** No step brings an id into play that was not open already. */
  lemma StepTotal(c: Config, f: Order -> nat)
    requires Stable(f)
    ensures Total(Step(c), f) <= Total(c, f)
  {
    match c.stack {
      case Idle =>
      case Push(Matching(a), below) =>
        if CanFill(c.st, a) {
          AfterFillTotal(Opp(a.side), OnSide(c.st, Opp(a.side)), FillQty(c.st, a), f);
          assert Total(StartEvaluation(Traded(c, a, below)), f) == Total(Traded(c, a, below), f);
        } else {
          FinishTotal(c, a, below, f);
        }
      case Push(Evaluating(price, w), below) =>
        if w != [] {
          JudgeTotal(c, price, w, below, f);
        }
    }
  }

  lemma JudgeTotal(c: Config, price: Price, w: seq<Order>, below: Stack, f: Order -> nat)
    requires c.stack == Push(Evaluating(price, w), below) && w != [] && f(Launched(w[0])) == f(w[0])
    ensures Total(Judge(c, price, w, below), f) == Total(c, f)
  {
    var waiting := Push(Evaluating(price, w[1..]), below);
    if Fires(w[0], price) {
      LaunchConverted(Config(c.st, waiting, c.out), w[0]);
      assert StackSum(Push(Matching(Launched(w[0])), waiting), f) == f(Launched(w[0])) + StackSum(waiting, f);
      assert StackSum(waiting, f) == Sum(w[1..], f) + StackSum(below, f);
    } else {
      SumConcat(c.st.stops, [w[0]], f);
    }
  }

  lemma FinishTotal(c: Config, a: Order, below: Stack, f: Order -> nat)
    requires c.stack == Push(Matching(a), below) && f(Settled(a)) == f(a)
    ensures Total(Finish(c, a, below), f) + (if Rests(a) then 0 else f(a)) == Total(c, f)
  {
    SumInsert(a.side, OnSide(c.st, a.side), Settled(a), f);
  }

  /** Every id is open at most once, wherever it is. */
  ghost predicate Unique(c: Config) {
    forall id :: Total(c, IdIs(id)) <= 1
  }

  lemma StepUnique(c: Config)
    requires Unique(c)
    ensures Unique(Step(c))
  {
    forall id ensures Total(Step(c), IdIs(id)) <= 1 {
      var f := IdIs(id);
      IdIsStable(id);
      StepTotal(c, f);
    }
  }

  lemma IdIsStable(id: OrderId)
    ensures Stable(IdIs(id))
  {
  }

  lemma {:induction false} SumZero(s: seq<Order>, id: OrderId)
    ensures Sum(s, IdIs(id)) == 0 <==> forall o :: o in s ==> o.id != id
  {
    if s != [] {
      SumZero(s[1..], id);
      assert s == [s[0]] + s[1..];
    }
  }

  lemma {:induction false} RunTotal(c: Config, f: Order -> nat)
    requires Stable(f)
    ensures Total(Run(c), f) <= Total(c, f)
    decreases Steps(c)
  {
    if c.stack.Push? {
      StepTotal(c, f);
      RunTotal(Step(c), f);
    }
  }

  // ---- events -----------------------------------------------------------------

  ghost predicate UniqueIds(st: State) {
    forall id :: StateSum(st, IdIs(id)) <= 1
  }

  lemma WithdrawTotal(st: State, id: OrderId, f: Order -> nat)
    ensures StateSum(Withdraw(st, id), f) <= StateSum(st, f)
  {
    SumRemoveAtMost(st.bids, id, f);
    SumRemoveAtMost(st.asks, id, f);
  }

  lemma {:induction false} SumRemoveOne(s: seq<Order>, id: OrderId)
    ensures Sum(Remove(s, id), IdIs(id)) + (if Find(s, id).Some? then 1 else 0) == Sum(s, IdIs(id))
  {
    if s != [] && s[0].id != id {
      SumRemoveOne(s[1..], id);
    }
  }

  /** A withdrawn order is gone altogether. */
  lemma WithdrawGone(st: State, id: OrderId)
    requires UniqueIds(st) && Lookup(st, id).Some?
    ensures StateSum(Withdraw(st, id), IdIs(id)) == 0
  {
    assert StateSum(st, IdIs(id)) <= 1;
    SumRemoveOne(st.bids, id);
    SumRemoveOne(st.asks, id);
  }

  lemma PlaceTotal(st: State, o: Order, f: Order -> nat)
    ensures StateSum(Place(st, o), f) == StateSum(st, f) + f(o)
  {
    SumInsert(o.side, OnSide(st, o.side), o, f);
  }

  lemma {:induction false} SumUpdate(s: seq<Order>, o: Order, f: Order -> nat)
    requires Stable(f) && forall x :: x in s && x.id == o.id ==> x.side == o.side
    ensures Sum(Update(s, o), f) == Sum(s, f)
  {
    if s != [] {
      assert s[0] in s;
      if s[0].id != o.id {
        SumUpdate(s[1..], o, f);
      }
    }
  }

  /** What the surroundings owe the engine: ids of new orders are not in use. */
  ghost predicate WellFormed(st: State, e: Event) {
    && AdmissibleEvent(e)
    && match e
       case NewOrder(o) => StateSum(st, IdIs(o.id)) == 0
       case ReplaceOrder(id, o) => Lookup(st, id).Some? ==> StateSum(Withdraw(st, id), IdIs(o.id)) == 0
       case _ => true
  }

  /** Every event is well-formed where it comes. */
  ghost predicate WellFormedRun(st: State, es: seq<Event>)
    decreases |es|
  {
    es == [] || (WellFormed(st, es[0]) && WellFormedRun(Submit(st, es[0]).0, es[1..]))
  }

  lemma {:induction false} RunAdmissible(st: State, es: seq<Event>)
    requires WellFormedRun(st, es)
    ensures forall e :: e in es ==> AdmissibleEvent(e)
    decreases |es|
  {
    if es != [] {
      RunAdmissible(Submit(st, es[0]).0, es[1..]);
      assert es == [es[0]] + es[1..];
    }
  }

  lemma LaunchCount(st: State, o: Order, id: OrderId)
    requires Admissible(o)
    ensures Total(Launch(Config(st, Idle, EMPTY_RESULT), o), IdIs(id)) ==
              StateSum(st, IdIs(id)) + (if id == o.id then 1 else 0)
  {
    hide Launch, Total, StateSum, Stable;
    var f := IdIs(id);
    IdIsStable(id);
    IdleCount(st, EMPTY_RESULT, id);
    LaunchTotal(Config(st, Idle, EMPTY_RESULT), o, f);
  }

  lemma LaunchUnique(st: State, o: Order)
    requires Admissible(o) && UniqueIds(st) && StateSum(st, IdIs(o.id)) == 0
    ensures Unique(Launch(Config(st, Idle, EMPTY_RESULT), o))
  {
    hide Launch, Total, StateSum;
    forall id ensures Total(Launch(Config(st, Idle, EMPTY_RESULT), o), IdIs(id)) <= 1 {
      LaunchCount(st, o, id);
    }
  }

  lemma IdleSum(c: Config, f: Order -> nat)
    requires c.stack.Idle?
    ensures Total(c, f) == StateSum(c.st, f)
  {
  }

  lemma IdleCount(st: State, out: MatchResult, id: OrderId)
    ensures Total(Config(st, Idle, out), IdIs(id)) == StateSum(st, IdIs(id))
  {
  }

  lemma IdleUnique(st: State, out: MatchResult)
    ensures Unique(Config(st, Idle, out)) <==> UniqueIds(st)
  {
  }

  lemma WithdrawUnique(st: State, id: OrderId)
    requires UniqueIds(st)
    ensures UniqueIds(Withdraw(st, id))
  {
    hide StateSum, Withdraw;
    forall x ensures StateSum(Withdraw(st, id), IdIs(x)) <= 1 {
      WithdrawTotal(st, id, IdIs(x));
    }
  }

  lemma PlaceUnique(st: State, o: Order)
    requires UniqueIds(st) && StateSum(st, IdIs(o.id)) == 0
    ensures UniqueIds(Place(st, o))
  {
    hide StateSum, Place;
    forall x ensures StateSum(Place(st, o), IdIs(x)) <= 1 {
      PlaceTotal(st, o, IdIs(x));
    }
  }

  ghost predicate Sided(st: State) {
    && (forall o :: o in st.bids ==> o.side == Buy)
    && (forall o :: o in st.asks ==> o.side == Sell)
  }

  lemma AmendCount(st: State, o: Order, id: OrderId)
    requires Sided(st)
    ensures StateSum(WithSide(st, o.side, Update(OnSide(st, o.side), o)), IdIs(id)) == StateSum(st, IdIs(id))
  {
    var f := IdIs(id);
    IdIsStable(id);
    SumUpdate(OnSide(st, o.side), o, f);
  }

  /** A modify keeps ids unique; one that does not requeue leaves every id where it is. */
  lemma ModifyUnique(st: State, id: OrderId, newPrice: Price, newQuantity: Quantity, timestamp: Timestamp)
    requires UniqueIds(st) && Sided(st)
    ensures var e := ModifyOrder(id, newPrice, newQuantity, timestamp);
      var st' := Modify(st, id, newPrice, newQuantity, timestamp).0;
      && UniqueIds(st')
      && (!Evicts(st, e) ==> forall x :: StateSum(st', IdIs(x)) == StateSum(st, IdIs(x)))
  {
    if Evicts(st, ModifyOrder(id, newPrice, newQuantity, timestamp)) {
      WithdrawUnique(st, id);
      WithdrawGone(st, id);
      PlaceUnique(Withdraw(st, id), Modified(Lookup(st, id).value, newPrice, newQuantity, timestamp));
    } else {
      hide StateSum, Sided;
      var st' := Modify(st, id, newPrice, newQuantity, timestamp).0;
      forall x ensures StateSum(st', IdIs(x)) == StateSum(st, IdIs(x)) {
        if Lookup(st, id).Some? {
          AmendCount(st, Lookup(st, id).value.(quantity := newQuantity), x);
        }
      }
    }
  }

  lemma StopsCount(st: State, id: OrderId, x: OrderId)
    ensures StateSum(st.(stops := Remove(st.stops, id)), IdIs(x)) <= StateSum(st, IdIs(x))
  {
    SumRemoveAtMost(st.stops, id, IdIs(x));
  }

  /** A cancel only shrinks the state. */
  lemma CancelUnique(st: State, id: OrderId, timestamp: Timestamp)
    requires UniqueIds(st)
    ensures UniqueIds(Cancel(st, id, timestamp).0)
  {
    WithdrawUnique(st, id);
    forall x ensures StateSum(st.(stops := Remove(st.stops, id)), IdIs(x)) <= StateSum(st, IdIs(x)) {
      StopsCount(st, id, x);
    }
    hide StateSum;
    assert UniqueIds(st.(stops := Remove(st.stops, id)));
  }
}
