/** Time priority over whole runs. */
module Priority {
  import opened Orders
  import opened Ladder
  import opened Matcher
  import opened Census
  import opened NoCrossing
  import opened Runs

  /** x stands before y in the queue. */
  ghost predicate Before(s: seq<Order>, x: OrderId, y: OrderId) {
    exists i, j :: 0 <= i < j < |s| && s[i].id == x && s[j].id == y
  }

  ghost predicate On(s: seq<Order>, x: OrderId) {
    Sum(s, IdIs(x)) > 0
  }

  /** Hidden reserve of an order on one side; it only ever shrinks. */
  function ReserveOf(s: seq<Order>, x: OrderId): nat {
    if s == [] then 0
    else if s[0].id == x then s[0].reserveQty
    else ReserveOf(s[1..], x)
  }

  lemma {:induction false} InsertAt(side: Side, s: seq<Order>, o: Order) returns (k: nat)
    ensures k <= |s| && Insert(side, s, o) == s[..k] + [o] + s[k..]
  {
    if s == [] || Better(side, o.price, s[0].price) {
      k := 0;
      assert [o] + s == s[..0] + [o] + s[0..];
    } else {
      var t := s[1..];
      k := InsertAt(side, t, o);
      assert [s[0]] + (t[..k] + [o] + t[k..]) == s[..k + 1] + [o] + s[k + 1..];
      k := k + 1;
    }
  }

  /** A newcomer overtakes nobody. */
  lemma InsertKeepsBefore(side: Side, s: seq<Order>, o: Order, x: OrderId, y: OrderId)
    requires Before(s, x, y)
    ensures Before(Insert(side, s, o), x, y)
  {
    var k := InsertAt(side, s, o);
    var i, j :| 0 <= i < j < |s| && s[i].id == x && s[j].id == y;
    var t := Insert(side, s, o);
    var i', j' := if i < k then i else i + 1, if j < k then j else j + 1;
    assert t[i'] == s[i] && t[j'] == s[j];
  }

  lemma {:induction false} ReserveInsert(side: Side, s: seq<Order>, o: Order, x: OrderId)
    ensures o.id != x ==> ReserveOf(Insert(side, s, o), x) == ReserveOf(s, x)
    ensures o.id == x && !On(s, x) ==> ReserveOf(Insert(side, s, o), x) == o.reserveQty
  {
    if s != [] && !Better(side, o.price, s[0].price) {
      ReserveInsert(side, s[1..], o, x);
    }
  }

  lemma {:induction false} OnMembers(s: seq<Order>, x: OrderId)
    ensures On(s, x) <==> exists i :: 0 <= i < |s| && s[i].id == x
  {
    SumZero(s, x);
    assert forall i :: 0 <= i < |s| ==> s[i] in s;
  }

  /** Rotating the first order away from under x and y leaves them as they were. */
  lemma TailBefore(s: seq<Order>, x: OrderId, y: OrderId)
    requires Before(s, x, y) && s[0].id != x
    ensures Before(s[1..], x, y)
  {
  }

  /** A fill never adds to the reserve of an order, and only a replenishment
      lowers it. */
  lemma AfterFillReserve(side: Side, s: seq<Order>, q: Quantity, x: OrderId)
    requires s != [] && q <= s[0].quantity && Sum(s, IdIs(x)) == 1
    ensures var s' := AfterFill(side, s, q);
      On(s', x) ==> ReserveOf(s', x) <= ReserveOf(s, x)
  {
    var p := s[0].(quantity := s[0].quantity - q);
    if p.quantity > 0 {
      assert ([p] + s[1..])[1..] == s[1..];
    } else if p.IsIceberg() && p.reserveQty > 0 {
      ReserveInsert(side, s[1..], Replenished(p), x);
    }
  }

  lemma AfterFillBefore(side: Side, s: seq<Order>, q: Quantity, x: OrderId, y: OrderId)
    requires s != [] && q <= s[0].quantity && Before(s, x, y) && Sum(s, IdIs(x)) == 1
    ensures var s' := AfterFill(side, s, q);
      On(s', x) && ReserveOf(s', x) == ReserveOf(s, x) ==> Before(s', x, y)
  {
    var p := s[0].(quantity := s[0].quantity - q);
    if p.quantity > 0 {
      var i, j :| 0 <= i < j < |s| && s[i].id == x && s[j].id == y;
      var s' := [p] + s[1..];
      assert s'[i].id == x && s'[j].id == y;
    } else if p.IsIceberg() && p.reserveQty > 0 {
      ReserveInsert(side, s[1..], Replenished(p), x);
      if s[0].id != x {
        TailBefore(s, x, y);
        InsertKeepsBefore(side, s[1..], Replenished(p), x, y);
      }
    } else if s[0].id != x {
      TailBefore(s, x, y);
    }
  }

  /** What else than one side of the book holds the id. */
  ghost function Elsewhere(c: Config, side: Side, x: OrderId): nat {
    Sum(OnSide(c.st, Opp(side)), IdIs(x)) + Sum(c.st.stops, IdIs(x)) + StackSum(c.stack, IdIs(x))
  }

  lemma OnlyThere(c: Config, side: Side, x: OrderId)
    requires Unique(c) && On(OnSide(c.st, side), x)
    ensures Sum(OnSide(c.st, side), IdIs(x)) == 1 && Elsewhere(c, side, x) == 0
  {
    assert Total(c, IdIs(x)) <= 1;
  }

  lemma FillReserve(c: Config, a: Order, below: Stack, side: Side, x: OrderId)
    requires c.stack == Push(Matching(a), below) && CanFill(c.st, a)
    requires Sum(OnSide(c.st, side), IdIs(x)) == 1 && Elsewhere(c, side, x) == 0
    ensures var s, s' := OnSide(c.st, side), OnSide(Step(c).st, side);
      && (On(s', x) ==> ReserveOf(s', x) <= ReserveOf(s, x))
      && (!On(s', x) ==> Total(Step(c), IdIs(x)) == 0)
  {
    var d := Traded(c, a, below);
    assert Total(StartEvaluation(d), IdIs(x)) == Total(d, IdIs(x));
    if side == Opp(a.side) {
      AfterFillReserve(side, OnSide(c.st, side), FillQty(c.st, a), x);
    }
  }

  /** One step leaves a resting order's reserve or lowers it, or takes the order
      out of play for good. */
  lemma StepReserve(c: Config, side: Side, x: OrderId)
    requires Unique(c) && On(OnSide(c.st, side), x)
    ensures var s, s' := OnSide(c.st, side), OnSide(Step(c).st, side);
      && (On(s', x) ==> ReserveOf(s', x) <= ReserveOf(s, x))
      && (!On(s', x) ==> Total(Step(c), IdIs(x)) == 0)
  {
    OnlyThere(c, side, x);
    match c.stack {
      case Idle =>
      case Push(Matching(a), below) =>
        if CanFill(c.st, a) {
          FillReserve(c, a, below, side, x);
        } else {
          ReserveInsert(a.side, OnSide(c.st, a.side), Settled(a), x);
          SumInsert(a.side, OnSide(c.st, a.side), Settled(a), IdIs(x));
        }
      case Push(Evaluating(price, w), below) =>
        SameBooks(c);
    }
  }

  lemma {:induction false} RunReserve(c: Config, side: Side, x: OrderId)
    requires Unique(c)
    ensures var s, s' := OnSide(c.st, side), OnSide(Run(c).st, side);
      On(s, x) && On(s', x) ==> ReserveOf(s', x) <= ReserveOf(s, x)
    decreases Steps(c)
  {
    hide Unique, On, Step, ReserveOf;
    if c.stack.Push? && On(OnSide(c.st, side), x) {
      StepReserve(c, side, x);
      StepUnique(c);
      if On(OnSide(Step(c).st, side), x) {
        RunReserve(Step(c), side, x);
      } else {
        GoneForGood(Step(c), side, x);
      }
    }
  }

  lemma GoneForGood(c: Config, side: Side, x: OrderId)
    requires Total(c, IdIs(x)) == 0
    ensures !On(OnSide(Run(c).st, side), x)
  {
    hide Run, Stable;
    var f := IdIs(x);
    IdIsStable(x);
    RunTotal(c, f);
  }

  /** One step keeps x before y unless it removes x or replenishes it. */
  lemma StepBefore(c: Config, side: Side, x: OrderId, y: OrderId)
    requires Unique(c) && Before(OnSide(c.st, side), x, y)
    ensures On(OnSide(c.st, side), x)
    ensures var s, s' := OnSide(c.st, side), OnSide(Step(c).st, side);
      On(s', x) && ReserveOf(s', x) == ReserveOf(s, x) ==> Before(s', x, y)
  {
    var s := OnSide(c.st, side);
    OnMembers(s, x);
    OnlyThere(c, side, x);
    match c.stack {
      case Idle =>
      case Push(Matching(a), below) =>
        if CanFill(c.st, a) {
          if a.side != side {
            AfterFillBefore(side, s, FillQty(c.st, a), x, y);
          }
        } else if a.side == side {
          InsertKeepsBefore(side, s, Settled(a), x, y);
        }
      case Push(Evaluating(price, w), below) =>
        SameBooks(c);
    }
  }

  /** Whatever one submit sets off: an order that rests on a side at both ends keeps
      its place before every other that stood behind it, unless it was replenished,
      which shows in its reserve. */
  lemma {:induction false} RunBefore(c: Config, side: Side, x: OrderId, y: OrderId)
    requires Unique(c) && Before(OnSide(c.st, side), x, y)
    ensures var s, s' := OnSide(c.st, side), OnSide(Run(c).st, side);
      On(s', x) && ReserveOf(s', x) == ReserveOf(s, x) ==> Before(s', x, y)
    decreases Steps(c)
  {
    hide Unique, On, Step, ReserveOf, Before;
    if c.stack.Push? {
      StepBefore(c, side, x, y);
      StepReserve(c, side, x);
      StepUnique(c);
      if !On(OnSide(Step(c).st, side), x) {
        GoneForGood(Step(c), side, x);
      } else {
        RunReserve(Step(c), side, x);
        if ReserveOf(OnSide(Step(c).st, side), x) == ReserveOf(OnSide(c.st, side), x) {
          RunBefore(Step(c), side, x, y);
        }
      }
    }
  }

  // ---- events -----------------------------------------------------------------

  lemma {:induction false} RemoveBefore(s: seq<Order>, id: OrderId, x: OrderId, y: OrderId)
    requires Before(s, x, y) && id != x && id != y
    ensures Before(Remove(s, id), x, y)
  {
    var i, j :| 0 <= i < j < |s| && s[i].id == x && s[j].id == y;
    if s[0].id == id {
      assert s[1..][i - 1] == s[i] && s[1..][j - 1] == s[j];
    } else if i == 0 {
      RemoveKeeps(s[1..], id, y, j - 1);
      var t := Remove(s[1..], id);
      var k :| 0 <= k < |t| && t[k].id == y;
      assert ([s[0]] + t)[0].id == x && ([s[0]] + t)[k + 1].id == y;
    } else {
      assert s[1..][i - 1].id == x && s[1..][j - 1].id == y;
      RemoveBefore(s[1..], id, x, y);
      var t := Remove(s[1..], id);
      var k, l :| 0 <= k < l < |t| && t[k].id == x && t[l].id == y;
      assert ([s[0]] + t)[k + 1].id == x && ([s[0]] + t)[l + 1].id == y;
    }
  }

  lemma {:induction false} RemoveKeeps(s: seq<Order>, id: OrderId, y: OrderId, j: nat)
    requires j < |s| && s[j].id == y && id != y
    ensures exists k :: 0 <= k < |Remove(s, id)| && Remove(s, id)[k].id == y
  {
    if s[0].id == id {
      assert Remove(s, id)[j - 1] == s[j];
    } else if j == 0 {
      assert Remove(s, id)[0].id == y;
    } else {
      RemoveKeeps(s[1..], id, y, j - 1);
      var t := Remove(s[1..], id);
      var k :| 0 <= k < |t| && t[k].id == y;
      assert Remove(s, id) == [s[0]] + t;
      assert Remove(s, id)[k + 1] == t[k];
    }
  }

  lemma {:induction false} UpdateIds(s: seq<Order>, o: Order, k: nat)
    requires k < |s|
    ensures Update(s, o)[k].id == s[k].id
  {
    if s[0].id != o.id && k > 0 {
      UpdateIds(s[1..], o, k - 1);
    }
  }

  lemma UpdateBefore(s: seq<Order>, o: Order, x: OrderId, y: OrderId)
    requires Before(s, x, y)
    ensures Before(Update(s, o), x, y)
  {
    var i, j :| 0 <= i < j < |s| && s[i].id == x && s[j].id == y;
    UpdateIds(s, o, i);
    UpdateIds(s, o, j);
  }

  lemma {:induction false} RemoveReserve(s: seq<Order>, id: OrderId, x: OrderId)
    requires id != x
    ensures ReserveOf(Remove(s, id), x) == ReserveOf(s, x)
  {
    if s != [] && s[0].id != id {
      RemoveReserve(s[1..], id, x);
    }
  }

  lemma EnterBefore(st: State, o: Order, side: Side, x: OrderId, y: OrderId)
    requires Admissible(o) && UniqueIds(st) && StateSum(st, IdIs(o.id)) == 0
    requires Before(OnSide(st, side), x, y)
    ensures var s, s' := OnSide(st, side), OnSide(Enter(st, o).0, side);
      On(s', x) && ReserveOf(s', x) == ReserveOf(s, x) ==> Before(s', x, y)
  {
    var c := Launch(Config(st, Idle, EMPTY_RESULT), o);
    LaunchUnique(st, o);
    if o.IsStop() && st.last != 0 && Fires(o, st.last) {
      LaunchConverted(Config(st, Idle, EMPTY_RESULT), o.(status := OrderStatus.Resting));
    }
    RunBefore(c, side, x, y);
  }

  /** The event asks the order to give up its place: by a cancel, a replace, or a modify
      to another price or to more quantity. */
  predicate Unseats(e: Event, o: Order) {
    match e
    case NewOrder(_) => false
    case CancelOrder(id, _) => id == o.id && (o.status.Resting? || o.status.PartialFill?)
    case ModifyOrder(id, newPrice, newQuantity, _) =>
      && id == o.id && (o.status.Resting? || o.status.PartialFill?)
      && ((newPrice != 0 && newPrice != o.price) || newQuantity > o.quantity)
    case ReplaceOrder(id, _) => id == o.id
  }

  ghost predicate GivesUp(st: State, e: Event, x: OrderId) {
    exists o :: (o in st.bids || o in st.asks) && o.id == x && Unseats(e, o)
  }

  lemma GivesUpIff(st: State, e: Event, x: OrderId)
    requires UniqueIds(st)
    ensures GivesUp(st, e, x) <==> Evicts(st, e) && Subject(e) == x
  {
    hide UniqueIds;
    if Evicts(st, e) {
      assert StateSum(st, IdIs(Subject(e))) <= 1 ==> Lookup(st, Subject(e)).Some?;
    }
    if GivesUp(st, e, x) {
      var o :| (o in st.bids || o in st.asks) && o.id == x && Unseats(e, o);
      LookupOnly(st, o);
      NotPending(st, o);
    }
  }

  lemma NotPending(st: State, o: Order)
    requires UniqueIds(st) && (o in st.bids || o in st.asks)
    ensures Find(st.stops, o.id).None?
  {
    assert StateSum(st, IdIs(o.id)) <= 1;
    SumZero(st.bids, o.id);
    SumZero(st.asks, o.id);
    SumZero(st.stops, o.id);
  }

  /** Over one event that does not ask x or y to give up its place, x stays before y
      as long as it rests there with its reserve untouched. A reduction of the
      quantity of either is no exception. */
  lemma SubmitBefore(st: State, e: Event, side: Side, x: OrderId, y: OrderId)
    requires UniqueIds(st) && WellFormed(st, e)
    requires Before(OnSide(st, side), x, y) && !GivesUp(st, e, x) && !GivesUp(st, e, y)
    ensures var s, s' := OnSide(st, side), OnSide(Submit(st, e).0, side);
      On(s', x) && ReserveOf(s', x) == ReserveOf(s, x) ==> Before(s', x, y)
  {
    hide GivesUp;
    var id := Subject(e);
    GivesUpIff(st, e, x);
    GivesUpIff(st, e, y);
    if Evicts(st, e) {
      RemoveBefore(OnSide(st, side), id, x, y);
      RemoveReserve(OnSide(st, side), id, x);
    }
    match e {
      case NewOrder(o) =>
        EnterBefore(st, o, side, x, y);
      case CancelOrder(_, _) =>
      case ModifyOrder(_, price, quantity, timestamp) =>
        if Evicts(st, e) {
          var m := Modified(Lookup(st, id).value, price, quantity, timestamp);
          InsertKeepsBefore(m.side, OnSide(Withdraw(st, id), side), m, x, y);
        } else if Lookup(st, id).Some? {
          UpdateBefore(OnSide(st, side), Lookup(st, id).value.(quantity := quantity), x, y);
        }
      case ReplaceOrder(_, o) =>
        if Evicts(st, e) {
          WithdrawUnique(st, id);
          EnterBefore(Withdraw(st, id), o, side, x, y);
        }
    }
  }

  /** x stays on the side through a run of events that ask neither x nor y to give up
      its place, and its reserve is never touched. */
  ghost predicate Stays(st: State, es: seq<Event>, side: Side, x: OrderId, y: OrderId)
    decreases |es|
  {
    es == [] ||
    (&& WellFormed(st, es[0]) && UniqueIds(st)
     && !GivesUp(st, es[0], x) && !GivesUp(st, es[0], y)
     && var st' := Submit(st, es[0]).0;
        && On(OnSide(st', side), x)
        && ReserveOf(OnSide(st', side), x) == ReserveOf(OnSide(st, side), x)
        && Stays(st', es[1..], side, x, y))
  }

  /** Through any such run x keeps its place before y; in particular y is neither
      filled nor moved ahead of it. */
  lemma {:induction false} PlayBefore(st: State, es: seq<Event>, side: Side, x: OrderId, y: OrderId)
    requires forall e :: e in es ==> AdmissibleEvent(e)
    requires Before(OnSide(st, side), x, y) && Stays(st, es, side, x, y)
    ensures Before(OnSide(Play(st, es).0, side), x, y)
    decreases |es|
  {
    if es != [] {
      SubmitBefore(st, es[0], side, x, y);
      PlayBefore(Submit(st, es[0]).0, es[1..], side, x, y);
    }
  }

  // ---- who loses its place ----------------------------------------------------

  /** A price change or a quantity increase puts the order behind everything of its
      new price; all other queues only lose it. */
  lemma RequeuedGoesLast(st: State, e: Event, p: Price)
    requires e.ModifyOrder? && AdmissibleEvent(e) && Evicts(st, e) && Sorted(Buy, st.bids) && Sorted(Sell, st.asks)
    ensures var id := e.orderId; var o := Lookup(st, id).value;
      var m := Modified(o, e.newPrice, e.newQuantity, e.timestamp);
      var rest := OnSide(Withdraw(st, id), o.side);
      && IdsAt(OnSide(Submit(st, e).0, o.side), p) == IdsAt(rest, p) + (if p == m.price then [id] else [])
      && OnSide(Submit(st, e).0, Opp(o.side)) == OnSide(Withdraw(st, id), Opp(o.side))
  {
    var id := e.orderId;
    var o := Lookup(st, id).value;
    var m := Modified(o, e.newPrice, e.newQuantity, e.timestamp);
    RemoveSorted(Buy, st.bids, id);
    RemoveSorted(Sell, st.asks, id);
    IdsAtInsert(o.side, OnSide(Withdraw(st, id), o.side), m, p);
  }

  /** A replenished iceberg goes from the front of its price to the back; all other
      queues stay as they are. */
  lemma ReplenishedGoesLast(side: Side, s: seq<Order>, p: Price)
    requires s != [] && Sorted(side, s) && s[0].IsIceberg() && s[0].reserveQty > 0
    ensures IdsAt(AfterFill(side, s, s[0].quantity), p) ==
            if p == s[0].price then IdsAt(s, p)[1..] + [s[0].id] else IdsAt(s, p)
  {
    SortedTail(side, s);
    IdsAtInsert(side, s[1..], Replenished(s[0].(quantity := 0)), p);
  }

  /** A quantity reduction leaves every queue as it is. */
  lemma ReductionKeepsQueues(st: State, e: Event, side: Side, p: Price)
    requires e.ModifyOrder? && !Evicts(st, e) && UniqueIds(st)
    ensures IdsAt(OnSide(Submit(st, e).0, side), p) == IdsAt(OnSide(st, side), p)
  {
    hide UniqueIds;
    var found := Lookup(st, e.orderId);
    if found.Some? {
      var o := found.value.(quantity := e.newQuantity);
      var s := OnSide(st, o.side);
      forall x | x in s && x.id == o.id ensures x.price == o.price {
        LookupOnly(st, x);
      }
      IdsAtUpdate(s, o, p);
    }
  }
}
