/** Invariants of whole runs of events on the reference matcher. */
module Runs {
  import opened Orders
  import opened Ladder
  import opened Matcher
  import opened Census
  import opened NoCrossing
  import opened Everywhere
  import opened Conservation
  import opened Greedy
  import opened StopSafety
  import opened Leading

  // ---- ids and sides ----------------------------------------------------------

  lemma {:induction false} RunUnique(c: Config)
    requires Unique(c)
    ensures Unique(Run(c))
    decreases Steps(c)
  {
    hide Unique, Step;
    if c.stack.Push? {
      StepUnique(c);
      RunUnique(Step(c));
    }
  }

  lemma EnterUnique(st: State, o: Order)
    requires Admissible(o) && UniqueIds(st) && StateSum(st, IdIs(o.id)) == 0
    ensures UniqueIds(Enter(st, o).0)
  {
    hide Unique, UniqueIds, Launch, StateSum;
    var c := Launch(Config(st, Idle, EMPTY_RESULT), o);
    LaunchUnique(st, o);
    RunUnique(c);
    IdleUnique(Run(c).st, Run(c).out);
  }

  lemma {:induction false} RunSided(c: Config)
    requires Sided(c.st) && Ordered(c.st)
    ensures Sided(Run(c).st) && Ordered(Run(c).st)
    decreases Steps(c)
  {
    hide Sided, Ordered, Step;
    if c.stack.Push? {
      StepSided(c);
      StepOrdered(c);
      RunSided(Step(c));
    }
  }

  lemma EnterSided(st: State, o: Order)
    requires Admissible(o) && Sided(st) && Ordered(st)
    ensures Sided(Enter(st, o).0) && Ordered(Enter(st, o).0)
  {
    LaunchOut(Config(st, Idle, EMPTY_RESULT), o);
    RunSided(Launch(Config(st, Idle, EMPTY_RESULT), o));
  }

  lemma {:induction false} RemoveSorted(side: Side, s: seq<Order>, id: OrderId)
    requires Sorted(side, s)
    ensures Sorted(side, Remove(s, id))
    ensures Remove(s, id) != [] ==> s != [] && !Better(side, Remove(s, id)[0].price, s[0].price)
  {
    if s != [] {
      SortedTail(side, s);
      if s[0].id != id {
        RemoveSorted(side, s[1..], id);
        RemoveSubset(s[1..], id);
        SortedCons(side, s[0], Remove(s[1..], id));
      }
    }
  }

  lemma WithdrawKeeps(st: State, id: OrderId)
    requires Sided(st) && Ordered(st)
    ensures Sided(Withdraw(st, id)) && Ordered(Withdraw(st, id))
    ensures Uncrossed(st) ==> Uncrossed(Withdraw(st, id))
  {
    RemoveSorted(Buy, st.bids, id);
    RemoveSorted(Sell, st.asks, id);
    RemoveSubset(st.bids, id);
    RemoveSubset(st.asks, id);
  }

  lemma PlaceKeeps(st: State, o: Order)
    requires Sided(st) && Ordered(st)
    ensures Sided(Place(st, o)) && Ordered(Place(st, o))
  {
    InsertKeepsSorted(o.side, OnSide(st, o.side), o);
    InsertMembers(o.side, OnSide(st, o.side), o);
  }

  lemma {:induction false} UpdateSorted(side: Side, s: seq<Order>, o: Order)
    requires Sorted(side, s) && forall x :: x in s && x.id == o.id ==> x.price == o.price && x.side == o.side
    ensures Sorted(side, Update(s, o))
    ensures s != [] ==> Update(s, o)[0].price == s[0].price
  {
    if s != [] {
      SortedTail(side, s);
      assert s[0] in s;
      if s[0].id != o.id {
        UpdateSorted(side, s[1..], o);
        UpdateSubset(s[1..], o);
        forall x | x in Update(s[1..], o) ensures !Better(side, x.price, s[0].price) {
          UpdatePrices(s[1..], o, x);
        }
        SortedCons(side, s[0], Update(s[1..], o));
      } else {
        SortedCons(side, o, s[1..]);
      }
    }
  }

  lemma {:induction false} UpdatePrices(s: seq<Order>, o: Order, x: Order)
    requires x in Update(s, o) && forall y :: y in s && y.id == o.id ==> y.price == o.price
    ensures exists y :: y in s && y.price == x.price
  {
    assert s[0] in s;
    if s[0].id == o.id {
      if x != o {
        assert x in s[1..];
      }
    } else if x != s[0] {
      assert x in Update(s[1..], o);
      UpdatePrices(s[1..], o, x);
      var y :| y in s[1..] && y.price == x.price;
      assert y in s;
    }
  }

  lemma {:induction false} OnlyOne(s: seq<Order>, x: Order)
    requires x in s && Sum(s, IdIs(x.id)) <= 1
    ensures Find(s, x.id) == Some(x)
  {
    if s[0] != x {
      assert x in s[1..];
      SumZero(s[1..], x.id);
      OnlyOne(s[1..], x);
    }
  }

  /** The order looked up is the only one of its id on the book. */
  lemma LookupOnly(st: State, x: Order)
    requires UniqueIds(st) && (x in st.bids || x in st.asks)
    ensures Lookup(st, x.id) == Some(x)
  {
    assert StateSum(st, IdIs(x.id)) <= 1;
    SumZero(st.bids, x.id);
    SumZero(st.asks, x.id);
    if x in st.bids {
      OnlyOne(st.bids, x);
    } else {
      OnlyOne(st.asks, x);
    }
  }

  lemma AmendKeeps(st: State, o: Order, quantity: Quantity)
    requires UniqueIds(st) && Sided(st) && Ordered(st) && Lookup(st, o.id) == Some(o)
    ensures var m := o.(quantity := quantity); var st' := WithSide(st, o.side, Update(OnSide(st, o.side), m));
      Sided(st') && Ordered(st') && (Uncrossed(st') <==> Uncrossed(st))
  {
    var m := o.(quantity := quantity);
    var s := OnSide(st, o.side);
    forall x | x in s && x.id == m.id ensures x == o {
      LookupOnly(st, x);
    }
    UpdateSorted(o.side, s, m);
    UpdateSubset(s, m);
  }

  // ---- every event ------------------------------------------------------------

  /** What every event keeps: ids open at most once, bids that buy and asks that
      sell, both in price order. */
  ghost predicate Good(st: State) {
    UniqueIds(st) && Sided(st) && Ordered(st)
  }

  lemma SubmitKeepsGood(st: State, e: Event)
    requires Good(st) && WellFormed(st, e)
    ensures Good(Submit(st, e).0)
  {
    hide UniqueIds, Sided, Ordered, Enter, StateSum;
    match e {
      case NewOrder(o) =>
        EnterUnique(st, o);
        EnterSided(st, o);
      case CancelOrder(id, timestamp) =>
        CancelUnique(st, id, timestamp);
        WithdrawKeeps(st, id);
        StopsApart(st, Remove(st.stops, id));
      case ModifyOrder(id, price, quantity, timestamp) =>
        ModifyUnique(st, id, price, quantity, timestamp);
        WithdrawKeeps(st, id);
        if Lookup(st, id).Some? {
          PlaceKeeps(Withdraw(st, id), Modified(Lookup(st, id).value, price, quantity, timestamp));
          AmendKeeps(st, Lookup(st, id).value, quantity);
        }
      case ReplaceOrder(id, o) =>
        if Lookup(st, id).Some? {
          WithdrawUnique(st, id);
          WithdrawKeeps(st, id);
          EnterUnique(Withdraw(st, id), o);
          EnterSided(Withdraw(st, id), o);
        }
    }
  }

  lemma StopsApart(st: State, stops: seq<Order>)
    ensures Sided(st.(stops := stops)) <==> Sided(st)
    ensures Ordered(st.(stops := stops)) <==> Ordered(st)
    ensures Uncrossed(st.(stops := stops)) <==> Uncrossed(st)
  {
  }

  /** A new order crosses the book: an iceberg that rests with an empty slice while
      its reserve would still trade. */
  ghost predicate EntersCrossing(st: State, o: Order)
    requires Admissible(o)
  {
    var c := Launch(Config(st, Idle, EMPTY_RESULT), o);
    c.stack.Push? && RestsCrossing(Eve(c))
  }

  /** A modified order is put back, without matching, where it would trade. */
  ghost predicate ReentersCrossing(st: State, m: Order) {
    var opposite := OnSide(st, Opp(m.side));
    opposite != [] && !Better(Opp(m.side), m.price, opposite[0].price)
  }

  ghost predicate Crossing(st: State, e: Event)
    requires AdmissibleEvent(e)
  {
    match e
    case NewOrder(o) => EntersCrossing(st, o)
    case CancelOrder(_, _) => false
    case ModifyOrder(id, price, quantity, timestamp) =>
      Evicts(st, e) && ReentersCrossing(Withdraw(st, id), Modified(Lookup(st, id).value, price, quantity, timestamp))
    case ReplaceOrder(id, o) => Lookup(st, id).Some? && EntersCrossing(Withdraw(st, id), o)
  }

  lemma EnterUncrossedIff(st: State, o: Order)
    requires Admissible(o) && Ordered(st) && Uncrossed(st)
    ensures Uncrossed(Enter(st, o).0) <==> !EntersCrossing(st, o)
    ensures !(o.kind.Iceberg? && o.quantity > o.peakQty) ==> !EntersCrossing(st, o)
  {
    var c0 := Config(st, Idle, EMPTY_RESULT);
    var c := Launch(c0, o);
    LaunchOut(c0, o);
    if o.IsStop() {
      LaunchConverted(c0, o.(status := OrderStatus.Resting));
    }
    if c.stack.Push? {
      assert NoHiddenAbove(c.stack);
      CrossedOnlyAtRest(c);
      if !(o.kind.Iceberg? && o.quantity > o.peakQty) {
        EveHidesNothing(c);
      }
    }
  }

  /** While a new order is being processed, stops it fires included, the book is not
      crossed at any moment before the end, whatever the order hides. */
  lemma EnterNeverCrossed(st: State, o: Order, n: nat)
    requires Admissible(o) && Ordered(st) && Uncrossed(st)
    ensures var c := Launch(Config(st, Idle, EMPTY_RESULT), o);
      n < Steps(c) ==> Uncrossed(Iterate(c, n).st)
  {
    var c0 := Config(st, Idle, EMPTY_RESULT);
    LaunchOut(c0, o);
    if o.IsStop() {
      LaunchConverted(c0, o.(status := OrderStatus.Resting));
    }
    assert NoHiddenAbove(Launch(c0, o).stack);
    NeverCrossed(Launch(c0, o), n);
  }

  /** So neither is the engine's book when any of the engine's recursive calls begins
      or ends. */
  lemma LedUncrossed(c: Config, b: History, d: Config, b': History)
    requires Leads(c, b, d, b') && Ordered(c.st) && Uncrossed(c.st) && NoHiddenAbove(c.stack)
    ensures Ordered(d.st) && (d.stack.Push? || NoHiddenReserve(c.stack) ==> Uncrossed(d.st))
  {
    hide Run, Step;
    var n: nat :| n <= Steps(c) && Iterate(c, n) == d;
    IterateSteps(c, n);
    NeverCrossed(c, n);
  }

  /** And when any of them ends, no stop has been left behind by the trades so far. */
  lemma LedSafe(c: Config, b: History, d: Config, b': History, aid: OrderId)
    requires Leads(c, b, d, b') && Safe(c, aid) && Unique(c)
    ensures Safe(d, aid)
  {
    hide Run, Step, Unique;
    var n: nat :| n <= Steps(c) && Iterate(c, n) == d;
    IterateSafe(c, n, aid);
  }

  lemma {:induction false} EveHidesNothing(c: Config)
    requires c.stack.Push? && NoHiddenReserve(c.stack)
    ensures !RestsCrossing(Eve(c))
    decreases Steps(c)
  {
    StepNoHiddenReserve(c);
    if !Step(c).stack.Idle? {
      EveHidesNothing(Step(c));
    }
  }

  lemma PlaceUncrossedIff(st: State, m: Order)
    requires Ordered(st) && Uncrossed(st)
    ensures Uncrossed(Place(st, m)) <==> !ReentersCrossing(st, m)
  {
  }

  /** An event leaves an uncrossed book crossed exactly in two cases: an iceberg
      rests with an empty slice before liquidity its reserve could take, or a modify
      puts an order back at a price where it would trade. */
  lemma SubmitUncrossedIff(st: State, e: Event)
    requires Good(st) && Uncrossed(st) && WellFormed(st, e)
    ensures Uncrossed(Submit(st, e).0) <==> !Crossing(st, e)
  {
    hide UniqueIds, Sided, Ordered, Enter, StateSum, Uncrossed, EntersCrossing, ReentersCrossing;
    match e {
      case NewOrder(o) =>
        EnterUncrossedIff(st, o);
      case CancelOrder(id, timestamp) =>
        WithdrawKeeps(st, id);
        StopsApart(st, Remove(st.stops, id));
      case ModifyOrder(id, price, quantity, timestamp) =>
        WithdrawKeeps(st, id);
        if Lookup(st, id).Some? {
          PlaceUncrossedIff(Withdraw(st, id), Modified(Lookup(st, id).value, price, quantity, timestamp));
          AmendKeeps(st, Lookup(st, id).value, quantity);
        }
      case ReplaceOrder(id, o) =>
        if Lookup(st, id).Some? {
          WithdrawKeeps(st, id);
          EnterUncrossedIff(Withdraw(st, id), o);
        }
    }
  }

  /** Each event of the run is well-formed and does not cross the book. */
  ghost predicate Tame(st: State, es: seq<Event>)
    decreases |es|
  {
    es == [] || (WellFormed(st, es[0]) && !Crossing(st, es[0]) && Tame(Submit(st, es[0]).0, es[1..]))
  }

  lemma {:induction false} PlayKeeps(st: State, es: seq<Event>)
    requires (forall e :: e in es ==> AdmissibleEvent(e)) && Tame(st, es) && Good(st) && Uncrossed(st)
    ensures Good(Play(st, es).0) && Uncrossed(Play(st, es).0)
    decreases |es|
  {
    hide Good, Uncrossed, Crossing, Submit;
    if es != [] {
      SubmitKeepsGood(st, es[0]);
      SubmitUncrossedIff(st, es[0]);
      PlayKeeps(Submit(st, es[0]).0, es[1..]);
    }
  }

  // ---- icebergs that cannot be cancelled --------------------------------------

  lemma {:induction false} EveUnique(c: Config)
    requires c.stack.Push? && Unique(c)
    ensures Unique(Eve(c))
    decreases Steps(c)
  {
    hide Unique;
    if !Step(c).stack.Idle? {
      StepUnique(c);
      EveUnique(Step(c));
    }
  }

  /** The activity at the bottom is the order `a`, with whatever is left of it. */
  ghost predicate Grounded(k: Stack, a: Order) {
    match k
    case Idle => false
    case Push(Matching(b), Idle) => b == a.(quantity := b.quantity)
    case Push(_, below) => Grounded(below, a)
  }

  lemma StepGrounded(c: Config, a: Order)
    requires Grounded(c.stack, a)
    ensures Step(c).stack.Idle? || Grounded(Step(c).stack, a)
  {
    if c.stack.top.Evaluating? && c.stack.top.working != [] {
      var w := c.stack.top.working;
      LaunchConverted(Config(c.st, Push(Evaluating(c.stack.top.price, w[1..]), c.stack.below), c.out), w[0]);
    }
  }

  /** The last thing to happen is that the order at the bottom is done. */
  lemma {:induction false} EveGrounded(c: Config, a: Order)
    requires Grounded(c.stack, a)
    ensures var d := Eve(c);
      && d.stack.top.Matching? && d.stack.below.Idle? && !CanFill(d.st, d.stack.top.order)
      && d.stack.top.order == a.(quantity := d.stack.top.order.quantity)
    decreases Steps(c)
  {
    hide Step;
    StepGrounded(c, a);
    if !Step(c).stack.Idle? {
      EveGrounded(Step(c), a);
    } else {
      LastFrame(c, a);
    }
  }

  lemma LastFrame(c: Config, a: Order)
    requires Grounded(c.stack, a) && Step(c).stack.Idle?
    ensures c.stack.top.Matching? && c.stack.below.Idle? && !CanFill(c.st, c.stack.top.order)
    ensures c.stack.top.order == a.(quantity := c.stack.top.order.quantity)
  {
    if c.stack.top.Evaluating? && c.stack.top.working != [] {
      var w := c.stack.top.working;
      LaunchConverted(Config(c.st, Push(Evaluating(c.stack.top.price, w[1..]), c.stack.below), c.out), w[0]);
    }
  }

  /** In the last step the order at the bottom rests or not; nothing else changes,
      and its id is nowhere else. */
  lemma RestsAlone(d: Config, a: Order)
    requires d.stack == Push(Matching(a), Idle) && !CanFill(d.st, a) && Unique(d) && !a.kind.Market?
    ensures var st' := Step(d).st;
      Find(st'.stops, a.id) == None && Lookup(st', a.id) == if Rests(a) then Some(Settled(a)) else None
  {
    assert Total(d, IdIs(a.id)) <= 1;
    SumZero(d.st.bids, a.id);
    SumZero(d.st.asks, a.id);
    SumZero(d.st.stops, a.id);
    if Rests(a) {
      FindInserted(a.side, OnSide(d.st, a.side), Settled(a));
    }
  }

  lemma {:induction false} FindInserted(side: Side, s: seq<Order>, o: Order)
    requires forall x :: x in s ==> x.id != o.id
    ensures Find(Insert(side, s, o), o.id) == Some(o)
  {
    if s != [] && !Better(side, o.price, s[0].price) {
      assert s[0] in s;
      FindInserted(side, s[1..], o);
    }
  }

  /** Whatever stops fire meanwhile, a cancel of an iceberg right after its arrival is
      refused as not cancellable exactly when its first slice is used up as it goes
      to rest and a reserve is left. */
  lemma IcebergRefusedIff(st: State, o: Order, timestamp: Timestamp)
    requires o.kind.Iceberg? && Admissible(o) && UniqueIds(st) && StateSum(st, IdIs(o.id)) == 0
    ensures var a := Entering(o).(status := OrderStatus.Resting);
      var top := Eve(Config(st, Push(Matching(a), Idle), EMPTY_RESULT)).stack.top;
      && top.Matching? && top.order == a.(quantity := top.order.quantity)
      && (Cancel(Matcher.Enter(st, o).0, o.id, timestamp).1 == Rejecting(o.id, OrderNotCancellable, timestamp) <==>
            top.order.quantity == 0 && top.order.reserveQty > 0)
  {
    hide Unique, UniqueIds, StateSum, Eve, Lookup, Find, Step, Run;
    var a := Entering(o).(status := OrderStatus.Resting);
    var c := Config(st, Push(Matching(a), Idle), EMPTY_RESULT);
    LaunchUnique(st, o);
    EveGrounded(c, a);
    EveUnique(c);
    EveRuns(c);
    RestsAlone(Eve(c), Eve(c).stack.top.order);
  }

  /** With no stops pending, a cancel of an iceberg right after its arrival is
      refused as not cancellable exactly when its whole first slice traded on the
      way in and a reserve is left: it then rests with the status of a filled
      order. */
  lemma IcebergUncancellableIff(st: State, o: Order, timestamp: Timestamp)
    requires o.kind.Iceberg? && Admissible(o) && Quiet(st) && UniqueIds(st) && StateSum(st, IdIs(o.id)) == 0
    ensures Cancel(Matcher.Enter(st, o).0, o.id, timestamp).1 == Rejecting(o.id, OrderNotCancellable, timestamp) <==>
            o.quantity > o.peakQty && Depth(st, o) >= o.peakQty
  {
    hide Unique, UniqueIds, StateSum, Depth, SOUND, Ordered, Eve, Lookup;
    var a := Entering(o).(status := OrderStatus.Resting);
    var c := Config(st, Push(Matching(a), Idle), EMPTY_RESULT);
    LaunchUnique(st, o);
    EnterAlone(st, o);
    SweepVolume(c, a);
    EveUnique(c);
    RestsAlone(Eve(c), a.(quantity := a.quantity - Min(a.quantity, Depth(st, a))));
  }

  /** A cancel would take the order off the book, or it is an iceberg that used up its
      first slice on arrival. */
  predicate Revocable(o: Order) {
    o.IsResting() || (o.kind.Iceberg? && o.status.Filled?)
  }

  ghost predicate RestingInFlight(k: Stack) {
    match k
    case Idle => true
    case Push(Matching(a), below) => a.status.Resting? && RestingInFlight(below)
    case Push(Evaluating(_, _), below) => RestingInFlight(below)
  }

  ghost predicate AllRevocable(st: State) {
    (forall o :: o in st.bids ==> Revocable(o)) && (forall o :: o in st.asks ==> Revocable(o))
  }

  lemma StepRevocable(c: Config)
    requires AllRevocable(c.st) && RestingInFlight(c.stack)
    ensures AllRevocable(Step(c).st) && RestingInFlight(Step(c).stack)
  {
    match c.stack {
      case Idle =>
      case Push(Matching(a), below) =>
        var opposite := OnSide(c.st, Opp(a.side));
        if CanFill(c.st, a) {
          assert opposite[0] in opposite && forall o :: o in opposite[1..] ==> o in opposite;
          InsertMembers(Opp(a.side), opposite[1..], Replenished(opposite[0].(quantity := 0)));
        } else {
          InsertMembers(a.side, OnSide(c.st, a.side), Settled(a));
        }
      case Push(Evaluating(price, w), below) =>
        SameBooks(c);
        if w != [] {
          LaunchConverted(Config(c.st, Push(Evaluating(price, w[1..]), below), c.out), w[0]);
        }
    }
  }

  lemma {:induction false} RunRevocable(c: Config)
    requires AllRevocable(c.st) && RestingInFlight(c.stack)
    ensures AllRevocable(Run(c).st)
    decreases Steps(c)
  {
    hide AllRevocable, Step;
    if c.stack.Push? {
      StepRevocable(c);
      RunRevocable(Step(c));
    }
  }

  lemma EnterRevocable(st: State, o: Order)
    requires Admissible(o) && AllRevocable(st)
    ensures AllRevocable(Enter(st, o).0)
  {
    var c0 := Config(st, Idle, EMPTY_RESULT);
    LaunchOut(c0, o);
    if o.IsStop() {
      LaunchConverted(c0, o.(status := OrderStatus.Resting));
    }
    RunRevocable(Launch(c0, o));
  }

  /** After every event: only an iceberg that used up a slice can rest with a status
      that makes a cancel fail. */
  lemma SubmitRevocable(st: State, e: Event)
    requires AdmissibleEvent(e) && AllRevocable(st)
    ensures AllRevocable(Submit(st, e).0)
  {
    RemoveSubset(st.bids, Subject(e));
    RemoveSubset(st.asks, Subject(e));
    match e {
      case NewOrder(o) =>
        EnterRevocable(st, o);
      case CancelOrder(_, _) =>
      case ModifyOrder(id, price, quantity, timestamp) =>
        if Lookup(st, id).Some? {
          var o := Lookup(st, id).value;
          var m := Modified(o, price, quantity, timestamp);
          InsertMembers(m.side, OnSide(Withdraw(st, id), m.side), m);
          UpdateSubset(OnSide(st, o.side), o.(quantity := quantity));
        }
      case ReplaceOrder(id, o) =>
        if Lookup(st, id).Some? {
          EnterRevocable(Withdraw(st, id), o);
        }
    }
  }

  // ---- what a cancel undoes ---------------------------------------------------

  lemma {:induction false} RemoveInserted(side: Side, s: seq<Order>, o: Order)
    requires forall x :: x in s ==> x.id != o.id
    ensures Remove(Insert(side, s, o), o.id) == s && Remove(s, o.id) == s
  {
    if s != [] {
      assert s[0] in s;
      RemoveInserted(side, s[1..], o);
    }
  }

  /** A limit order that finds no counterparty is only put on the book, and a cancel
      then takes it off without a trace, reporting all of it. */
  lemma CancelUndoesLimit(st: State, o: Order, timestamp: Timestamp)
    requires o.kind.Limit? && o.quantity > 0 && !CanFill(st, o) && StateSum(st, IdIs(o.id)) == 0
    ensures var (st', r) := Enter(st, o);
      r == EMPTY_RESULT && Cancel(st', o.id, timestamp) == (st, Reporting(o.id, o.quantity, timestamp))
  {
    var a := o.(status := OrderStatus.Resting);
    var c := Config(st, Push(Matching(a), Idle), EMPTY_RESULT);
    var s := OnSide(st, o.side);
    AbsentEverywhere(st, o.id);
    RemoveInserted(o.side, s, a);
    RemoveInserted(Opp(o.side), OnSide(st, Opp(o.side)), a);
    FindInserted(o.side, s, a);
    assert Step(c) == Config(Place(st, a), Idle, EMPTY_RESULT);
    assert Run(c) == Run(Step(c)) == Step(c);
  }

  /** A stop that does not fire at once only joins the pending stops, and a cancel
      then takes it off them again. */
  lemma CancelUndoesStop(st: State, o: Order, timestamp: Timestamp)
    requires o.IsStop() && StateSum(st, IdIs(o.id)) == 0
    requires st.last == 0 || if o.side.Buy? then st.last < o.stopPrice else st.last > o.stopPrice
    ensures var (st', r) := Enter(st, o);
      r == EMPTY_RESULT && Cancel(st', o.id, timestamp) == (st, Reporting(o.id, o.quantity, timestamp))
  {
    var a := o.(status := OrderStatus.Resting);
    AbsentEverywhere(st, o.id);
    var k := |st.stops|;
    var stops := st.stops + [a];
    FindAt(stops, o.id, k);
    assert stops[..k] + stops[k + 1..] == st.stops;
    assert Launch(Config(st, Idle, EMPTY_RESULT), o) == Config(st.(stops := stops), Idle, EMPTY_RESULT);
  }

  lemma AbsentEverywhere(st: State, id: OrderId)
    requires StateSum(st, IdIs(id)) == 0
    ensures forall x :: x in st.bids || x in st.asks || x in st.stops ==> x.id != id
  {
    SumZero(st.bids, id);
    SumZero(st.asks, id);
    SumZero(st.stops, id);
  }

  /** A measure that only orders of one id have. */
  ghost predicate Only(id: OrderId, f: Order -> nat) {
    forall o: Order :: o.id != id ==> f(o) == 0
  }

  lemma {:induction false} SumAbsent(s: seq<Order>, id: OrderId, f: Order -> nat)
    requires Only(id, f) && forall x :: x in s ==> x.id != id
    ensures Sum(s, f) == 0
  {
    if s != [] {
      assert s[0] in s;
      SumAbsent(s[1..], id, f);
    }
  }

  /** With at most one order of an id, the sum is what that order has, and removing
      it takes the sum to 0. */
  lemma {:induction false} SumOfOne(s: seq<Order>, id: OrderId, f: Order -> nat)
    requires Only(id, f) && Sum(s, IdIs(id)) <= 1
    ensures Sum(s, f) == if Find(s, id).Some? then f(Find(s, id).value) else 0
    ensures Sum(Remove(s, id), f) == 0
  {
    if s != [] {
      if s[0].id == id {
        SumZero(s[1..], id);
        SumAbsent(s[1..], id, f);
      } else {
        SumOfOne(s[1..], id, f);
      }
    }
  }

  lemma {:induction false} SumOfOthers(s: seq<Order>, id: OrderId, f: Order -> nat)
    requires forall o: Order :: o.id == id ==> f(o) == 0
    ensures Sum(Remove(s, id), f) == Sum(s, f)
  {
    if s != [] && s[0].id != id {
      SumOfOthers(s[1..], id, f);
    }
  }

  /** The one order of an id, wherever it is. */
  lemma StateOfOne(st: State, id: OrderId, f: Order -> nat)
    requires Only(id, f) && UniqueIds(st)
    ensures var stop := Find(st.stops, id); var found := Lookup(st, id);
      && !(stop.Some? && found.Some?)
      && StateSum(st, f) == (if stop.Some? then f(stop.value) else if found.Some? then f(found.value) else 0)
      && StateSum(Withdraw(st, id), f) == (if stop.Some? then f(stop.value) else 0)
      && StateSum(st.(stops := Remove(st.stops, id)), f) == (if found.Some? then f(found.value) else 0)
  {
    hide Sum, Find, Ladder.Remove;
    assert StateSum(st, IdIs(id)) <= 1;
    CountIsFound(st.bids, id);
    CountIsFound(st.asks, id);
    CountIsFound(st.stops, id);
    SumOfOne(st.bids, id, f);
    SumOfOne(st.asks, id, f);
    SumOfOne(st.stops, id, f);
  }

  lemma CountIsFound(s: seq<Order>, id: OrderId)
    ensures Find(s, id).Some? <==> Sum(s, IdIs(id)) > 0
  {
    SumRemoveOne(s, id);
  }

  /** The hidden reserve of one order. */
  function Hidden(id: OrderId): Order -> nat {
    (o: Order) => if o.id == id then o.reserveQty else 0
  }

  /** A cancel that is reported closes the account of its id and no other: what was
      open of it is what the report says and the hidden reserve, which it omits. */
  lemma CancelAccounts(st: State, id: OrderId, timestamp: Timestamp, other: OrderId)
    requires UniqueIds(st) && other != id
    ensures var (st', r) := Cancel(st, id, timestamp);
      && r.trades == []
      && (r.reports == [] ==> st' == st && |r.rejections| == 1)
      && (r.reports != [] ==>
            && r.rejections == [] && |r.reports| == 1 && r.reports[0].orderId == id
            && StateSum(st, Open(WithId(id))) == r.reports[0].remainingQty + StateSum(st, Hidden(id))
            && StateSum(st', Open(WithId(id))) == 0
            && StateSum(st', Open(WithId(other))) == StateSum(st, Open(WithId(other))))
  {
    hide UniqueIds, Sum, Find, Ladder.Remove;
    StateOfOne(st, id, Open(WithId(id)));
    StateOfOne(st, id, Hidden(id));
    SumOfOthers(st.bids, id, Open(WithId(other)));
    SumOfOthers(st.asks, id, Open(WithId(other)));
    SumOfOthers(st.stops, id, Open(WithId(other)));
  }
}
