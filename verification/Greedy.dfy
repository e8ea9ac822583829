/** Without pending stops an order consumes the opposite side greedily: best price
    first, oldest first within a price. */
module Greedy {
  import opened Orders
  import opened Ladder
  import opened Matcher
  import opened Everywhere
  import opened Conservation
  import opened NoCrossing

  /** A lone order looking for counterparties while no stop is pending. */
  ghost predicate Alone(c: Config, a: Order) {
    c.stack == Push(Matching(a), Idle) && c.st.stops == []
  }

  /** Open quantity the aggressor could reach at its limit. */
  function ReachAt(side: Side, market: bool, limit: Price): Order -> nat {
    (o: Order) => if market || !Better(Opp(side), limit, o.price) then o.OpenQty() else 0
  }

  function Reach(a: Order): Order -> nat {
    ReachAt(a.side, a.kind.Market?, a.price)
  }

  lemma ReachIs(a: Order, o: Order)
    ensures Reach(a)(o) == if Crosses(a, o.price) then o.OpenQty() else 0
  {
  }

  ghost function Depth(st: State, a: Order): nat {
    Sum(OnSide(st, Opp(a.side)), Reach(a))
  }

  lemma AloneStep(c: Config, a: Order)
    requires Alone(c, a) && CanFill(c.st, a)
    ensures Step(c) == Traded(c, a, Idle)
    ensures Alone(Step(c), a.(quantity := a.quantity - FillQty(c.st, a)))
  {
  }

  lemma AloneEnd(c: Config, a: Order)
    requires Alone(c, a)
    ensures Eve(c) == if CanFill(c.st, a) then Eve(Step(c)) else c
    ensures Run(c) == Step(Eve(c))
  {
    if CanFill(c.st, a) {
      AloneStep(c, a);
    }
    EveRuns(c);
  }

  lemma {:induction false} EveRuns(c: Config)
    requires c.stack.Push?
    ensures Run(c) == Step(Eve(c))
    decreases Steps(c)
  {
    if !Step(c).stack.Idle? {
      EveRuns(Step(c));
    }
  }

  // ---- how much ---------------------------------------------------------------

  lemma AfterFillDepth(side: Side, s: seq<Order>, q: Quantity, a: Order)
    requires s != [] && q <= s[0].quantity && Crosses(a, s[0].price) && SoundOrder(s[0])
    ensures Sum(AfterFill(side, s, q), Reach(a)) + q == Sum(s, Reach(a))
  {
    var p := s[0].(quantity := s[0].quantity - q);
    var f := Reach(a);
    ReachIs(a, s[0]);
    ReachIs(a, p);
    ReachIs(a, Replenished(p));
    if p.quantity > 0 {
      assert ([p] + s[1..])[1..] == s[1..];
    } else if p.IsIceberg() && p.reserveQty > 0 {
      SumInsert(side, s[1..], Replenished(p), f);
    }
  }

  lemma {:induction false} OutOfReach(side: Side, s: seq<Order>, a: Order)
    requires Sorted(side, s) && side == Opp(a.side)
    requires s == [] || !Crosses(a, s[0].price)
    ensures Sum(s, Reach(a)) == 0
  {
    if s != [] {
      SortedTail(side, s);
      ReachIs(a, s[0]);
      OutOfReach(side, s[1..], a);
    }
  }

  /** The order trades the smaller of its quantity and what it can reach, and
      stops only when nothing reachable is left or it is filled. */
  lemma {:induction false} SweepVolume(c: Config, a: Order)
    requires Alone(c, a) && Ordered(c.st) && AllState(c.st, SOUND)
    ensures var q := Min(a.quantity, Depth(c.st, a));
      var d := Eve(c);
      && Alone(d, a.(quantity := a.quantity - q)) && !CanFill(d.st, a.(quantity := a.quantity - q))
      && Volume(d.out.trades) == Volume(c.out.trades) + q
      && Depth(d.st, a) == Depth(c.st, a) - q
      && d.out.rejections == c.out.rejections && d.out.reports == c.out.reports
      && OnSide(d.st, a.side) == OnSide(c.st, a.side)
      && Ordered(d.st)
    decreases Steps(c)
  {
    hide Eve, Run, Step, AllState, SOUND, Volume;
    AloneEnd(c, a);
    var opposite := OnSide(c.st, Opp(a.side));
    if CanFill(c.st, a) {
      SweepStep(c, a);
      var q := FillQty(c.st, a);
      var a' := a.(quantity := a.quantity - q);
      SweepVolume(Step(c), a');
    } else if a.quantity > 0 {
      OutOfReach(Opp(a.side), opposite, a);
    }
  }

  lemma SweepStep(c: Config, a: Order)
    requires Alone(c, a) && CanFill(c.st, a) && Ordered(c.st) && AllState(c.st, SOUND)
    ensures var q := FillQty(c.st, a);
      && Alone(Step(c), a.(quantity := a.quantity - q))
      && Ordered(Step(c).st) && AllState(Step(c).st, SOUND)
      && Depth(Step(c).st, a) + q == Depth(c.st, a)
      && Volume(Step(c).out.trades) == Volume(c.out.trades) + q
      && Step(c).out.rejections == c.out.rejections && Step(c).out.reports == c.out.reports
      && OnSide(Step(c).st, a.side) == OnSide(c.st, a.side)
  {
    var opposite := OnSide(c.st, Opp(a.side));
    AloneStep(c, a);
    StepOrdered(c);
    SoundClosed();
    assert opposite[0] in opposite && SOUND(opposite[0]);
    AfterFillEvery(Opp(a.side), opposite, FillQty(c.st, a), SOUND);
    AfterFillDepth(Opp(a.side), opposite, FillQty(c.st, a), a);
    var t := TradeOf(a, opposite[0], FillQty(c.st, a));
    assert (c.out.trades + [t])[..|c.out.trades|] == c.out.trades;
  }

  // ---- what a new order leaves behind -----------------------------------------

  ghost predicate Quiet(st: State) {
    st.stops == [] && Ordered(st) && AllState(st, SOUND)
  }

  lemma EnterAlone(st: State, o: Order)
    requires Admissible(o) && st.stops == [] && !o.IsStop()
    ensures var a := Entering(o).(status := OrderStatus.Resting);
      var c := Config(st, Push(Matching(a), Idle), EMPTY_RESULT);
      Alone(c, a) && Depth(st, a) == Depth(st, o) && Launch(Config(st, Idle, EMPTY_RESULT), o) == c
      && Enter(st, o) == (Step(Eve(c)).st, Step(Eve(c)).out)
  {
    var a := Entering(o).(status := OrderStatus.Resting);
    AloneEnd(Config(st, Push(Matching(a), Idle), EMPTY_RESULT), a);
  }

  /** A market order trades what there is; it is rejected, once, exactly when it
      asks for more than the opposite side holds, hidden reserves included. */
  lemma MarketTakesAll(st: State, o: Order)
    requires o.kind.Market? && Quiet(st)
    ensures var (st', r) := Enter(st, o);
      && Volume(r.trades) == Min(o.quantity, Depth(st, o))
      && r.rejections == (if o.quantity > Depth(st, o) then [Rejection(o.id, MarketExhausted, 0)] else [])
      && OnSide(st', o.side) == OnSide(st, o.side)
  {
    var a := o.(status := OrderStatus.Resting);
    EnterAlone(st, o);
    SweepVolume(Config(st, Push(Matching(a), Idle), EMPTY_RESULT), a);
  }

  /** A limit order trades what it can reach, and rests with the remainder, behind
      everything of its price, exactly when it could not reach enough. */
  lemma LimitRestsWithRemainder(st: State, o: Order)
    requires o.kind.Limit? && Quiet(st)
    ensures var (st', r) := Enter(st, o);
      var q := Min(o.quantity, Depth(st, o));
      && Volume(r.trades) == q && r.rejections == []
      && Depth(st', o) == Depth(st, o) - q
      && OnSide(st', o.side) ==
           (if o.quantity > Depth(st, o)
            then Insert(o.side, OnSide(st, o.side), o.(status := OrderStatus.Resting, quantity := o.quantity - q))
            else OnSide(st, o.side))
  {
    hide Eve, Enter, Launch, Insert;
    var a := o.(status := OrderStatus.Resting);
    EnterAlone(st, o);
    SweepVolume(Config(st, Push(Matching(a), Idle), EMPTY_RESULT), a);
  }

  // ---- icebergs and crossing --------------------------------------------------

  /** Everything on the book can still trade. */
  ghost predicate Positive(st: State) {
    (forall o :: o in st.bids ==> o.OpenQty() > 0) && (forall o :: o in st.asks ==> o.OpenQty() > 0)
  }

  lemma StepPositive(c: Config)
    requires Positive(c.st)
    ensures Positive(Step(c).st)
  {
    match c.stack {
      case Idle =>
      case Push(Matching(a), below) =>
        var opposite := OnSide(c.st, Opp(a.side));
        if CanFill(c.st, a) {
          assert forall o :: o in opposite[1..] ==> o in opposite;
          InsertMembers(Opp(a.side), opposite[1..], Replenished(opposite[0].(quantity := 0)));
        } else {
          InsertMembers(a.side, OnSide(c.st, a.side), Settled(a));
        }
      case Push(Evaluating(price, w), below) =>
        SameBooks(c);
    }
  }

  lemma {:induction false} EvePositive(c: Config)
    requires c.stack.Push? && Positive(c.st)
    ensures Positive(Eve(c).st)
    decreases Steps(c)
  {
    if !Step(c).stack.Idle? {
      StepPositive(c);
      EvePositive(Step(c));
    }
  }

  /** With no stops pending, an arriving iceberg leaves the book crossed exactly
      when it keeps a reserve and can reach more than its first slice. */
  lemma IcebergCrossesIff(st: State, o: Order)
    requires o.kind.Iceberg? && Admissible(o) && Quiet(st) && Uncrossed(st) && Positive(st)
    ensures Uncrossed(Enter(st, o).0) <==> !(o.quantity > o.peakQty && Depth(st, o) > o.peakQty)
  {
    var a := Entering(o).(status := OrderStatus.Resting);
    var c := Config(st, Push(Matching(a), Idle), EMPTY_RESULT);
    EnterAlone(st, o);
    SweepVolume(c, a);
    EvePositive(c);
    CrossedOnlyAtRest(c);
    EveRuns(c);
    var d := Eve(c);
    var opposite := OnSide(d.st, Opp(a.side));
    if opposite == [] || !Crosses(a, opposite[0].price) {
      OutOfReach(Opp(a.side), opposite, a);
    } else {
      assert opposite[0] in opposite;
      ReachIs(a, opposite[0]);
    }
  }

  // ---- which trades -----------------------------------------------------------

  /** The queue of a side, best price first, flattened into the slices that come to
      the front one after the other while each is used up: an iceberg's next slice
      comes behind everything else of its price. */
  ghost function Slices(side: Side, s: seq<Order>): seq<Order>
    decreases Sum(s, OPEN_OF), Sum(s, IS_ZERO)
  {
    if s == [] then []
    else
      UsingUpDescends(side, s);
      [s[0]] + Slices(side, AfterFill(side, s, s[0].quantity))
  }

  const OPEN_OF: Order -> nat := (o: Order) => o.OpenQty()

  lemma UsingUpDescends(side: Side, s: seq<Order>)
    requires s != []
    ensures var s' := AfterFill(side, s, s[0].quantity);
      Sum(s', OPEN_OF) < Sum(s, OPEN_OF) || (Sum(s', OPEN_OF) == Sum(s, OPEN_OF) && Sum(s', IS_ZERO) < Sum(s, IS_ZERO))
  {
    var p := s[0].(quantity := 0);
    SumInsert(side, s[1..], Replenished(p), OPEN_OF);
    SumInsert(side, s[1..], Replenished(p), IS_ZERO);
  }

  /** No later slice has a better price than the first. */
  lemma {:induction false} SlicesWorsen(side: Side, s: seq<Order>, i: nat)
    requires Sorted(side, s) && i < |Slices(side, s)|
    ensures s != [] && !Better(side, Slices(side, s)[i].price, s[0].price)
    decreases i
  {
    if i > 0 {
      AfterFillHead(side, s, s[0].quantity);
      SlicesWorsen(side, AfterFill(side, s, s[0].quantity), i - 1);
    }
  }

  /** Quantity standing before the i-th slice. */
  function Ahead(s: seq<Order>, i: nat): nat
    requires i <= |s|
  {
    if i == 0 then 0 else s[0].quantity + Ahead(s[1..], i - 1)
  }

  /** The i-th slice gets a fill. */
  predicate Fills(s: seq<Order>, a: Order, i: nat) {
    i < |s| && Ahead(s, i) < a.quantity && Crosses(a, s[i].price)
  }

  /** The i-th fill of an aggressor against a queue of slices, in closed form. */
  function FillAt(s: seq<Order>, a: Order, i: nat): Trade
    requires Fills(s, a, i)
  {
    Trade(a.id, s[i].id, s[i].price, Min(s[i].quantity, a.quantity - Ahead(s, i)), a.side)
  }

  /** What an aggressor finds on the opposite side. */
  ghost function Opposite(st: State, a: Order): seq<Order> {
    Slices(Opp(a.side), OnSide(st, Opp(a.side)))
  }

  lemma NothingFills(st: State, a: Order)
    requires Ordered(st) && !CanFill(st, a)
    ensures forall i: nat :: !Fills(Opposite(st, a), a, i)
  {
    forall i: nat | i < |Opposite(st, a)| && a.quantity > 0 ensures !Crosses(a, Opposite(st, a)[i].price) {
      SlicesWorsen(Opp(a.side), OnSide(st, Opp(a.side)), i);
    }
  }

  /** The trades are exactly the fills of the flattened queue in price-time priority:
      the i-th slice trades, as the i-th, exactly when the aggressor reaches its
      price and wants more than stands before it. */
  lemma {:induction false} FillsInPriority(c: Config, a: Order)
    requires Alone(c, a) && Ordered(c.st)
    ensures var s := Opposite(c.st, a); var n := |c.out.trades|; var trades := Eve(c).out.trades;
      && n <= |trades| && trades[..n] == c.out.trades
      && (forall i: nat :: i < |trades| - n ==> Fills(s, a, i))
      && (forall i: nat :: Fills(s, a, i) ==> i < |trades| - n && trades[n + i] == FillAt(s, a, i))
    decreases Steps(c)
  {
    hide Eve, AfterFill, StartEvaluation, Finish, Ordered, Slices, Fills, FillAt;
    AloneEnd(c, a);
    if !CanFill(c.st, a) {
      NothingFills(c.st, a);
      return;
    }
    AloneStep(c, a);
    StepOrdered(c);
    var a' := a.(quantity := a.quantity - FillQty(c.st, a));
    var s, s' := Opposite(c.st, a), Opposite(Step(c).st, a');
    FirstFill(c.st, a);
    FillsInPriority(Step(c), a');
    assert Step(c).out.trades[|c.out.trades|] == FillAt(s, a, 0);
    var trades := Eve(c).out.trades;
    forall i: nat | i > 0
      ensures Fills(s, a, i) <==> Fills(s', a', i - 1)
      ensures Fills(s, a, i) ==> FillAt(s, a, i) == FillAt(s', a', i - 1)
    {
      FillsShift(Opp(a.side), OnSide(c.st, Opp(a.side)), a, i);
    }
  }

  /** The same of a new order: its trades are these fills and no others. */
  lemma EnterFillsInPriority(st: State, o: Order)
    requires Admissible(o) && !o.IsStop() && st.stops == [] && Ordered(st)
    ensures var a := Entering(o).(status := OrderStatus.Resting);
      var s := Opposite(st, a);
      var trades := Enter(st, o).1.trades;
      && (forall i: nat :: i < |trades| ==> Fills(s, a, i))
      && (forall i: nat :: Fills(s, a, i) ==> i < |trades| && trades[i] == FillAt(s, a, i))
  {
    hide Ordered, Slices, Fills, FillAt, Enter, Traded, Finish;
    var a := Entering(o).(status := OrderStatus.Resting);
    var c := Config(st, Push(Matching(a), Idle), EMPTY_RESULT);
    EnterAlone(st, o);
    FillsInPriority(c, a);
    LastStepSilent(Eve(c));
  }

  lemma LastStepSilent(c: Config)
    requires c.stack.Push? && Step(c).stack.Idle?
    ensures Step(c).out.trades == c.out.trades
  {
    SilentStep(c);
  }

  lemma FirstFill(st: State, a: Order)
    requires CanFill(st, a)
    ensures var q := FillQty(st, a);
      Fills(Opposite(st, a), a, 0) && FillAt(Opposite(st, a), a, 0) == TradeOf(a, OnSide(st, Opp(a.side))[0], q)
  {
  }

  /** After the first fill the later ones are where they were, one place up. */
  lemma FillsShift(side: Side, s: seq<Order>, a: Order, i: nat)
    requires s != [] && a.quantity > 0 && i > 0
    ensures var q := Min(a.quantity, s[0].quantity);
      var a', t, t' := a.(quantity := a.quantity - q), Slices(side, s), Slices(side, AfterFill(side, s, q));
      && (Fills(t, a, i) <==> Fills(t', a', i - 1))
      && (Fills(t, a, i) ==> FillAt(t, a, i) == FillAt(t', a', i - 1))
  {
    hide AfterFill;
    assert Slices(side, s)[1..] == Slices(side, AfterFill(side, s, s[0].quantity));
  }

  /** Fills never get better for the aggressor, and none is beyond its limit, with
      icebergs rotating or without. */
  lemma {:induction false} PricesWorsen(c: Config, a: Order)
    requires Alone(c, a) && Ordered(c.st)
    ensures var n := |c.out.trades|; var trades := Eve(c).out.trades;
      && n <= |trades| && trades[..n] == c.out.trades
      && (forall i :: n <= i < |trades| ==> Crosses(a, trades[i].price))
      && (forall i :: n <= i < |trades| ==> !Better(Opp(a.side), trades[i].price, OnSide(c.st, Opp(a.side))[0].price))
      && (forall i, j :: n <= i < j < |trades| ==> !Better(Opp(a.side), trades[j].price, trades[i].price))
    decreases Steps(c)
  {
    AloneEnd(c, a);
    if CanFill(c.st, a) {
      AloneStep(c, a);
      StepOrdered(c);
      AfterFillHead(Opp(a.side), OnSide(c.st, Opp(a.side)), FillQty(c.st, a));
      PricesWorsen(Step(c), a.(quantity := a.quantity - FillQty(c.st, a)));
    }
  }
}
