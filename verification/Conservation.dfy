/** Quantity is neither made nor lost, whatever cascade an event sets off. */
module Conservation {
  import opened Orders
  import opened Ladder
  import opened Matcher
  import opened Census
  import opened Everywhere

  /** Open quantity of the orders picked by `sel`. */
  function Open(sel: Order -> bool): Order -> nat {
    (o: Order) => if sel(o) then o.OpenQty() else 0
  }

  /** The pick depends on who the order is, not on how much is left of it. */
  ghost predicate ByIdentity(sel: Order -> bool) {
    forall o: Order, o': Order :: o.id == o'.id && o.side == o'.side ==> sel(o) == sel(o')
  }

  function WithId(id: OrderId): Order -> bool { (o: Order) => o.id == id }

  function OfSide(side: Side): Order -> bool { (o: Order) => o.side == side }

  /** A hidden reserve belongs to an iceberg with a peak. */
  predicate SoundOrder(o: Order) { o.reserveQty > 0 ==> o.kind.Iceberg? && o.peakQty > 0 }

  const SOUND: Order -> bool := (o: Order) => SoundOrder(o)

  lemma SoundClosed()
    ensures Closed(SOUND)
  {
  }

  // ---- one step ---------------------------------------------------------------

  /** What the next step takes from the picked orders by trading. */
  ghost function Moved(c: Config, sel: Order -> bool): nat {
    if c.stack.Push? && c.stack.top.Matching? && CanFill(c.st, c.stack.top.order) then
      var a := c.stack.top.order;
      var q := FillQty(c.st, a);
      (if sel(a) then q else 0) + (if sel(OnSide(c.st, Opp(a.side))[0]) then q else 0)
    else 0
  }

  /** What the next step discards: the rest of a market order that found nothing. */
  ghost function Discarded(c: Config, sel: Order -> bool): nat {
    if c.stack.Push? && c.stack.top.Matching? && c.stack.top.order.kind.Market? && !CanFill(c.st, c.stack.top.order)
       && sel(c.stack.top.order)
    then c.stack.top.order.quantity else 0
  }

  lemma AfterFillOpen(side: Side, s: seq<Order>, q: Quantity, sel: Order -> bool)
    requires s != [] && q <= s[0].quantity && ByIdentity(sel) && SOUND(s[0])
    ensures Sum(AfterFill(side, s, q), Open(sel)) + (if sel(s[0]) then q else 0) == Sum(s, Open(sel))
  {
    var p := s[0].(quantity := s[0].quantity - q);
    assert sel(p) == sel(s[0]) == sel(Replenished(p));
    if p.quantity > 0 {
      assert ([p] + s[1..])[1..] == s[1..];
    } else if p.IsIceberg() && p.reserveQty > 0 {
      SumInsert(side, s[1..], Replenished(p), Open(sel));
    }
  }

  lemma FillOpen(c: Config, a: Order, below: Stack, sel: Order -> bool)
    requires c.stack == Push(Matching(a), below) && CanFill(c.st, a) && ByIdentity(sel) && Every(c, SOUND)
    ensures Total(Step(c), Open(sel)) + Moved(c, sel) == Total(c, Open(sel))
  {
    var opposite := OnSide(c.st, Opp(a.side));
    assert opposite[0] in opposite;
    var q := FillQty(c.st, a);
    AfterFillOpen(Opp(a.side), opposite, q, sel);
    assert sel(a.(quantity := a.quantity - q)) == sel(a);
    assert Total(Step(c), Open(sel)) == Total(Traded(c, a, below), Open(sel));
  }

  lemma FinishOpen(c: Config, a: Order, below: Stack, sel: Order -> bool)
    requires c.stack == Push(Matching(a), below) && !CanFill(c.st, a) && ByIdentity(sel) && SoundOrder(a)
    ensures Total(Finish(c, a, below), Open(sel)) + Discarded(c, sel) == Total(c, Open(sel))
  {
    hide Total, Finish, Open, Settled, ByIdentity, CanFill, SoundOrder, Rests, Discarded;
    SettledOpen(a, sel);
    FinishTotal(c, a, below, Open(sel));
    DiscardedOpen(c, a, below, sel);
  }

  lemma SettledOpen(a: Order, sel: Order -> bool)
    requires ByIdentity(sel)
    ensures Open(sel)(Settled(a)) == Open(sel)(a)
  {
  }

  /** An aggressor that neither fills nor rests is discarded. */
  lemma DiscardedOpen(c: Config, a: Order, below: Stack, sel: Order -> bool)
    requires c.stack == Push(Matching(a), below) && !CanFill(c.st, a) && SoundOrder(a)
    ensures Discarded(c, sel) == if Rests(a) then 0 else Open(sel)(a)
  {
    assert Open(sel)(a) == if sel(a) then a.OpenQty() else 0;
  }

  lemma SameOpen(o: Order, o': Order, sel: Order -> bool)
    requires ByIdentity(sel) && o.id == o'.id && o.side == o'.side && o.OpenQty() == o'.OpenQty()
    ensures Open(sel)(o) == Open(sel)(o')
  {
  }

  /** Open quantity changes by what is traded and what is discarded, no more. */
  lemma StepOpen(c: Config, sel: Order -> bool)
    requires ByIdentity(sel) && Every(c, SOUND)
    ensures Total(Step(c), Open(sel)) + Moved(c, sel) + Discarded(c, sel) == Total(c, Open(sel))
  {
    hide Finish, Judge, StartEvaluation, Traded, ByIdentity;
    match c.stack {
      case Idle =>
      case Push(Matching(a), below) =>
        if CanFill(c.st, a) {
          FillOpen(c, a, below, sel);
        } else {
          assert SoundOrder(a) by { assert SOUND(a); }
          FinishOpen(c, a, below, sel);
        }
      case Push(Evaluating(price, w), below) =>
        if w != [] {
          SameOpen(w[0], Launched(w[0]), sel);
          JudgeTotal(c, price, w, below, Open(sel));
        }
    }
  }

  // ---- the trades on record ---------------------------------------------------

  /** What an order traded, on either side of its trades. */
  function Filled(trades: seq<Trade>, id: OrderId): nat {
    if trades == [] then 0
    else
      var t := trades[|trades| - 1];
      Filled(trades[..|trades| - 1], id)
      + (if t.aggressorId == id then t.quantity else 0)
      + (if t.passiveId == id then t.quantity else 0)
  }

  function Volume(trades: seq<Trade>): nat {
    if trades == [] then 0 else Volume(trades[..|trades| - 1]) + trades[|trades| - 1].quantity
  }

  /** Bids buy and asks sell. */
  lemma StepRecords(c: Config, id: OrderId)
    ensures Filled(Step(c).out.trades, id) == Filled(c.out.trades, id) + Moved(c, WithId(id))
    ensures Sided(c.st) ==> forall side: Side ::
              Volume(Step(c).out.trades) == Volume(c.out.trades) + Moved(c, OfSide(side))
  {
    if c.stack.Push? && c.stack.top.Matching? && CanFill(c.st, c.stack.top.order) {
      var a := c.stack.top.order;
      var p := OnSide(c.st, Opp(a.side))[0];
      var t := TradeOf(a, p, FillQty(c.st, a));
      assert p in OnSide(c.st, Opp(a.side));
      assert Step(c).out.trades == c.out.trades + [t];
      assert (c.out.trades + [t])[..|c.out.trades|] == c.out.trades;
    } else {
      assert Step(c).out.trades == c.out.trades by { SilentStep(c); }
    }
  }

  lemma SilentStep(c: Config)
    requires !(c.stack.Push? && c.stack.top.Matching? && CanFill(c.st, c.stack.top.order))
    ensures Step(c).out.trades == c.out.trades
  {
  }

  // ---- whole runs of the machine ----------------------------------------------

  /** What is discarded until everything is settled. */
  ghost function AllDiscarded(c: Config, sel: Order -> bool): nat
    decreases Steps(c)
  {
    if c.stack.Idle? then 0 else Discarded(c, sel) + AllDiscarded(Step(c), sel)
  }

  lemma {:induction false} RunConservesOrder(c: Config, id: OrderId)
    requires Every(c, SOUND)
    ensures Total(Run(c), Open(WithId(id))) + Filled(Run(c).out.trades, id) + AllDiscarded(c, WithId(id))
         == Total(c, Open(WithId(id))) + Filled(c.out.trades, id)
    decreases Steps(c)
  {
    hide Every, Total, Step, Moved, Discarded;
    if c.stack.Push? {
      SoundClosed();
      StepEvery(c, SOUND);
      StepOpen(c, WithId(id));
      StepRecords(c, id);
      RunConservesOrder(Step(c), id);
    }
  }

  /** Bought and sold amounts are the traded volume, on either side. */
  lemma {:induction false} RunConservesSide(c: Config, side: Side)
    requires Every(c, SOUND) && Sided(c.st)
    ensures Total(Run(c), Open(OfSide(side))) + Volume(Run(c).out.trades) + AllDiscarded(c, OfSide(side))
         == Total(c, Open(OfSide(side))) + Volume(c.out.trades)
    decreases Steps(c)
  {
    hide Every, Total, Step, Moved, Discarded, Sided;
    if c.stack.Push? {
      SoundClosed();
      StepEvery(c, SOUND);
      StepOpen(c, OfSide(side));
      StepRecords(c, 0);
      StepSided(c);
      RunConservesSide(Step(c), side);
    }
  }

  lemma StepSided(c: Config)
    requires Sided(c.st)
    ensures Sided(Step(c).st)
  {
    match c.stack {
      case Idle =>
      case Push(Matching(a), below) =>
        var opposite := OnSide(c.st, Opp(a.side));
        if CanFill(c.st, a) {
          assert opposite[0] in opposite && forall o :: o in opposite[1..] ==> o in opposite;
          InsertMembers(Opp(a.side), opposite[1..], Replenished(opposite[0].(quantity := 0)));
        } else {
          InsertMembers(a.side, OnSide(c.st, a.side), Settled(a));
        }
      case Push(Evaluating(price, w), below) =>
        if w != [] {
          LaunchConverted(Config(c.st, Push(Evaluating(price, w[1..]), below), c.out), w[0]);
        }
    }
  }

  // ---- events -----------------------------------------------------------------

  lemma LaunchOpen(c: Config, o: Order, sel: Order -> bool)
    requires Admissible(o) && ByIdentity(sel) && SoundOrder(Entering(o))
    ensures Total(Launch(c, o), Open(sel)) == Total(c, Open(sel)) + (if sel(o) then o.quantity else 0)
  {
    var start := Entering(o).(status := OrderStatus.Resting);
    SameOpen(Launched(o), o.(status := OrderStatus.Resting), sel);
    LaunchWeight(c, o, Open(sel));
    assert sel(start) == sel(o);
    assert Open(sel)(start) == if sel(start) then start.OpenQty() else 0;
    hide Total, Launch;
  }

  lemma LaunchSound(st: State, o: Order)
    requires Admissible(o) && SoundOrder(Entering(o)) && AllState(st, SOUND)
    ensures Every(Launch(Config(st, Idle, EMPTY_RESULT), o), SOUND)
  {
  }

  /** A new order adds its quantity to the books, and the cascade it sets off keeps
      every order's account: open + traded + discarded. */
  lemma EnterConservesOrder(st: State, o: Order, id: OrderId)
    requires Admissible(o) && SoundOrder(Entering(o)) && AllState(st, SOUND)
    ensures var (st', r) := Enter(st, o);
      StateSum(st', Open(WithId(id))) + Filled(r.trades, id) + Residual(st, o, WithId(id))
      == StateSum(st, Open(WithId(id))) + (if o.id == id then o.quantity else 0)
  {
    hide Total, Launch, StateSum, Run, AllDiscarded, Open, SOUND, Every, AllState, SoundOrder, Sided;
    var c := Config(st, Idle, EMPTY_RESULT);
    LaunchSound(st, o);
    LaunchOpen(c, o, WithId(id));
    LaunchOut(c, o);
    IdleSum(c, Open(WithId(id)));
    IdleSum(Run(Launch(c, o)), Open(WithId(id)));
    RunConservesOrder(Launch(c, o), id);
  }

  /** What a new order's cascade discards of the picked orders. */
  ghost function Residual(st: State, o: Order, sel: Order -> bool): nat
    requires Admissible(o)
  {
    AllDiscarded(Launch(Config(st, Idle, EMPTY_RESULT), o), sel)
  }

  lemma LaunchOut(c: Config, o: Order)
    requires Admissible(o)
    ensures Launch(c, o).out == c.out
    ensures Launch(c, o).st.bids == c.st.bids && Launch(c, o).st.asks == c.st.asks && Launch(c, o).st.last == c.st.last
    ensures Sided(c.st) ==> Sided(Launch(c, o).st)
  {
  }

  lemma EnterConservesSide(st: State, o: Order, side: Side)
    requires Admissible(o) && SoundOrder(Entering(o)) && AllState(st, SOUND) && Sided(st)
    ensures var (st', r) := Enter(st, o);
      StateSum(st', Open(OfSide(side))) + Volume(r.trades) + Residual(st, o, OfSide(side))
      == StateSum(st, Open(OfSide(side))) + (if o.side == side then o.quantity else 0)
  {
    hide Total, Launch, StateSum, Run, AllDiscarded, Open, SOUND, Every, AllState, SoundOrder, Sided;
    var c := Config(st, Idle, EMPTY_RESULT);
    LaunchSound(st, o);
    LaunchOpen(c, o, OfSide(side));
    LaunchOut(c, o);
    IdleSum(c, Open(OfSide(side)));
    IdleSum(Run(Launch(c, o)), Open(OfSide(side)));
    RunConservesSide(Launch(c, o), side);
  }

  // ---- whole days of new orders -----------------------------------------------

  ghost predicate AllEnterable(os: seq<Order>) {
    forall o :: o in os ==> Admissible(o) && SoundOrder(Entering(o))
  }

  /** The state after entering the orders in turn. */
  ghost function EnterAll(os: seq<Order>): State
    requires AllEnterable(os)
  {
    if os == [] then EMPTY_STATE else Enter(EnterAll(os[..|os| - 1]), os[|os| - 1]).0
  }

  ghost function FilledInAll(os: seq<Order>, id: OrderId): nat
    requires AllEnterable(os)
  {
    if os == [] then 0
    else
      var n := |os| - 1;
      FilledInAll(os[..n], id) + Filled(Enter(EnterAll(os[..n]), os[n]).1.trades, id)
  }

  ghost function ResidualInAll(os: seq<Order>, id: OrderId): nat
    requires AllEnterable(os)
  {
    if os == [] then 0
    else
      var n := |os| - 1;
      ResidualInAll(os[..n], id) + Residual(EnterAll(os[..n]), os[n], WithId(id))
  }

  function Submitted(os: seq<Order>, id: OrderId): nat {
    if os == [] then 0
    else
      var n := |os| - 1;
      Submitted(os[..n], id) + (if os[n].id == id then os[n].quantity else 0)
  }

  /** Over any run of new orders from an empty book, what was submitted under an
      id is what it traded, what is still open of it, and what was discarded. */
  lemma {:induction false} LedgerBalances(os: seq<Order>, id: OrderId)
    requires AllEnterable(os)
    ensures AllState(EnterAll(os), SOUND)
    ensures Submitted(os, id) == FilledInAll(os, id) + StateSum(EnterAll(os), Open(WithId(id))) + ResidualInAll(os, id)
  {
    if os != [] {
      var n := |os| - 1;
      LedgerBalances(os[..n], id);
      assert os[n] in os;
      hide StateSum, Open, Enter, AllState;
      SoundClosed();
      EnterEvery(EnterAll(os[..n]), os[n], SOUND);
      EnterConservesOrder(EnterAll(os[..n]), os[n], id);
    }
  }
}
