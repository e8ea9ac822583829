/** The tape: what the sequence of trades of an event says. */
module Tape {
  import opened Orders
  import opened Ladder
  import opened Matcher
  import opened Census
  import opened Everywhere
  import opened NoCrossing
  import opened Conservation

  // ---- the last price ---------------------------------------------------------

  function LastPrice(trades: seq<Trade>, otherwise: Price): Price {
    if trades == [] then otherwise else trades[|trades| - 1].price
  }

  /** Results are recorded in the order things happen: what is on record stays, and
      the last price is that of the last trade on record, nested or not. */
  lemma {:induction false} RunTape(c: Config)
    ensures var d := Run(c); var n := |c.out.trades|;
      && n <= |d.out.trades| && d.out.trades[..n] == c.out.trades
      && d.st.last == LastPrice(d.out.trades[n..], c.st.last)
    decreases Steps(c)
  {
    if c.stack.Push? {
      var c1 := Step(c);
      StepTape(c);
      RunTape(c1);
      var n, m, d := |c.out.trades|, |c1.out.trades|, Run(c);
      assert d.out.trades[..n] == d.out.trades[..m][..n];
      if m > n {
        assert d.out.trades[..m] == c1.out.trades;
        assert d.out.trades[n..][|d.out.trades| - n - 1] == d.out.trades[|d.out.trades| - 1];
        assert d.out.trades[m - 1] == c1.out.trades[m - 1];
      }
    }
  }

  lemma StepTape(c: Config)
    ensures var d := Step(c); var n := |c.out.trades|;
      || (d.out.trades == c.out.trades && d.st.last == c.st.last)
      || (|d.out.trades| == n + 1 && d.out.trades[..n] == c.out.trades && d.st.last == d.out.trades[n].price)
  {
  }

  /** After a new order the last trade price is the price of the last trade of its
      cascade, or unchanged when there was none. */
  lemma EnterTape(st: State, o: Order)
    requires Admissible(o)
    ensures var (st', r) := Enter(st, o); st'.last == LastPrice(r.trades, st.last)
  {
    var c := Launch(Config(st, Idle, EMPTY_RESULT), o);
    LaunchOut(Config(st, Idle, EMPTY_RESULT), o);
    RunTape(c);
    assert Run(c).out.trades[0..] == Run(c).out.trades;
  }

  // ---- who bought, who sold ---------------------------------------------------

  /** Who is who: the side of each order id. */
  function Named(who: OrderId -> Side): Order -> bool {
    (o: Order) => o.side == who(o.id)
  }

  function BuyerOf(t: Trade): OrderId {
    if t.aggressorSide.Buy? then t.aggressorId else t.passiveId
  }

  function SellerOf(t: Trade): OrderId {
    if t.aggressorSide.Buy? then t.passiveId else t.aggressorId
  }

  ghost predicate Genuine(t: Trade, who: OrderId -> Side) {
    who(BuyerOf(t)) == Buy && who(SellerOf(t)) == Sell
  }

  lemma NamedClosed(who: OrderId -> Side)
    ensures Closed(Named(who))
  {
  }

  /** Every trade, of the order itself or of any stop it fires, has a buyer that
      buys and a seller that sells. */
  lemma {:induction false} RunGenuine(c: Config, who: OrderId -> Side)
    requires Every(c, Named(who)) && Sided(c.st) && forall t :: t in c.out.trades ==> Genuine(t, who)
    ensures forall t :: t in Run(c).out.trades ==> Genuine(t, who)
    decreases Steps(c)
  {
    if c.stack.Push? {
      NamedClosed(who);
      StepEvery(c, Named(who));
      StepSided(c);
      StepGenuine(c, who);
      RunGenuine(Step(c), who);
    }
  }

  lemma StepGenuine(c: Config, who: OrderId -> Side)
    requires Every(c, Named(who)) && Sided(c.st) && forall t :: t in c.out.trades ==> Genuine(t, who)
    ensures forall t :: t in Step(c).out.trades ==> Genuine(t, who)
  {
    if c.stack.Push? && c.stack.top.Matching? && CanFill(c.st, c.stack.top.order) {
      var a := c.stack.top.order;
      var p := OnSide(c.st, Opp(a.side))[0];
      assert p in OnSide(c.st, Opp(a.side)) && Named(who)(p) && Named(who)(a);
      assert Genuine(TradeOf(a, p, FillQty(c.st, a)), who);
      assert Step(c).out.trades == c.out.trades + [TradeOf(a, p, FillQty(c.st, a))];
    } else {
      SilentStep(c);
    }
  }

  lemma EnterGenuine(st: State, o: Order, who: OrderId -> Side)
    requires Admissible(o) && AllState(st, Named(who)) && Sided(st) && o.side == who(o.id)
    ensures forall t :: t in Enter(st, o).1.trades ==> Genuine(t, who)
  {
    var c := Config(st, Idle, EMPTY_RESULT);
    NamedClosed(who);
    assert Named(who)(Entering(o));
    LaunchEvery(c, o, Named(who));
    LaunchOut(c, o);
    RunGenuine(Launch(c, o), who);
  }

  // ---- what is rejected -------------------------------------------------------

  predicate Tells(rs: seq<Rejection>, id: OrderId) {
    exists r :: r in rs && r.orderId == id
  }

  /** Whatever cascades, nothing is reported, and the only rejections are those of
      market orders that found the other side exhausted: of an id exactly when some of
      its quantity is discarded. */
  lemma {:induction false} RunRejections(c: Config, id: OrderId)
    ensures var d := Run(c); var n := |c.out.rejections|;
      && d.out.reports == c.out.reports
      && n <= |d.out.rejections| && d.out.rejections[..n] == c.out.rejections
      && (forall r :: r in d.out.rejections[n..] ==> r.reason == MarketExhausted && r.timestamp == 0)
      && (Tells(d.out.rejections[n..], id) <==> AllDiscarded(c, WithId(id)) > 0)
    decreases Steps(c)
  {
    hide Discarded, Step, Tells;
    if c.stack.Push? {
      var c1, n := Step(c), |c.out.rejections|;
      StepRejections(c, id);
      RunRejections(c1, id);
      var d, m := Run(c), |c1.out.rejections|;
      assert d.out.rejections[..n] == d.out.rejections[..m][..n];
      assert d.out.rejections[n..] == c1.out.rejections[n..] + d.out.rejections[m..];
      TellsEither(c1.out.rejections[n..], d.out.rejections[m..], id);
    } else {
      TellsNone(id);
      RunIdle(c);
      assert c.out.rejections[|c.out.rejections|..] == [];
    }
  }

  lemma TellsEither(rs: seq<Rejection>, qs: seq<Rejection>, id: OrderId)
    ensures Tells(rs + qs, id) <==> Tells(rs, id) || Tells(qs, id)
  {
  }

  lemma TellsNone(id: OrderId)
    ensures !Tells([], id)
  {
  }

  lemma StepRejections(c: Config, id: OrderId)
    ensures var d := Step(c); var n := |c.out.rejections|;
      && d.out.reports == c.out.reports
      && n <= |d.out.rejections| && d.out.rejections[..n] == c.out.rejections
      && (forall r :: r in d.out.rejections[n..] ==> r.reason == MarketExhausted && r.timestamp == 0)
      && (Tells(d.out.rejections[n..], id) <==> Discarded(c, WithId(id)) > 0)
  {
    var d, n := Step(c), |c.out.rejections|;
    if c.stack.Push? && c.stack.top.Evaluating? {
      SameBooks(c);
    }
    if d.out.rejections != c.out.rejections {
      assert d.out.rejections[n..] == [Rejection(c.stack.top.order.id, MarketExhausted, 0)];
      assert d.out.rejections[n..][0] in d.out.rejections[n..];
    } else {
      assert d.out.rejections[n..] == [];
    }
  }

  /** The same of a new order. */
  lemma EnterRejections(st: State, o: Order, id: OrderId)
    requires Admissible(o)
    ensures var r := Enter(st, o).1;
      && r.reports == [] && (forall x :: x in r.rejections ==> x.reason == MarketExhausted && x.timestamp == 0)
      && (Tells(r.rejections, id) <==> Residual(st, o, WithId(id)) > 0)
  {
    var c := Config(st, Idle, EMPTY_RESULT);
    LaunchOut(c, o);
    RunRejections(Launch(c, o), id);
    var rs := Run(Launch(c, o)).out.rejections;
    assert rs[0..] == rs;
  }

  // ---- at which price ---------------------------------------------------------

  /** The limit of each order id; none for market orders and stops. */
  function Limited(limit: OrderId -> Option<Price>): Order -> bool {
    (o: Order) => limit(o.id) == if o.kind.Market? || o.kind.Stop? then None else Some(o.price)
  }

  /** The trade is at the passive order's limit, and within the aggressor's. */
  ghost predicate WithinLimits(t: Trade, limit: OrderId -> Option<Price>) {
    && limit(t.passiveId) == Some(t.price)
    && (limit(t.aggressorId).Some? ==>
          if t.aggressorSide.Buy? then t.price <= limit(t.aggressorId).value else t.price >= limit(t.aggressorId).value)
  }

  lemma LimitedClosed(limit: OrderId -> Option<Price>)
    ensures Closed(Limited(limit))
  {
  }

  ghost predicate NoStopMatches(k: Stack) {
    match k
    case Idle => true
    case Push(Matching(a), below) => !a.kind.Stop? && NoStopMatches(below)
    case Push(Evaluating(_, _), below) => NoStopMatches(below)
  }

  predicate Restable(o: Order) { !o.kind.Market? && !o.kind.Stop? }

  /** Market orders and stops neither rest nor, before they are triggered, match. */
  ghost predicate Proper(c: Config) {
    && (forall o :: o in c.st.bids ==> Restable(o)) && (forall o :: o in c.st.asks ==> Restable(o))
    && NoStopMatches(c.stack)
  }

  lemma StepProper(c: Config)
    requires Proper(c)
    ensures Proper(Step(c))
  {
    match c.stack {
      case Idle =>
      case Push(Matching(a), below) =>
        var opposite := OnSide(c.st, Opp(a.side));
        if CanFill(c.st, a) {
          assert opposite[0] in opposite && forall o :: o in opposite[1..] ==> o in opposite;
          InsertMembers(Opp(a.side), opposite[1..], Replenished(opposite[0].(quantity := 0)));
        } else {
          InsertMembers(a.side, OnSide(c.st, a.side), Settled(a));
        }
      case Push(Evaluating(price, w), below) =>
        if w != [] {
          LaunchConverted(Config(c.st, Push(Evaluating(price, w[1..]), below), c.out), w[0]);
        }
    }
  }

  lemma StepWithinLimits(c: Config, limit: OrderId -> Option<Price>)
    requires Every(c, Limited(limit)) && Proper(c) && forall t :: t in c.out.trades ==> WithinLimits(t, limit)
    ensures forall t :: t in Step(c).out.trades ==> WithinLimits(t, limit)
  {
    if c.stack.Push? && c.stack.top.Matching? && CanFill(c.st, c.stack.top.order) {
      var a := c.stack.top.order;
      var p := OnSide(c.st, Opp(a.side))[0];
      assert p in OnSide(c.st, Opp(a.side)) && Limited(limit)(p) && Limited(limit)(a);
      assert WithinLimits(TradeOf(a, p, FillQty(c.st, a)), limit);
      assert Step(c).out.trades == c.out.trades + [TradeOf(a, p, FillQty(c.st, a))];
    } else {
      SilentStep(c);
    }
  }

  lemma {:induction false} RunWithinLimits(c: Config, limit: OrderId -> Option<Price>)
    requires Every(c, Limited(limit)) && Proper(c) && forall t :: t in c.out.trades ==> WithinLimits(t, limit)
    ensures forall t :: t in Run(c).out.trades ==> WithinLimits(t, limit)
    decreases Steps(c)
  {
    hide Every, Limited, Proper, WithinLimits, Step;
    if c.stack.Push? {
      LimitedClosed(limit);
      StepEvery(c, Limited(limit));
      StepProper(c);
      StepWithinLimits(c, limit);
      RunWithinLimits(Step(c), limit);
    }
  }

  /** Whatever stops a new order fires: each trade is at the limit price of its
      passive order, and within the limit of its aggressor if that has one. */
  lemma EnterWithinLimits(st: State, o: Order, limit: OrderId -> Option<Price>)
    requires Admissible(o) && AllState(st, Limited(limit)) && Limited(limit)(o)
    requires Proper(Config(st, Idle, EMPTY_RESULT))
    ensures forall t :: t in Enter(st, o).1.trades ==> WithinLimits(t, limit)
  {
    var c := Config(st, Idle, EMPTY_RESULT);
    LimitedClosed(limit);
    assert Limited(limit)(Entering(o));
    LaunchEvery(c, o, Limited(limit));
    LaunchOut(c, o);
    LaunchProper(c, o);
    RunWithinLimits(Launch(c, o), limit);
  }

  lemma LaunchProper(c: Config, o: Order)
    requires Admissible(o) && Proper(c)
    ensures Proper(Launch(c, o))
  {
  }

  // ---- every event ------------------------------------------------------------

  lemma WithdrawKeepsAll(st: State, id: OrderId, p: Order -> bool)
    ensures AllState(st, p) ==> AllState(Withdraw(st, id), p)
    ensures Sided(st) ==> Sided(Withdraw(st, id))
    ensures Proper(Config(st, Idle, EMPTY_RESULT)) ==> Proper(Config(Withdraw(st, id), Idle, EMPTY_RESULT))
  {
    RemoveSubset(st.bids, id);
    RemoveSubset(st.asks, id);
  }

  /** After any event the last trade price is that of the last trade of its result,
      or unchanged when there was none. */
  lemma SubmitTape(st: State, e: Event)
    requires AdmissibleEvent(e)
    ensures var (st', r) := Submit(st, e); st'.last == LastPrice(r.trades, st.last)
  {
    if e.NewOrder? {
      EnterTape(st, e.order);
    } else if e.ReplaceOrder? {
      EnterTape(Withdraw(st, e.oldOrderId), e.newOrder);
    }
  }

  /** Any event: whoever a trade names as buyer buys, and as seller sells. */
  lemma SubmitGenuine(st: State, e: Event, who: OrderId -> Side)
    requires AdmissibleEvent(e) && AllState(st, Named(who)) && Sided(st) && Brings(e, Named(who))
    ensures forall t :: t in Submit(st, e).1.trades ==> Genuine(t, who)
  {
    if e.NewOrder? {
      EnterGenuine(st, e.order, who);
    } else if e.ReplaceOrder? {
      WithdrawKeepsAll(st, e.oldOrderId, Named(who));
      EnterGenuine(Withdraw(st, e.oldOrderId), e.newOrder, who);
    }
  }

  /** Any event: trades are at the passive order's limit and within the aggressor's.
      A modify sets a new limit but does not trade. */
  lemma SubmitWithinLimits(st: State, e: Event, limit: OrderId -> Option<Price>)
    requires AdmissibleEvent(e) && AllState(st, Limited(limit)) && Proper(Config(st, Idle, EMPTY_RESULT))
    requires e.ModifyOrder? || Brings(e, Limited(limit))
    ensures forall t :: t in Submit(st, e).1.trades ==> WithinLimits(t, limit)
  {
    if e.NewOrder? {
      EnterWithinLimits(st, e.order, limit);
    } else if e.ReplaceOrder? {
      WithdrawKeepsAll(st, e.oldOrderId, Limited(limit));
      EnterWithinLimits(Withdraw(st, e.oldOrderId), e.newOrder, limit);
    }
  }

  /** Market orders and stops never come to rest. */
  lemma SubmitProper(st: State, e: Event)
    requires AdmissibleEvent(e) && Proper(Config(st, Idle, EMPTY_RESULT))
    ensures Proper(Config(Submit(st, e).0, Idle, EMPTY_RESULT))
  {
    match e {
      case NewOrder(o) =>
        EnterProper(st, o);
      case CancelOrder(id, _) =>
        WithdrawKeepsAll(st, id, Restable);
      case ModifyOrder(id, price, quantity, timestamp) =>
        WithdrawKeepsAll(st, id, Restable);
        if Lookup(st, id).Some? {
          var o := Lookup(st, id).value;
          var m := Modified(o, price, quantity, timestamp);
          InsertMembers(m.side, OnSide(Withdraw(st, id), m.side), m);
          UpdateSubset(OnSide(st, o.side), o.(quantity := quantity));
        }
      case ReplaceOrder(id, o) =>
        WithdrawKeepsAll(st, id, Restable);
        if Lookup(st, id).Some? {
          EnterProper(Withdraw(st, id), o);
        }
    }
  }

  lemma EnterProper(st: State, o: Order)
    requires Admissible(o) && Proper(Config(st, Idle, EMPTY_RESULT))
    ensures Proper(Config(Enter(st, o).0, Idle, EMPTY_RESULT))
  {
    LaunchProper(Config(st, Idle, EMPTY_RESULT), o);
    RunProper(Launch(Config(st, Idle, EMPTY_RESULT), o));
  }

  lemma {:induction false} RunProper(c: Config)
    requires Proper(c)
    ensures Proper(Run(c))
    decreases Steps(c)
  {
    hide Proper, Step;
    if c.stack.Push? {
      StepProper(c);
      RunProper(Step(c));
    }
  }
}
