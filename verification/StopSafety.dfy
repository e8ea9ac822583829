/** Stop orders across re-entrancy: a batch under evaluation is hidden from nested
    fills, and yet no stop is lost, duplicated or left behind. */
module StopSafety {
  import opened Orders
  import opened Ladder
  import opened Matcher
  import opened Census
  import opened NoCrossing
  import opened Tape
  import opened Conservation

  // ---- the waiting list only shrinks ------------------------------------------

  ghost function Suspended(k: Stack): seq<Order> {
    match k
    case Idle => []
    case Push(Matching(_), below) => Suspended(below)
    case Push(Evaluating(_, w), below) => w + Suspended(below)
  }

  /** All stops that can still fire: the pending ones, then the suspended batches. */
  ghost function Waiting(c: Config): seq<Order> {
    c.st.stops + Suspended(c.stack)
  }

  /** `s` is what remains of `t` after striking out elements. */
  ghost predicate Remains(s: seq<Order>, t: seq<Order>) {
    || s == []
    || (t != [] && ((s[0] == t[0] && Remains(s[1..], t[1..])) || Remains(s, t[1..])))
  }

  lemma {:induction false} RemainsAll(s: seq<Order>)
    ensures Remains(s, s)
  {
    if s != [] {
      RemainsAll(s[1..]);
    }
  }

  lemma {:induction false} RemainsStrike(t: seq<Order>, k: nat)
    requires k < |t|
    ensures Remains(t[..k] + t[k + 1..], t)
  {
    var s := t[..k] + t[k + 1..];
    if k == 0 {
      assert s == t[1..];
      RemainsAll(s);
    } else {
      RemainsStrike(t[1..], k - 1);
      assert s[1..] == t[1..][..k - 1] + t[1..][k..];
    }
  }

  lemma {:induction false} RemainsTransitive(s: seq<Order>, t: seq<Order>, u: seq<Order>)
    requires Remains(s, t) && Remains(t, u)
    ensures Remains(s, u)
    decreases |t| + |u|
  {
    if s == [] {
    } else if t[0] == u[0] && Remains(t[1..], u[1..]) {
      if s[0] == t[0] && Remains(s[1..], t[1..]) {
        RemainsTransitive(s[1..], t[1..], u[1..]);
      } else {
        RemainsTransitive(s, t[1..], u[1..]);
      }
    } else {
      RemainsTransitive(s, t, u[1..]);
    }
  }

  lemma StartWaiting(c: Config)
    ensures Waiting(StartEvaluation(c)) == Waiting(c)
  {
  }

  lemma StepWaiting(c: Config)
    ensures Remains(Waiting(Step(c)), Waiting(c))
  {
    RemainsAll(Waiting(c));
    match c.stack {
      case Idle =>
      case Push(Matching(a), below) =>
        if CanFill(c.st, a) {
          StartWaiting(Traded(c, a, below));
        }
      case Push(Evaluating(price, w), below) =>
        if w == [] {
          assert Waiting(Step(c)) == Waiting(c);
        } else if Fires(w[0], price) {
          var k := |c.st.stops|;
          LaunchConverted(Config(c.st, Push(Evaluating(price, w[1..]), below), c.out), w[0]);
          assert Suspended(c.stack) == w + Suspended(below);
          assert Suspended(Step(c).stack) == w[1..] + Suspended(below);
          assert Waiting(Step(c)) == Waiting(c)[..k] + Waiting(c)[k + 1..];
          RemainsStrike(Waiting(c), k);
        } else {
          assert Waiting(Step(c)) == Waiting(c);
        }
    }
  }

  /** Whatever cascades, the stops left are some of those that waited, in their
      order; none is duplicated and none is new. */
  lemma {:induction false} StopsOnlyShrink(c: Config)
    ensures Remains(Run(c).st.stops, Waiting(c))
    decreases Steps(c)
  {
    if c.stack.Idle? {
      RemainsAll(c.st.stops);
      assert Waiting(c) == c.st.stops;
    } else {
      StepWaiting(c);
      StopsOnlyShrink(Step(c));
      RemainsTransitive(Run(c).st.stops, Waiting(Step(c)), Waiting(c));
    }
  }

  // ---- which stops fire -------------------------------------------------------

  /** A stop in a batch is judged at the price of the batch: a buy fires at its stop
      price or above, a sell at its stop price or below. If it fires it no longer
      waits, and starts matching as a market order, or as a limit order at its own
      price; if not, it is pending again, behind the stops that already are. */
  lemma StepJudges(c: Config)
    requires c.stack.Push? && c.stack.top.Evaluating? && c.stack.top.working != []
    ensures var stop, price := c.stack.top.working[0], c.stack.top.price;
      var rest := Push(Evaluating(price, c.stack.top.working[1..]), c.stack.below);
      var fires := if stop.side.Buy? then price >= stop.stopPrice else price <= stop.stopPrice;
      Step(c) ==
        if !fires then Config(c.st.(stops := c.st.stops + [stop]), rest, c.out)
        else if stop.kind.Stop? then
          Config(c.st, Push(Matching(stop.(kind := Market, price := 0, status := OrderStatus.Resting)), rest), c.out)
        else Config(c.st, Push(Matching(stop.(kind := Limit, status := OrderStatus.Resting)), rest), c.out)
  {
    var rest := Push(Evaluating(c.stack.top.price, c.stack.top.working[1..]), c.stack.below);
    LaunchConverted(Config(c.st, rest, c.out), c.stack.top.working[0]);
  }

  /** Nothing else takes a stop off the waiting ones: a fill suspends those that are
      pending, to be judged at its own price. */
  lemma StepSuspends(c: Config)
    requires c.stack.Push? && (c.stack.top.Matching? || c.stack.top.working == [])
    ensures Waiting(Step(c)) == Waiting(c)
    ensures var (r, d) := (c.st.stops, Step(c));
      |d.out.trades| > |c.out.trades| && r != [] && d.st.last != 0 ==>
        d.st.stops == [] && d.stack.Push? && d.stack.top == Evaluating(d.out.trades[|d.out.trades| - 1].price, r)
  {
    if c.stack.top.Matching? && CanFill(c.st, c.stack.top.order) {
      StartWaiting(Traded(c, c.stack.top.order, c.stack.below));
    }
  }

  /** A new stop waits exactly when nothing has traded yet or the last price is still
      below the stop price of a buy, above that of a sell. Otherwise it is processed
      just as a market order would be, or as a limit order at its own price. */
  lemma EnterStopWaitsIff(st: State, o: Order)
    requires o.IsStop()
    ensures var waits := st.last == 0 || if o.side.Buy? then st.last < o.stopPrice else st.last > o.stopPrice;
      Enter(st, o) ==
        if waits then (st.(stops := st.stops + [o.(status := OrderStatus.Resting)]), EMPTY_RESULT)
        else if o.kind.Stop? then Enter(st, o.(kind := Market, price := 0))
        else Enter(st, o.(kind := Limit))
  {
    hide Run;
    var c := Config(st, Idle, EMPTY_RESULT);
    LaunchConverted(c, o.(status := OrderStatus.Resting));
    RunIdle(Config(st.(stops := st.stops + [o.(status := OrderStatus.Resting)]), Idle, EMPTY_RESULT));
  }

  // ---- no stop is left behind -------------------------------------------------

  /** No stop of the list fires at the price of a trade of `aid`, except perhaps at
      price `but`. */
  ghost predicate Calm(s: seq<Order>, trades: seq<Trade>, aid: OrderId, but: Price) {
    forall o, t :: o in s && t in trades && t.aggressorId == aid && t.price != 0 && t.price != but ==>
      if o.side.Buy? then t.price < o.stopPrice else t.price > o.stopPrice
  }

  /** Only the batch directly above the bottom order may still hold stops that fire
      at its own price; everything already judged is calm. */
  ghost predicate Judged(k: Stack, judged: seq<Order>, trades: seq<Trade>, aid: OrderId) {
    match k
    case Idle => Calm(judged, trades, aid, 0)
    case Push(Matching(b), below) =>
      if below.Idle? then b.id == aid && Calm(judged, trades, aid, 0)
      else b.id != aid && Judged(below, judged, trades, aid)
    case Push(Evaluating(p, w), below) =>
      if below.Push? && below.top.Matching? && below.below.Idle? then
        below.top.order.id == aid && Calm(judged, trades, aid, 0) && Calm(w, trades, aid, p)
      else
        below.Push? && Judged(below, judged + w, trades, aid)
  }

  ghost predicate Safe(c: Config, aid: OrderId) {
    Judged(c.stack, c.st.stops, c.out.trades, aid)
  }

  lemma {:induction false} JudgedFewer(k: Stack, s: seq<Order>, s': seq<Order>, trades: seq<Trade>,
                                       trades': seq<Trade>, aid: OrderId)
    requires Judged(k, s, trades, aid)
    requires forall o :: o in s' ==> o in s
    requires forall t :: t in trades' && t.aggressorId == aid ==> t in trades
    ensures Judged(k, s', trades', aid)
  {
    match k {
      case Idle =>
      case Push(Matching(b), below) =>
        if !below.Idle? {
          JudgedFewer(below, s, s', trades, trades', aid);
        }
      case Push(Evaluating(p, w), below) =>
        if !(below.Push? && below.top.Matching? && below.below.Idle?) {
          JudgedFewer(below, s + w, s' + w, trades, trades', aid);
        }
    }
  }

  /** The bottom order is in flight, so no waiting stop has its id. */
  lemma {:induction false} BottomInStack(k: Stack, judged: seq<Order>, trades: seq<Trade>, aid: OrderId)
    requires k.Push? && Judged(k, judged, trades, aid)
    ensures StackSum(k, IdIs(aid)) >= 1
  {
    match k {
      case Push(Matching(b), below) =>
        if !below.Idle? {
          BottomInStack(below, judged, trades, aid);
        }
      case Push(Evaluating(p, w), below) =>
        if below.top.Matching? && below.below.Idle? {
          assert StackSum(below, IdIs(aid)) == 1;
        } else {
          BottomInStack(below, judged + w, trades, aid);
        }
    }
  }

  /** A fill by the bottom order opens a batch that is calm but for that price; a
      fill by a nested one is none of its trades. */
  lemma FillSafe(c: Config, a: Order, below: Stack, aid: OrderId)
    requires c.stack == Push(Matching(a), below) && CanFill(c.st, a) && Safe(c, aid)
    ensures Safe(Step(c), aid)
  {
    var d := Traded(c, a, below);
    var p := d.st.last;
    assert d.out.trades == c.out.trades + [d.out.trades[|c.out.trades|]];
    if below.Idle? {
      assert forall t :: t in d.out.trades && t.price != 0 && t.price != p ==> t in c.out.trades;
      if d.st.stops == [] {
        assert Calm([], d.out.trades, aid, 0);
      }
    } else {
      JudgedFewer(below, c.st.stops, [] + c.st.stops, c.out.trades, d.out.trades, aid);
      JudgedFewer(below, c.st.stops, c.st.stops, c.out.trades, d.out.trades, aid);
    }
  }

  lemma JudgeSafe(c: Config, price: Price, w: seq<Order>, below: Stack, aid: OrderId)
    requires c.stack == Push(Evaluating(price, w), below) && w != [] && Safe(c, aid) && Unique(c)
    ensures Safe(Step(c), aid)
  {
    var waiting := Push(Evaluating(price, w[1..]), below);
    var bottom := below.Push? && below.top.Matching? && below.below.Idle?;
    assert w[0] in w && forall o :: o in w[1..] ==> o in w;
    if Fires(w[0], price) {
      var launched := Converted(w[0]).(status := OrderStatus.Resting);
      LaunchConverted(Config(c.st, waiting, c.out), w[0]);
      assert launched.id != aid by {
        assert Total(c, IdIs(aid)) <= 1;
        assert Sum(w, IdIs(aid)) + StackSum(below, IdIs(aid)) <= 1;
        BottomInStack(below, if bottom then c.st.stops else c.st.stops + w, c.out.trades, aid);
      }
      if !bottom {
        JudgedFewer(below, c.st.stops + w, c.st.stops + w[1..], c.out.trades, c.out.trades, aid);
      }
    } else if !bottom {
      JudgedFewer(below, c.st.stops + w, c.st.stops + [w[0]] + w[1..], c.out.trades, c.out.trades, aid);
    }
  }

  lemma StepSafe(c: Config, aid: OrderId)
    requires Safe(c, aid) && Unique(c)
    ensures Safe(Step(c), aid)
  {
    match c.stack {
      case Idle =>
      case Push(Matching(a), below) =>
        if CanFill(c.st, a) {
          FillSafe(c, a, below, aid);
        }
      case Push(Evaluating(price, w), below) =>
        if w == [] {
          if !(below.Push? && below.top.Matching? && below.below.Idle?) {
            JudgedFewer(below, c.st.stops + w, c.st.stops, c.out.trades, c.out.trades, aid);
          }
        } else {
          JudgeSafe(c, price, w, below, aid);
        }
    }
  }

  /** At every moment of a cascade. */
  lemma {:induction false} IterateSafe(c: Config, n: nat, aid: OrderId)
    requires Safe(c, aid) && Unique(c)
    ensures Safe(Iterate(c, n), aid) && Unique(Iterate(c, n))
    decreases n
  {
    hide Safe, Step, Unique;
    if n > 0 {
      StepSafe(c, aid);
      StepUnique(c);
      IterateSafe(Step(c), n - 1, aid);
    }
  }

  /** When a new order has been processed, no stop still pending would fire at the
      price of any trade the order itself made: those prices are below the stop price
      of a buy and above that of a sell. */
  lemma NoStopLeftBehind(st: State, o: Order)
    requires Admissible(o) && UniqueIds(st) && StateSum(st, IdIs(o.id)) == 0
    ensures var (st', r) := Enter(st, o);
      forall s, t :: s in st'.stops && t in r.trades && t.aggressorId == o.id && t.price != 0 ==>
        if s.side.Buy? then t.price < s.stopPrice else t.price > s.stopPrice
  {
    var c := Launch(Config(st, Idle, EMPTY_RESULT), o);
    LaunchUnique(st, o);
    if o.IsStop() && st.last != 0 && Fires(o, st.last) {
      LaunchConverted(Config(st, Idle, EMPTY_RESULT), o.(status := OrderStatus.Resting));
    }
    IterateSafe(c, Steps(c), o.id);
    RunIsIterate(c);
  }

  /** An order that does not wait itself leaves some of the old stops, in order; a
      stop that is not fired at once joins them at the end. */
  lemma EnterStops(st: State, o: Order)
    requires Admissible(o)
    ensures var st' := Enter(st, o).0;
      var reached := st.last != 0 && if o.side.Buy? then st.last >= o.stopPrice else st.last <= o.stopPrice;
      var waits := o.IsStop() && !reached;
      Remains(st'.stops, if waits then st.stops + [o.(status := OrderStatus.Resting)] else st.stops)
  {
    var c := Launch(Config(st, Idle, EMPTY_RESULT), o);
    if o.IsStop() && st.last != 0 && Fires(o, st.last) {
      LaunchConverted(Config(st, Idle, EMPTY_RESULT), o.(status := OrderStatus.Resting));
    }
    assert Suspended(c.stack) == [];
    assert Waiting(c) == c.st.stops;
    StopsOnlyShrink(c);
  }

  /** No pending stop would fire at the last trade price. */
  ghost predicate NoneFires(st: State) {
    forall s :: s in st.stops && st.last != 0 ==> if s.side.Buy? then st.last < s.stopPrice else st.last > s.stopPrice
  }

  ghost predicate NoTradeFollows(c: Config) {
    |Run(c).out.trades| == |c.out.trades|
  }

  /** The next step puts a stop back, because it does not fire at the price of its
      batch, although it fires at the last trade price. */
  predicate PutsBackStale(c: Config) {
    && c.stack.Push? && c.stack.top.Evaluating? && c.stack.top.working != [] && c.st.last != 0
    && var w := c.stack.top.working[0];
       if w.side.Buy? then c.stack.top.price < w.stopPrice <= c.st.last
       else c.stack.top.price > w.stopPrice >= c.st.last
  }

  /** That happens in the run, after the last trade of the run. */
  ghost predicate LeavesStale(c: Config)
    decreases Steps(c)
  {
    c.stack.Push? && ((PutsBackStale(c) && NoTradeFollows(c)) || LeavesStale(Step(c)))
  }

  /** When a run leaves no stop that fires at the last price: unless it leaves one
      that fired before, having made no trade, or puts a stale one back. */
  lemma {:induction false} NoneFiresIff(c: Config)
    ensures NoneFires(Run(c).st) <==> !((NoTradeFollows(c) && !NoneFires(c.st)) || LeavesStale(c))
    decreases Steps(c)
  {
    hide Run, NoneFires, PutsBackStale, Step;
    if c.stack.Idle? {
      RunIdle(c);
    } else {
      RunStep(c);
      RunTape(Step(c));
      StepNoneFires(c);
      NoneFiresIff(Step(c));
    }
  }

  lemma RunStep(c: Config)
    requires c.stack.Push?
    ensures Run(c) == Run(Step(c))
  {
  }

  lemma StepNoneFires(c: Config)
    requires c.stack.Push?
    ensures |Step(c).out.trades| >= |c.out.trades|
    ensures |Step(c).out.trades| == |c.out.trades| ==> (NoneFires(Step(c).st) <==> NoneFires(c.st) && !PutsBackStale(c))
    ensures |Step(c).out.trades| > |c.out.trades| ==> NoneFires(Step(c).st) && !PutsBackStale(c)
  {
    if c.stack.top.Evaluating? {
      SameBooks(c);
      var w := c.stack.top.working;
      if w != [] {
        LaunchConverted(Config(c.st, Push(Evaluating(c.stack.top.price, w[1..]), c.stack.below), c.out), w[0]);
      }
    }
  }

  /** What a new order launches. */
  ghost function Launching(st: State, o: Order): Config
    requires Admissible(o)
  {
    Launch(Config(st, Idle, EMPTY_RESULT), o)
  }

  /** Exactly when a new order leaves no pending stop that fires at the last price. */
  lemma EnterNoneFiresIff(st: State, o: Order)
    requires Admissible(o)
    ensures var (st', r) := Enter(st, o);
      NoneFires(st') <==> !((r.trades == [] && !NoneFires(st)) || LeavesStale(Launching(st, o)))
  {
    hide LeavesStale;
    var c0 := Config(st, Idle, EMPTY_RESULT);
    LaunchOut(c0, o);
    LaunchNoneFires(st, o);
    NoneFiresIff(Launching(st, o));
    RunTape(Launching(st, o));
  }

  lemma LaunchNoneFires(st: State, o: Order)
    requires Admissible(o)
    ensures NoneFires(Launching(st, o).st) <==> NoneFires(st)
  {
    if o.IsStop() {
      LaunchConverted(Config(st, Idle, EMPTY_RESULT), o.(status := OrderStatus.Resting));
    }
  }

  // ---- at most one stop -------------------------------------------------------

  /** At most one stop waits, and if it is suspended it is about to be judged at the
      last trade price. */
  ghost predicate OneWaits(c: Config) {
    && |Waiting(c)| <= 1
    && (Suspended(c.stack) != [] ==>
      c.stack.top.Evaluating? && c.stack.top.working != [] && c.stack.top.price == c.st.last)
  }

  lemma {:induction false} RemainsFewer(s: seq<Order>, t: seq<Order>)
    requires Remains(s, t)
    ensures |s| <= |t|
    decreases |t|
  {
    if s != [] {
      if s[0] == t[0] && Remains(s[1..], t[1..]) {
        RemainsFewer(s[1..], t[1..]);
      } else {
        RemainsFewer(s, t[1..]);
      }
    }
  }

  lemma StepOneWaits(c: Config)
    requires OneWaits(c)
    ensures OneWaits(Step(c)) && !PutsBackStale(c)
  {
    StepWaiting(c);
    RemainsFewer(Waiting(Step(c)), Waiting(c));
    if c.stack.Push? && c.stack.top.Evaluating? {
      var w := c.stack.top.working;
      assert w != [] ==> w[1..] == [] && Suspended(c.stack.below) == [];
      SameBooks(c);
      if w != [] {
        var waiting := Push(Evaluating(c.stack.top.price, w[1..]), c.stack.below);
        LaunchConverted(Config(c.st, waiting, c.out), w[0]);
        assert Suspended(waiting) == w[1..] + Suspended(c.stack.below) == [];
      }
    }
  }

  lemma {:induction false} OneIsNeverStale(c: Config)
    requires OneWaits(c)
    ensures !LeavesStale(c)
    decreases Steps(c)
  {
    hide OneWaits, PutsBackStale, Step;
    if c.stack.Push? {
      StepOneWaits(c);
      OneIsNeverStale(Step(c));
    }
  }

  /** With at most one stop pending, a new order that is not itself one more leaves
      no stop that fires at the last price, if there was none before or it trades. */
  lemma AtMostOneStop(st: State, o: Order)
    requires Admissible(o) && |Launching(st, o).st.stops| <= 1
    ensures var (st', r) := Enter(st, o); NoneFires(st') <==> NoneFires(st) || r.trades != []
  {
    hide LeavesStale;
    EnterNoneFiresIff(st, o);
    if o.IsStop() {
      LaunchConverted(Config(st, Idle, EMPTY_RESULT), o.(status := OrderStatus.Resting));
    }
    var c := Launching(st, o);
    assert Suspended(c.stack) == [];
    assert Waiting(c) == c.st.stops + Suspended(c.stack) == c.st.stops;
    OneIsNeverStale(c);
  }

  lemma {:induction false} RemainsMembers(s: seq<Order>, t: seq<Order>)
    requires Remains(s, t)
    ensures forall o :: o in s ==> o in t
    decreases |t|
  {
    if s != [] {
      if s[0] == t[0] && Remains(s[1..], t[1..]) {
        RemainsMembers(s[1..], t[1..]);
        assert s == [s[0]] + s[1..];
      } else {
        RemainsMembers(s, t[1..]);
      }
    }
  }

  /** An order leaves no stop that would fire when it does not trade, or when the last
      trade is its own rather than one of a stop it fired. */
  lemma NoneFiresAfterOwnTrade(st: State, o: Order)
    requires Admissible(o) && UniqueIds(st) && StateSum(st, IdIs(o.id)) == 0 && NoneFires(st)
    ensures var (st', r) := Enter(st, o);
      r.trades == [] || r.trades[|r.trades| - 1].aggressorId == o.id ==> NoneFires(st')
  {
    hide UniqueIds, Enter;
    var (st', r) := Enter(st, o);
    EnterTape(st, o);
    EnterStops(st, o);
    RemainsMembers(st'.stops, if o.IsStop() && !(st.last != 0 && Fires(o, st.last))
                              then st.stops + [o.(status := OrderStatus.Resting)] else st.stops);
    NoStopLeftBehind(st, o);
    if r.trades != [] {
      assert r.trades[|r.trades| - 1] in r.trades;
    }
  }

  /** A pending stop is never on the book as well. */
  lemma PendingOffBook(st: State, s: Order, o: Order)
    requires UniqueIds(st) && s in st.stops && (o in st.bids || o in st.asks)
    ensures s.id != o.id
  {
    if s.id == o.id {
      assert StateSum(st, IdIs(s.id)) <= 1;
      SumZero(st.stops, s.id);
      SumZero(st.bids, s.id);
      SumZero(st.asks, s.id);
    }
  }
}
