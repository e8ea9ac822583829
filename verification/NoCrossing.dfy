/** The book is never crossed, at any moment of any cascade, except by an iceberg
    that goes to rest with an empty slice. */
module NoCrossing {
  import opened Orders
  import opened Ladder
  import opened Matcher

  ghost predicate Ordered(st: State) {
    Sorted(Buy, st.bids) && Sorted(Sell, st.asks)
  }

  predicate Uncrossed(st: State) {
    st.bids == [] || st.asks == [] || st.bids[0].price < st.asks[0].price
  }

  /** An iceberg goes to rest with an empty slice and a reserve that would still
      trade. */
  predicate RestsCrossing(c: Config) {
    && c.stack.Push? && c.stack.top.Matching?
    && var a := c.stack.top.order;
       var opposite := OnSide(c.st, Opp(a.side));
       && a.kind.Iceberg? && a.quantity == 0 && a.reserveQty > 0
       && opposite != [] && Crosses(a, opposite[0].price)
  }

  lemma InsertHead(side: Side, s: seq<Order>, o: Order)
    ensures Insert(side, s, o)[0] == if s == [] || Better(side, o.price, s[0].price) then o else s[0]
  {
  }

  /** A fill never improves the best price of the side it takes from. */
  lemma AfterFillHead(side: Side, s: seq<Order>, q: Quantity)
    requires s != [] && q <= s[0].quantity && Sorted(side, s)
    ensures Sorted(side, AfterFill(side, s, q))
    ensures AfterFill(side, s, q) != [] ==> !Better(side, AfterFill(side, s, q)[0].price, s[0].price)
  {
    SortedTail(side, s);
    var p := s[0].(quantity := s[0].quantity - q);
    if p.quantity > 0 {
      SortedCons(side, p, s[1..]);
    } else if p.IsIceberg() && p.reserveQty > 0 {
      InsertKeepsSorted(side, s[1..], Replenished(p));
      InsertHead(side, s[1..], Replenished(p));
    }
  }

  lemma StepOrdered(c: Config)
    requires Ordered(c.st)
    ensures Ordered(Step(c).st)
  {
    match c.stack {
      case Idle =>
      case Push(Matching(a), below) =>
        if CanFill(c.st, a) {
          AfterFillHead(Opp(a.side), OnSide(c.st, Opp(a.side)), FillQty(c.st, a));
        } else {
          InsertKeepsSorted(a.side, OnSide(c.st, a.side), Settled(a));
        }
      case Push(Evaluating(price, w), below) =>
        SameBooks(c);
    }
  }

  lemma SameBooks(c: Config)
    requires c.stack.Push? && c.stack.top.Evaluating?
    ensures Step(c).st.bids == c.st.bids && Step(c).st.asks == c.st.asks && Step(c).st.last == c.st.last
    ensures Step(c).out == c.out
  {
  }

  /** One step crosses an uncrossed book exactly when an order rests crossing. */
  lemma StepUncrossed(c: Config)
    requires Ordered(c.st) && Uncrossed(c.st)
    ensures Uncrossed(Step(c).st) <==> !RestsCrossing(c)
  {
    match c.stack {
      case Idle =>
      case Push(Matching(a), below) =>
        if CanFill(c.st, a) {
          AfterFillHead(Opp(a.side), OnSide(c.st, Opp(a.side)), FillQty(c.st, a));
        } else {
          InsertHead(a.side, OnSide(c.st, a.side), Settled(a));
        }
      case Push(Evaluating(price, w), below) =>
        SameBooks(c);
    }
  }

  /** No order in flight hides a reserve behind its slice. */
  ghost predicate NoHiddenReserve(k: Stack) {
    match k
    case Idle => true
    case Push(Matching(a), below) => !(a.kind.Iceberg? && a.reserveQty > 0) && NoHiddenReserve(below)
    case Push(Evaluating(_, _), below) => NoHiddenReserve(below)
  }

  lemma StepNoHiddenReserve(c: Config)
    requires NoHiddenReserve(c.stack)
    ensures NoHiddenReserve(Step(c).stack)
  {
  }

  // ---- icebergs ---------------------------------------------------------------

  /** Only the order at the bottom may hide a reserve: stops never do. */
  ghost predicate NoHiddenAbove(k: Stack) {
    match k
    case Idle => true
    case Push(Matching(a), below) => below.Idle? || (!(a.kind.Iceberg? && a.reserveQty > 0) && NoHiddenAbove(below))
    case Push(Evaluating(_, _), below) => NoHiddenAbove(below)
  }

  /** The last moment before everything is settled. */
  ghost function Eve(c: Config): (d: Config)
    requires c.stack.Push?
    ensures d.stack.Push? && Step(d).stack.Idle?
    decreases Steps(c)
  {
    if Step(c).stack.Idle? then c else Eve(Step(c))
  }

  lemma StepNoHiddenAbove(c: Config)
    requires NoHiddenAbove(c.stack)
    ensures NoHiddenAbove(Step(c).stack)
  {
  }

  /** At every moment of the run but its end, nested cascades included, whatever the
      order at the bottom hides; and at its end too if that is nothing. */
  lemma {:induction false} NeverCrossed(c: Config, n: nat)
    requires Ordered(c.st) && Uncrossed(c.st) && NoHiddenAbove(c.stack)
    ensures Ordered(Iterate(c, n).st)
    ensures n < Steps(c) || NoHiddenReserve(c.stack) ==> Uncrossed(Iterate(c, n).st)
    decreases n
  {
    if n > 0 {
      StepUncrossed(c);
      StepOrdered(c);
      StepNoHiddenAbove(c);
      if NoHiddenReserve(c.stack) {
        StepNoHiddenReserve(c);
      }
      if Uncrossed(Step(c).st) {
        NeverCrossed(Step(c), n - 1);
      } else {
        OrderedLater(Step(c), n - 1);
      }
    }
  }

  lemma {:induction false} OrderedLater(c: Config, n: nat)
    requires Ordered(c.st)
    ensures Ordered(Iterate(c, n).st)
    decreases n
  {
    if n > 0 {
      StepOrdered(c);
      OrderedLater(Step(c), n - 1);
    }
  }

  /** Whatever stops fire meanwhile, a run leaves the book crossed exactly when the
      order it was about goes to rest crossing, as the run's last step. */
  lemma {:induction false} CrossedOnlyAtRest(c: Config)
    requires Ordered(c.st) && Uncrossed(c.st) && NoHiddenAbove(c.stack) && c.stack.Push?
    ensures Uncrossed(Eve(c).st)
    ensures Uncrossed(Run(c).st) <==> !RestsCrossing(Eve(c))
    decreases Steps(c)
  {
    StepUncrossed(c);
    StepOrdered(c);
    StepNoHiddenAbove(c);
    if !Step(c).stack.Idle? {
      CrossedOnlyAtRest(Step(c));
    }
  }
}
