/** Icebergs: how large their slices are, and when each has its turn. */
module Icebergs {
  import opened Orders
  import opened Ladder
  import opened Matcher
  import opened Census
  import opened Everywhere
  import opened Greedy

  // ---- the size of the slices -------------------------------------------------

  /** A reserve comes in full peaks, and what is left over in the last slice: the
      n-th slice is the peak, or less if less is left, and there are as many slices
      as it takes. */
  ghost predicate InPeaks(slices: seq<nat>, peak: nat, reserve: nat) {
    && (if reserve == 0 then slices == [] else slices != [] && (|slices| - 1) * peak < reserve <= |slices| * peak)
    && (forall n :: 0 <= n < |slices| ==>
          slices[n] == if reserve - n * peak < peak then reserve - n * peak else peak)
  }

  lemma InPeaksMore(slices: seq<nat>, peak: nat, reserve: nat)
    requires peak > 0 && reserve > 0
    requires InPeaks(slices, peak, if reserve < peak then 0 else reserve - peak)
    ensures InPeaks([if reserve < peak then reserve else peak] + slices, peak, reserve)
  {
    var all := [if reserve < peak then reserve else peak] + slices;
    var later := if reserve < peak then 0 else reserve - peak;
    Times(|slices|, peak);
    Times(|all|, peak);
    forall n | 0 < n < |all|
      ensures all[n] == if reserve - n * peak < peak then reserve - n * peak else peak
    {
      Times(n, peak);
      assert all[n] == slices[n - 1];
    }
    assert 0 * peak == 0;
  }

  lemma Times(n: int, k: nat)
    ensures n * k == (n - 1) * k + k
  {
  }

  /** The quantities of the slices of one id, in the order of their turns. */
  function QuantitiesOf(slices: seq<Order>, id: OrderId): seq<nat> {
    if slices == [] then []
    else (if slices[0].id == id then [slices[0].quantity] else []) + QuantitiesOf(slices[1..], id)
  }

  lemma {:induction false} NoSlices(side: Side, s: seq<Order>, id: OrderId)
    requires Sum(s, IdIs(id)) == 0
    ensures QuantitiesOf(Slices(side, s), id) == []
    decreases Sum(s, OPEN_OF), Sum(s, IS_ZERO)
  {
    if s != [] {
      UsingUpDescends(side, s);
      SlicesFrom(side, s);
      SumInsert(side, s[1..], Replenished(s[0].(quantity := 0)), IdIs(id));
      NoSlices(side, AfterFill(side, s, s[0].quantity), id);
    }
  }

  lemma SlicesFrom(side: Side, s: seq<Order>)
    requires s != []
    ensures var t := Slices(side, s);
      t != [] && t[0] == s[0] && t[1..] == Slices(side, AfterFill(side, s, s[0].quantity))
  {
  }

  /** What an order on the book shows one after the other while everything before it
      is used up: its present slice, and then its reserve in full peaks. An order
      without a peak shows no reserve. */
  lemma {:induction false} SlicesOfOrder(side: Side, s: seq<Order>, o: Order)
    requires o in s && Sum(s, IdIs(o.id)) == 1
    ensures var slices := QuantitiesOf(Slices(side, s), o.id);
      && slices != [] && slices[0] == o.quantity
      && InPeaks(slices[1..], o.peakQty, if o.peakQty > 0 then o.reserveQty else 0)
    decreases Sum(s, OPEN_OF), Sum(s, IS_ZERO)
  {
    hide Slices, InPeaks, AfterFill, Sum, QuantitiesOf;
    var next := AfterFill(side, s, s[0].quantity);
    var later := QuantitiesOf(Slices(side, next), o.id);
    UsingUpDescends(side, s);
    SlicesFrom(side, s);
    QuantitiesFrom(Slices(side, s), o.id);
    NextKnows(side, s, o);
    if s[0].id != o.id {
      SlicesOfOrder(side, next, o);
    } else if o.peakQty > 0 && o.reserveQty > 0 {
      SlicesOfOrder(side, next, Replenished(o.(quantity := 0)));
      InPeaksMore(later[1..], o.peakQty, o.reserveQty);
    } else {
      NoSlices(side, next, o.id);
      NoPeaks(o.peakQty);
    }
  }

  lemma QuantitiesFrom(slices: seq<Order>, id: OrderId)
    requires slices != []
    ensures var later := QuantitiesOf(slices[1..], id); var all := QuantitiesOf(slices, id);
      && (slices[0].id != id ==> all == later)
      && (slices[0].id == id ==> all != [] && all[0] == slices[0].quantity && all[1..] == later)
      && (later != [] ==> later == [later[0]] + later[1..])
  {
  }

  /** Once the first order of the list is used up, another one is still there, once;
      the first itself only if it has a next slice. */
  lemma NextKnows(side: Side, s: seq<Order>, o: Order)
    requires o in s && Sum(s, IdIs(o.id)) == 1
    ensures var next := AfterFill(side, s, s[0].quantity);
      if s[0].id != o.id then o in next && Sum(next, IdIs(o.id)) == 1
      else
        && s[0] == o
        && if o.peakQty > 0 && o.reserveQty > 0
           then Replenished(o.(quantity := 0)) in next && Sum(next, IdIs(o.id)) == 1
           else Sum(next, IdIs(o.id)) == 0
  {
    hide Insert;
    var p := Replenished(s[0].(quantity := 0));
    SumInsert(side, s[1..], p, IdIs(o.id));
    InsertMembers(side, s[1..], p);
    if s[0].id == o.id {
      SumZero(s[1..], o.id);
      assert o !in s[1..];
    }
  }

  lemma NoPeaks(peak: nat)
    ensures InPeaks([], peak, 0)
  {
  }

  // ---- whose turn it is -------------------------------------------------------

  /** The order with its next slice, if it has one. */
  function NextOf(o: Order): (next: seq<Order>)
    ensures forall x :: x in next ==> x.price == o.price
  {
    var slice := if o.reserveQty < o.peakQty then o.reserveQty else o.peakQty;
    if o.peakQty > 0 && o.reserveQty > 0 then [o.(quantity := slice, reserveQty := o.reserveQty - slice)] else []
  }

  /** The next slices of those orders of a queue that have one, in the same order. */
  function Again(queue: seq<Order>): seq<Order> {
    if queue == [] then [] else NextOf(queue[0]) + Again(queue[1..])
  }

  /** The orders of the best price have their turns in rounds: first each shows its
      present slice, in the order of the queue, then those with a reserve show the
      next, in the same order, and so on before any worse price. */
  lemma Rounds(side: Side, queue: seq<Order>, worse: seq<Order>, p: Price)
    requires forall o :: o in queue ==> o.price == p
    requires forall o :: o in worse ==> if side.Buy? then o.price < p else o.price > p
    ensures Slices(side, queue + worse) == queue + Slices(side, Again(queue) + worse)
  {
    RoundGoesOn(side, queue, [], worse, p);
    assert queue + [] == queue && [] + Again(queue) == Again(queue);
  }

  lemma {:induction false} RoundGoesOn(side: Side, queue: seq<Order>, served: seq<Order>, worse: seq<Order>, p: Price)
    requires (forall o :: o in queue ==> o.price == p) && (forall o :: o in served ==> o.price == p)
    requires forall o :: o in worse ==> if side.Buy? then o.price < p else o.price > p
    ensures Slices(side, queue + served + worse) == queue + Slices(side, served + Again(queue) + worse)
    decreases |queue|
  {
    hide Slices, NextOf, AfterFill;
    if queue == [] {
      NoneAgain();
      assert served + [] == served && queue + served == served;
    } else {
      var o, rest := queue[0], queue[1..];
      TurnOf(side, o, rest + served, worse, p);
      RoundGoesOn(side, rest, served + NextOf(o), worse, p);
      assert queue + served + worse == [o] + (rest + served) + worse;
      assert (rest + served) + NextOf(o) + worse == rest + (served + NextOf(o)) + worse;
      assert (served + NextOf(o)) + Again(rest) == served + Again(queue);
      assert queue == [o] + rest;
    }
  }

  lemma NoneAgain()
    ensures Again([]) == []
  {
  }

  /** Used up, the first order goes behind its queue if it has a next slice. */
  lemma TurnOf(side: Side, o: Order, queue: seq<Order>, worse: seq<Order>, p: Price)
    requires o.price == p && (forall x :: x in queue ==> x.price == p)
    requires forall x :: x in worse ==> if side.Buy? then x.price < p else x.price > p
    ensures Slices(side, [o] + queue + worse) == [o] + Slices(side, queue + NextOf(o) + worse)
    ensures forall x :: x in NextOf(o) ==> x.price == p
  {
    hide Slices;
    var s := [o] + queue + worse;
    var next := Replenished(o.(quantity := 0));
    SlicesFrom(side, s);
    assert s[1..] == queue + worse;
    InsertBehind(side, queue, worse, next);
    assert queue + [] == queue;
    var t := Slices(side, s);
    assert t == [t[0]] + t[1..];
  }

  lemma {:induction false} InsertBehind(side: Side, queue: seq<Order>, worse: seq<Order>, o: Order)
    requires forall x :: x in queue ==> x.price == o.price
    requires forall x :: x in worse ==> if side.Buy? then x.price < o.price else x.price > o.price
    ensures Insert(side, queue + worse, o) == queue + [o] + worse
  {
    if queue == [] {
      assert queue + worse == worse;
      assert worse != [] ==> worse[0] in worse;
    } else {
      assert queue[0] in queue;
      assert (queue + worse)[0] == queue[0] && (queue + worse)[1..] == queue[1..] + worse;
      InsertBehind(side, queue[1..], worse, o);
      assert [queue[0]] + (queue[1..] + [o] + worse) == queue + [o] + worse;
    }
  }

  // ---- no iceberg shows more than its peak ------------------------------------

  const SHOWS_NO_MORE: Order -> bool := (o: Order) => o.peakQty > 0 ==> o.quantity <= o.peakQty

  /** When a fill uses up a slice, the order shows its full peak again, unless less
      than that is left of its reserve, which it then shows. */
  lemma StepReplenishes(c: Config)
    requires c.stack.Push? && c.stack.top.Matching? && CanFill(c.st, c.stack.top.order)
    requires var a := c.stack.top.order; var p := OnSide(c.st, Opp(a.side))[0];
      a.quantity >= p.quantity && p.peakQty > 0 && p.reserveQty > 0
    ensures var a := c.stack.top.order; var p := OnSide(c.st, Opp(a.side))[0];
      var next := if p.reserveQty < p.peakQty then p.reserveQty else p.peakQty;
      p.(quantity := next, reserveQty := p.reserveQty - next) in OnSide(Step(c).st, Opp(a.side))
  {
    var a := c.stack.top.order;
    var s := OnSide(c.st, Opp(a.side));
    InsertMembers(Opp(a.side), s[1..], Replenished(s[0].(quantity := 0)));
  }

  lemma AfterFillShows(side: Side, s: seq<Order>, q: Quantity)
    requires s != [] && q <= s[0].quantity && All(s, SHOWS_NO_MORE)
    ensures All(AfterFill(side, s, q), SHOWS_NO_MORE)
  {
    assert s[0] in s && forall o :: o in s[1..] ==> o in s;
    InsertMembers(side, s[1..], Replenished(s[0].(quantity := 0)));
  }

  lemma StepShows(c: Config)
    requires Every(c, SHOWS_NO_MORE)
    ensures Every(Step(c), SHOWS_NO_MORE)
  {
    match c.stack {
      case Idle =>
      case Push(Matching(a), below) =>
        if CanFill(c.st, a) {
          AfterFillShows(Opp(a.side), OnSide(c.st, Opp(a.side)), FillQty(c.st, a));
        } else {
          InsertMembers(a.side, OnSide(c.st, a.side), Settled(a));
        }
      case Push(Evaluating(price, w), below) =>
        if w != [] {
          assert w[0] in w && forall o :: o in w[1..] ==> o in w;
          LaunchConverted(Config(c.st, Push(Evaluating(price, w[1..]), below), c.out), w[0]);
        }
    }
  }

  lemma {:induction false} IterateShows(c: Config, n: nat)
    requires Every(c, SHOWS_NO_MORE)
    ensures Every(Iterate(c, n), SHOWS_NO_MORE)
    decreases n
  {
    hide Every, Step;
    if n > 0 {
      StepShows(c);
      IterateShows(Step(c), n - 1);
    }
  }

  /** At every moment of a new order's cascade no order shows more than its peak; an
      arriving iceberg shows exactly its peak at first. */
  lemma EnterShows(st: State, o: Order, n: nat)
    requires Admissible(o) && AllState(st, SHOWS_NO_MORE) && (o.kind.Iceberg? || SHOWS_NO_MORE(o))
    ensures var c := Launch(Config(st, Idle, EMPTY_RESULT), o);
      && Every(Iterate(c, n), SHOWS_NO_MORE) && AllState(Enter(st, o).0, SHOWS_NO_MORE)
      && (o.kind.Iceberg? ==>
            c.stack == Push(Matching(o.(quantity := o.peakQty, reserveQty := o.quantity - o.peakQty,
                                        status := OrderStatus.Resting)), Idle))
  {
    var c0 := Config(st, Idle, EMPTY_RESULT);
    if o.IsStop() {
      LaunchConverted(c0, o.(status := OrderStatus.Resting));
    }
    var c := Launch(c0, o);
    assert AllState(c.st, SHOWS_NO_MORE) by {
      assert SHOWS_NO_MORE(o) ==> SHOWS_NO_MORE(o.(status := OrderStatus.Resting));
    }
    assert AllStack(c.stack, SHOWS_NO_MORE);
    IterateShows(c, n);
    IterateShows(c, Steps(c));
    RunIsIterate(c);
  }

  /** The same of every event, but for a modify that itself asks for more. */
  lemma SubmitShows(st: State, e: Event)
    requires AdmissibleEvent(e) && AllState(st, SHOWS_NO_MORE)
    requires match e
      case NewOrder(o) => o.kind.Iceberg? || SHOWS_NO_MORE(o)
      case ReplaceOrder(_, o) => o.kind.Iceberg? || SHOWS_NO_MORE(o)
      case ModifyOrder(id, _, quantity, _) =>
        forall o :: (o in st.bids || o in st.asks) && o.id == id && o.peakQty > 0 ==> quantity <= o.peakQty
      case CancelOrder(_, _) => true
    ensures AllState(Submit(st, e).0, SHOWS_NO_MORE)
  {
    var id := Subject(e);
    RemoveSubset(st.bids, id);
    RemoveSubset(st.asks, id);
    RemoveSubset(st.stops, id);
    match e {
      case NewOrder(o) =>
        EnterShows(st, o, 0);
      case CancelOrder(_, _) =>
      case ModifyOrder(_, price, quantity, timestamp) =>
        if Lookup(st, id).Some? {
          var o := Lookup(st, id).value;
          var m := Modified(o, price, quantity, timestamp);
          InsertMembers(m.side, OnSide(Withdraw(st, id), m.side), m);
          UpdateSubset(OnSide(st, o.side), o.(quantity := quantity));
        }
      case ReplaceOrder(_, o) =>
        if Lookup(st, id).Some? {
          EnterShows(Withdraw(st, id), o, 0);
        }
    }
  }
}
