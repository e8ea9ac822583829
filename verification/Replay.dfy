/** Feeding an engine a whole sequence of events. */
module Replays {
  import opened Orders
  import opened OrderBooks
  import opened Volumes
  import opened Matcher
  import opened Spending
  import opened Census
  import opened Everywhere
  import opened Clearance
  import opened Leading
  import opened MatchingEngines

  /** No event brings an id to a level of a side where it has been, counting from
      `visited`, except by putting the oldest order of a level back onto it. */
  ghost predicate NoReturnRun(st: State, visited: iset<Grave>, es: seq<Event>)
    requires WellFormedRun(st, es)
    decreases |es|
  {
    es == [] || (NoReturn(st, visited, es[0])
      && NoReturnRun(Submit(st, es[0]).0, visited + PlacesOfEvent(st, es[0]), es[1..]))
  }

  /** One more event at the end of a run. */
  lemma {:induction false} PlayMore(st: State, l: Ledger, es: seq<Event>, e: Event)
    requires (forall x :: x in es ==> AdmissibleEvent(x)) && AdmissibleEvent(e)
    ensures forall x :: x in es + [e] ==> AdmissibleEvent(x)
    ensures var (st1, rs) := Play(st, es); Play(st, es + [e]) == (Submit(st1, e).0, rs + [Submit(st1, e).1])
    ensures PlaySpends(st, l, es + [e]) == SubmitSpends(Play(st, es).0, PlaySpends(st, l, es), e)
    decreases |es|
  {
    hide Submit, SubmitSpends;
    if es == [] {
      var r := Submit(st, e).1;
      assert es + [e] == [e] && [e][1..] == [] && [] + [r] == [r] + [];
    } else {
      assert (es + [e])[0] == es[0] && (es + [e])[1..] == es[1..] + [e];
      PlayMore(Submit(st, es[0]).0, SubmitSpends(st, l, es[0]), es[1..], e);
      var (st1, rs) := Play(Submit(st, es[0]).0, es[1..]);
      assert [Submit(st, es[0]).1] + (rs + [Submit(st1, e).1]) == ([Submit(st, es[0]).1] + rs) + [Submit(st1, e).1];
    }
  }

  /** No iceberg ever joined the book and none is anywhere. */
  ghost predicate Iceless(engine: MatchingEngine)
    reads engine, engine.book, engine.book.bids, engine.book.asks, engine.book.bids.levels.Values,
          engine.book.asks.levels.Values
  {
    engine.Past().iceless && AllState(engine.St(), NO_PEAK)
  }

  lemma NextEvent(st: State, es: seq<Event>, i: nat)
    requires i < |es| && WellFormedRun(st, es[i..])
    ensures WellFormed(st, es[i]) && WellFormedRun(Submit(st, es[i]).0, es[i + 1..])
    ensures forall visited :: NoReturnRun(st, visited, es[i..]) ==>
              && NoReturn(st, visited, es[i])
              && NoReturnRun(Submit(st, es[i]).0, visited + PlacesOfEvent(st, es[i]), es[i + 1..])
  {
    assert es[i..][0] == es[i] && es[i..][1..] == es[i + 1..];
  }

  /** For every run of well-formed events the engine gives, event by event, the results
      of the reference matcher, and is in its state, having spent as much. It gets to
      the end, or to the first event that takes a haunted order off the book; and no
      order gets haunted unless some event brings an id bound for a level that still
      holds a tombstone of it, which takes an id that comes back to where it was. */
  method Replay(engine: MatchingEngine, es: seq<Event>, ghost visited: iset<Grave>) returns (results: seq<MatchResult>)
    requires engine.Valid() && UniqueIds(engine.St()) && WellFormedRun(engine.St(), es)
    modifies engine, engine.book, engine.book.bids, engine.book.asks, engine.book.Levels()
    ensures engine.Valid() && UniqueIds(engine.St()) && fresh(engine.book.Levels() - old(engine.book.Levels()))
    ensures (forall e :: e in es ==> AdmissibleEvent(e)) && |results| <= |es|
    ensures (engine.St(), results) == Play(old(engine.St()), es[..|results|])
    ensures engine.Spent() == PlaySpends(old(engine.St()), old(engine.Spent()), es[..|results|])
    ensures engine.sequence == old(engine.sequence) + |results|
    ensures |results| < |es| ==> !engine.Serves(es[|results|])
    ensures old(engine.Clean()) && engine.revisits == old(engine.revisits) ==> |results| == |es| && engine.Clean()
    ensures old(Tracked(engine, visited)) && NoReturnRun(old(engine.St()), visited, es) ==>
              |results| == |es| && engine.Clean()
    ensures old(Iceless(engine)) && (forall e :: e in es ==> BringsNoIceberg(e)) ==> Iceless(engine)
  {
    hide *;
    results := [];
    ghost var st0, l0 := engine.St(), engine.Spent();
    ghost var tracked, seen := Tracked(engine, visited) && NoReturnRun(st0, visited, es), visited;
    RunAdmissible(st0, es);
    NothingPlayed(st0, l0);
    assert es[0..] == es && es[..0] == [];
    var i := 0;
    while i < |es|
      invariant 0 <= i <= |es| && |results| == i
      invariant engine.Valid() && UniqueIds(engine.St()) && fresh(engine.book.Levels() - old(engine.book.Levels()))
      invariant WellFormedRun(engine.St(), es[i..])
      invariant (engine.St(), results) == Play(st0, es[..i])
      invariant engine.Spent() == PlaySpends(st0, l0, es[..i])
      invariant engine.sequence == old(engine.sequence) + i
      invariant engine.revisits >= old(engine.revisits)
      invariant old(engine.Clean()) && engine.revisits == old(engine.revisits) ==> engine.Clean()
      invariant tracked ==> Tracked(engine, seen) && NoReturnRun(engine.St(), seen, es[i..])
      invariant old(Iceless(engine)) && (forall e :: e in es ==> BringsNoIceberg(e)) ==> Iceless(engine)
    {
      NextEvent(engine.St(), es, i);
      var ok := engine.CanServe(es[i]);
      if tracked {
        TrackedIff(engine, seen);
      }
      if engine.Clean() {
        engine.CleanServes(es[i]);
      }
      if !ok {
        return;
      }
      assert es[..i + 1] == es[..i] + [es[i]];
      PlayMore(st0, l0, es[..i], es[i]);
      label next:
      ghost var levels := engine.book.Levels();
      ghost var places := PlacesOfEvent(engine.St(), es[i]);
      var r := ServeNext(engine, es[i]);
      seen := seen + places;
      forall level | level in engine.book.Levels() && level !in levels ensures fresh(level) {
        assert fresh@next(level);
      }
      results := results + [r];
      i := i + 1;
    }
    assert es[..|es|] == es;
    if tracked {
      TrackedIff(engine, seen);
    }
  }

  lemma NothingPlayed(st: State, l: Ledger)
    ensures Play(st, []) == (st, []) && PlaySpends(st, l, []) == l
  {
  }

  /** One event of a run. */
  method ServeNext(engine: MatchingEngine, e: Event) returns (r: MatchResult)
    requires engine.Valid() && UniqueIds(engine.St()) && WellFormed(engine.St(), e) && engine.Serves(e)
    modifies engine, engine.book, engine.book.bids, engine.book.asks, engine.book.Levels()
    ensures engine.Valid() && UniqueIds(engine.St()) && fresh(engine.book.Levels() - old(engine.book.Levels()))
    ensures (engine.St(), r) == Submit(old(engine.St()), e)
    ensures engine.Spent() == SubmitSpends(old(engine.St()), old(engine.Spent()), e)
    ensures engine.sequence == old(engine.sequence) + 1 && engine.revisits >= old(engine.revisits)
    ensures old(engine.Clean()) && engine.revisits == old(engine.revisits) ==> engine.Clean()
    ensures forall visited :: old(Tracked(engine, visited)) && NoReturn(old(engine.St()), visited, e) ==>
              Tracked(engine, visited + PlacesOfEvent(old(engine.St()), e))
    ensures old(Iceless(engine)) && BringsNoIceberg(e) ==> Iceless(engine)
  {
    hide UniqueIds, Submit, SubmitSpends, WellFormed, OrderBook.Valid, MatchingEngine.Serves, MatchingEngine.Clean,
         MatchingEngine.Revisits, MatchingEngine.Within, NoReturn, PlacesOfEvent, Tracked;
    TrackingGoesOn(engine, e);
    r := engine.Submit(e);
    forall visited | old(Tracked(engine, visited)) && NoReturn(old(engine.St()), visited, e)
      ensures Tracked(engine, visited + PlacesOfEvent(old(engine.St()), e))
    {
      assert PlacesOfEvent(old(engine.St()), e) <= visited + PlacesOfEvent(old(engine.St()), e);
      TrackedIff(engine, visited + PlacesOfEvent(old(engine.St()), e));
    }
  }

  /** On a run without icebergs from a new engine, every level shows what rests there
      and what was spent there, as the reference matcher counts it. */
  method PlayFresh(es: seq<Event>) returns (engine: MatchingEngine, results: seq<MatchResult>)
    requires WellFormedRun(EMPTY_STATE, es) && forall e :: e in es ==> BringsNoIceberg(e)
    ensures (forall e :: e in es ==> AdmissibleEvent(e)) && |results| <= |es|
    ensures |results| == |es| || (engine.revisits > 0 && !NoReturnRun(EMPTY_STATE, iset{}, es))
    ensures (engine.St(), results) == Play(EMPTY_STATE, es[..|results|])
    ensures var spent := PlaySpends(EMPTY_STATE, EMPTY_LEDGER, es[..|results|]);
      forall side, p :: p in engine.book.SideOf(side).levels ==>
        && p in LedgerOf(spent, side)
        && engine.book.SideOf(side).levels[p].totalVolume
           == LiveQty(OnSide(engine.St(), side), p) + LedgerOf(spent, side)[p]
  {
    hide UniqueIds, Submit, Play, PlaySpends, WellFormedRun, OrderBook.Valid, MatchingEngine.Serves;
    engine := new MatchingEngine();
    NobodyThere();
    results := Replay(engine, es, iset{});
    forall side, p | p in engine.book.SideOf(side).levels
      ensures engine.book.SideOf(side).iceless && p in engine.book.SideOf(side).spent
      ensures engine.book.SideOf(side).levels[p].totalVolume
           == LiveQty(engine.book.SideOf(side).list, p) + engine.book.SideOf(side).spent[p]
    {
      engine.book.VolumeBound(side, p);
    }
  }

  lemma NobodyThere()
    ensures UniqueIds(EMPTY_STATE)
  {
  }
}
