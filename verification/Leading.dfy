/** What a call of the engine leaves behind, in terms of the reference machine. */
module Leading {
  import opened Orders
  import opened Ladder
  import opened OrderBooks
  import opened Matcher
  import opened Spending
  import opened Census
  import opened Everywhere
  import opened Clearance

  /** What a book holds besides its eager state: where there are tombstones, whether
      no iceberg ever joined it, and what was spent on its levels. */
  datatype History = History(graves: iset<Grave>, iceless: bool, spent: Ledger)

  const NO_PEAK: Order -> bool := (o: Order) => !o.IsIceberg()

  lemma NoPeakClosed()
    ensures Closed(NO_PEAK)
  {
  }

  /** The run of `c`, with history `b`, comes by `d`, with history `b'`; from both it
      goes on to the same end, spending as much in all; no id gets open twice, no order comes near
      a tombstone of its id, no iceberg joins unless there is one to join, and no
      place is visited or gets a tombstone that no order was bound for. */
  ghost predicate Leads(c: Config, b: History, d: Config, b': History) {
    && Reaches(c, d) && Run(c) == Run(d) && Steps(d) <= Steps(c)
    && RunSpends(c, b.spent) == RunSpends(d, b'.spent)
    && (Unique(c) ==> Unique(d))
    && (Unique(c) && Every(c, Clear(b.graves)) ==> Every(d, Clear(b'.graves)))
    && (b.iceless && Every(c, NO_PEAK) ==> b'.iceless && Every(d, NO_PEAK))
    && (forall visited :: b.graves <= visited && Every(c, NotedIn(visited)) ==>
                            b'.graves <= visited && Every(d, NotedIn(visited)))
  }

  lemma StepLeads(c: Config, b: History)
    requires c.stack.Push?
    ensures Leads(c, b, Step(c), b.(spent := StepSpends(c, b.spent))) && Steps(Step(c)) < Steps(c)
  {
    hide Step, StepSpends, Every, Unique;
    NoPeakClosed();
    ClearClosed(b.graves);
    StepKeeps(c, NO_PEAK);
    StepKeeps(c, Clear(b.graves));
    forall visited ensures Every(c, NotedIn(visited)) ==> Every(Step(c), NotedIn(visited)) {
      NotedClosed(visited);
      StepKeeps(c, NotedIn(visited));
    }
    RunSpendsStep(c, b.spent);
    ReachesStep(c);
    if Unique(c) {
      StepUnique(c);
    }
  }

  lemma LeadsNowhere(c: Config, b: History)
    ensures Leads(c, b, c, b)
  {
    ReachesNowhere(c);
  }

  lemma LeadsOn(c: Config, b: History, d: Config, b': History, e: Config, b'': History)
    requires Leads(c, b, d, b') && Leads(d, b', e, b'')
    ensures Leads(c, b, e, b'') && Steps(e) <= Steps(d) <= Steps(c)
  {
    hide Run, Steps, Reaches, RunSpends, Unique, Every, Clear, NO_PEAK;
    ReachesOn(c, d, e);
  }

  lemma LeadsUnique(c: Config, b: History, d: Config, b': History)
    requires Leads(c, b, d, b') && Unique(c)
    ensures Unique(d)
  {
    hide Unique;
  }

  /** A market order that found nothing more is done, rejected if anything is left. */
  lemma MarketDoneLeads(st: State, a: Order, below: Stack, out: MatchResult, b: History)
    requires a.kind.Market? && !CanFill(st, a)
    ensures Leads(Config(st, Push(Matching(a), below), out), b,
                  Config(st, below, if a.quantity > 0 then AddRejection(out, Exhausted(a)) else out), b)
  {
    hide Leads, Step, StepSpends, CanFill;
    var c := Config(st, Push(Matching(a), below), out);
    StepLeads(c, b);
    MarketDone(c, a, below, b.spent);
  }

  lemma MarketDone(c: Config, a: Order, below: Stack, l: Ledger)
    requires c.stack == Push(Matching(a), below) && a.kind.Market? && !CanFill(c.st, a)
    ensures Step(c) == Config(c.st, below, if a.quantity > 0 then AddRejection(c.out, Exhausted(a)) else c.out)
    ensures StepSpends(c, l) == l
  {
  }

  /** A limit order or an iceberg that found nothing more rests, if anything is left. */
  lemma RestLeads(c: Config, a: Order, below: Stack, b: History)
    requires c.stack == Push(Matching(a), below) && !a.kind.Market? && !CanFill(c.st, a)
    ensures Leads(c, b, Config(if Rests(a) then Place(c.st, Settled(a)) else c.st, below, c.out),
                  if !Rests(a) then b
                  else b.(iceless := b.iceless && !a.IsIceberg(), spent := PlaceSpends(b.spent, Settled(a))))
  {
    hide Run, Steps, Reaches, Step, StepSpends, PlaceSpends, Place, CanFill, Rests, Unique, Clear, NotedIn;
    StepLeads(c, b);
    RestDone(c, a, below, b.spent);
    if a.IsIceberg() {
      assert !NO_PEAK(a);
    }
  }

  lemma RestDone(c: Config, a: Order, below: Stack, l: Ledger)
    requires c.stack == Push(Matching(a), below) && !a.kind.Market? && !CanFill(c.st, a)
    ensures Step(c) == Config(if Rests(a) then Place(c.st, Settled(a)) else c.st, below, c.out)
    ensures StepSpends(c, l) == if Rests(a) then PlaceSpends(l, Settled(a)) else l
  {
  }

  lemma StepKeeps(c: Config, p: Order -> bool)
    requires Closed(p)
    ensures Every(c, p) ==> Every(Step(c), p)
  {
    if Every(c, p) {
      StepEvery(c, p);
    }
  }

  /** Tombstones may go at any time. */
  lemma DrainLeads(c: Config, b: History, graves: iset<Grave>, d: Config, b': History)
    requires graves <= b.graves && Leads(c, b.(graves := graves), d, b')
    ensures Leads(c, b, d, b')
  {
    hide Run, Steps, Reaches, RunSpends, Unique, Every;
    if Every(c, Clear(b.graves)) {
      ClearFewer(c, b.graves, graves);
    }
  }

  /** A passive order that is used up leaves play, so its id may be buried. */
  lemma FillLeads(c: Config, a: Order, below: Stack, b: History, graves: iset<Grave>)
    requires c.stack == Push(Matching(a), below) && CanFill(c.st, a)
    requires var best := OnSide(c.st, Opp(a.side))[0];
      graves <= if UsedUp(best, FillQty(c.st, a)) then b.graves + iset{GraveOf(best)} else b.graves
    ensures Leads(c, b, StartEvaluation(Traded(c, a, below)), b.(graves := graves, spent := StepSpends(c, b.spent)))
    ensures Steps(StartEvaluation(Traded(c, a, below))) < Steps(c)
  {
    hide Run, Steps, Reaches, RunSpends, StepSpends, Unique, Total, Every, Traded, StartEvaluation, FillQty;
    FillIsStep(c, a, below);
    StepLeads(c, b);
    forall visited | Every(c, NotedIn(visited)) && b.graves <= visited ensures graves <= visited {
      HeadIsNoted(c, a, visited);
    }
    var d := StartEvaluation(Traded(c, a, below));
    if Unique(c) && Every(c, Clear(b.graves)) {
      var best := OnSide(c.st, Opp(a.side))[0];
      if UsedUp(best, FillQty(c.st, a)) {
        UsedUpIsGone(c, a, below);
        ClearGone(d, best.id, b.graves, graves);
      } else {
        ClearFewer(d, b.graves, graves);
      }
    }
  }

  lemma HeadIsNoted(c: Config, a: Order, visited: iset<Grave>)
    requires CanFill(c.st, a) && Every(c, NotedIn(visited))
    ensures GraveOf(OnSide(c.st, Opp(a.side))[0]) in visited
  {
    assert OnSide(c.st, Opp(a.side))[0] in OnSide(c.st, Opp(a.side));
  }

  lemma FillIsStep(c: Config, a: Order, below: Stack)
    requires c.stack == Push(Matching(a), below) && CanFill(c.st, a)
    ensures Step(c) == StartEvaluation(Traded(c, a, below))
  {
  }

  lemma UsedUpIsGone(c: Config, a: Order, below: Stack)
    requires c.stack == Push(Matching(a), below) && CanFill(c.st, a)
    requires UsedUp(OnSide(c.st, Opp(a.side))[0], FillQty(c.st, a))
    ensures var id := OnSide(c.st, Opp(a.side))[0].id;
      Unique(c) ==> Total(c, IdIs(id)) == 1 && Total(StartEvaluation(Traded(c, a, below)), IdIs(id)) == 0
  {
    var id := OnSide(c.st, Opp(a.side))[0].id;
    assert Unique(c) ==> Total(c, IdIs(id)) <= 1;
    assert Unique(c) ==> Total(Traded(c, a, below), IdIs(id)) == 0;
  }

  /** An order in flight does not rest on the book. */
  lemma NotOnBook(c: Config, a: Order, below: Stack)
    requires c.stack == Push(Matching(a), below) && Unique(c)
    ensures forall o :: o in c.st.bids || o in c.st.asks ==> o.id != a.id
  {
    assert Total(c, IdIs(a.id)) <= 1;
    SumZero(c.st.bids, a.id);
    SumZero(c.st.asks, a.id);
  }

  /** Amending the first order of a list, and taking it off after that. */
  lemma HeadAmended(s: seq<Order>, o: Order)
    requires s != [] && s[0].id == o.id
    ensures Update(s, o) != [] && Update(s, o)[0] == o && Update(s, o)[1..] == s[1..] && Update(s, o) == [o] + s[1..]
    ensures Remove(Update(s, o), o.id) == s[1..]
  {
  }

  // ---- whole events without icebergs ------------------------------------------

  predicate BringsNoIceberg(e: Event) {
    match e
    case NewOrder(o) => !o.IsIceberg()
    case ReplaceOrder(_, o) => !o.IsIceberg()
    case _ => true
  }

  lemma LaunchNoPeak(st: State, o: Order)
    requires Admissible(o)
    ensures AllState(st, NO_PEAK) && !o.IsIceberg() ==> Every(Launch(Config(st, Idle, EMPTY_RESULT), o), NO_PEAK)
  {
    NoPeakClosed();
    if AllState(st, NO_PEAK) && !o.IsIceberg() {
      assert NO_PEAK(Entering(o));
      LaunchEvery(Config(st, Idle, EMPTY_RESULT), o, NO_PEAK);
    }
  }

  lemma WithdrawNoPeak(st: State, id: OrderId)
    ensures AllState(st, NO_PEAK) ==> AllState(Withdraw(st, id), NO_PEAK)
  {
    RemoveSubset(st.bids, id);
    RemoveSubset(st.asks, id);
  }

  /** Without icebergs anywhere, none appears. */
  lemma SubmitNoPeak(st: State, e: Event)
    requires AdmissibleEvent(e)
    ensures AllState(st, NO_PEAK) && BringsNoIceberg(e) ==> AllState(Submit(st, e).0, NO_PEAK)
  {
    hide Submit, AllState;
    NoPeakClosed();
    if AllState(st, NO_PEAK) && BringsNoIceberg(e) {
      SubmitEvery(st, e, NO_PEAK);
    }
  }
}
