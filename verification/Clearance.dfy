/** Keeping orders clear of tombstones of their own id. */
module Clearance {
  import opened Orders
  import opened Ladder
  import opened OrderBooks
  import opened Matcher
  import opened Census
  import opened Everywhere

  /** No tombstone of the order's id is on the level the order is bound for. */
  ghost function Clear(graves: iset<Grave>): Order -> bool {
    (o: Order) => GraveOf(o) !in graves && (o.kind.Stop? ==> Grave(o.side, 0, o.id) !in graves)
  }

  lemma ClearClosed(graves: iset<Grave>)
    ensures Closed(Clear(graves))
  {
  }

  /** Every place the order is bound for is among those visited. */
  ghost function NotedIn(visited: iset<Grave>): Order -> bool {
    (o: Order) => GraveOf(o) in visited && (o.kind.Stop? ==> Grave(o.side, 0, o.id) in visited)
  }

  lemma NotedClosed(visited: iset<Grave>)
    ensures Closed(NotedIn(visited))
  {
  }

  // ---- other tombstones -------------------------------------------------------

  /** What holds of every order still does when no order it could fail for is left. */
  lemma {:induction false} StackBut(k: Stack, id: OrderId, p: Order -> bool, q: Order -> bool)
    requires AllStack(k, p) && (forall o: Order :: p(o) && o.id != id ==> q(o)) && StackSum(k, IdIs(id)) == 0
    ensures AllStack(k, q)
  {
    match k {
      case Idle =>
      case Push(Matching(a), below) =>
        StackBut(below, id, p, q);
      case Push(Evaluating(_, w), below) =>
        SumZero(w, id);
        StackBut(below, id, p, q);
    }
  }

  lemma StateBut(st: State, id: OrderId, p: Order -> bool, q: Order -> bool)
    requires AllState(st, p) && (forall o: Order :: p(o) && o.id != id ==> q(o)) && StateSum(st, IdIs(id)) == 0
    ensures AllState(st, q)
  {
    SumZero(st.bids, id);
    SumZero(st.asks, id);
    SumZero(st.stops, id);
  }

  lemma {:induction false} StackWeaker(k: Stack, p: Order -> bool, q: Order -> bool)
    requires AllStack(k, p) && forall o: Order :: p(o) ==> q(o)
    ensures AllStack(k, q)
  {
    match k {
      case Idle =>
      case Push(_, below) =>
        StackWeaker(below, p, q);
    }
  }

  /** Fewer tombstones are no harm. */
  lemma ClearFewer(c: Config, graves: iset<Grave>, graves': iset<Grave>)
    requires Every(c, Clear(graves)) && graves' <= graves
    ensures Every(c, Clear(graves'))
  {
    StackWeaker(c.stack, Clear(graves), Clear(graves'));
  }

  /** Nor are more of an id that is open nowhere. */
  lemma ClearGone(c: Config, id: OrderId, graves: iset<Grave>, graves': iset<Grave>)
    requires Every(c, Clear(graves)) && Total(c, IdIs(id)) == 0
    requires forall g :: g in graves' ==> g in graves || g.id == id
    ensures Every(c, Clear(graves'))
  {
    StackBut(c.stack, id, Clear(graves), Clear(graves'));
    StateBut(c.st, id, Clear(graves), Clear(graves'));
  }

  lemma StateClearGone(st: State, id: OrderId, graves: iset<Grave>, graves': iset<Grave>)
    requires AllState(st, Clear(graves)) && StateSum(st, IdIs(id)) == 0
    requires forall g :: g in graves' ==> g in graves || g.id == id
    ensures AllState(st, Clear(graves'))
  {
    StateBut(st, id, Clear(graves), Clear(graves'));
  }

  // ---- visited places ---------------------------------------------------------

  /** Where an order is bound for: its level, and for a stop also the price it has
      once fired. */
  ghost function PlacesOf(o: Order): iset<Grave> {
    iset{GraveOf(o)} + if o.kind.Stop? then iset{Grave(o.side, 0, o.id)} else iset{}
  }

  /** Where the event brings an order. */
  ghost function PlacesOfEvent(st: State, e: Event): iset<Grave> {
    match e
    case NewOrder(o) => PlacesOf(o)
    case CancelOrder(_, _) => iset{}
    case ModifyOrder(id, price, quantity, timestamp) =>
      if Evicts(st, e) then PlacesOf(Modified(Lookup(st, id).value, price, quantity, timestamp)) else iset{}
    case ReplaceOrder(_, o) => if Evicts(st, e) then PlacesOf(o) else iset{}
  }

  /** Is the order the oldest of its level? */
  predicate IsFirst(st: State, o: Order) {
    var queue := IdsAt(OnSide(st, o.side), o.price);
    queue != [] && queue[0] == o.id
  }

  /** The order `m`, which comes for `was`, is bound for no visited place, unless for
      the one that `was` leaves from the front. */
  ghost predicate NoReturnOf(st: State, visited: iset<Grave>, was: Order, m: Order) {
    PlacesOf(m) !! (if IsFirst(st, was) then visited - iset{GraveOf(was)} else visited)
  }

  /** The event brings no id to a level of a side where that id was before, except by
      putting the oldest order of a level back onto it. */
  ghost predicate NoReturn(st: State, visited: iset<Grave>, e: Event) {
    match e
    case NewOrder(o) => PlacesOf(o) !! visited
    case CancelOrder(_, _) => true
    case ModifyOrder(id, price, quantity, timestamp) =>
      Evicts(st, e) ==>
        NoReturnOf(st, visited, Lookup(st, id).value, Modified(Lookup(st, id).value, price, quantity, timestamp))
    case ReplaceOrder(id, o) =>
      Evicts(st, e) ==> NoReturnOf(st, visited, Lookup(st, id).value, o)
  }

  lemma ClearIff(o: Order, graves: iset<Grave>)
    ensures Clear(graves)(o) <==> PlacesOf(o) !! graves
    ensures NotedIn(graves)(o) <==> PlacesOf(o) <= graves
  {
  }

  /** Orders that the event brings along are noted, the others still are. */
  lemma LaunchNoted(st: State, o: Order, visited: iset<Grave>)
    requires Admissible(o) && AllState(st, NotedIn(visited)) && PlacesOf(o) <= visited
    ensures Every(Launch(Config(st, Idle, EMPTY_RESULT), o), NotedIn(visited))
  {
    NotedClosed(visited);
    assert NotedIn(visited)(Entering(o));
    LaunchEvery(Config(st, Idle, EMPTY_RESULT), o, NotedIn(visited));
  }

  lemma WithdrawNoted(st: State, id: OrderId, visited: iset<Grave>)
    requires AllState(st, NotedIn(visited))
    ensures AllState(Withdraw(st, id), NotedIn(visited))
    ensures Lookup(st, id).Some? ==> GraveOf(Lookup(st, id).value) in visited
  {
    RemoveSubset(st.bids, id);
    RemoveSubset(st.asks, id);
  }

  lemma UnlaunchedNoted(st: State, e: Event, visited: iset<Grave>)
    requires AdmissibleEvent(e) && (e.CancelOrder? || e.ModifyOrder?)
    requires AllState(st, NotedIn(visited)) && PlacesOfEvent(st, e) <= visited
    ensures AllState(Submit(st, e).0, NotedIn(visited))
  {
    WithdrawNoted(st, Subject(e), visited);
    RemoveSubset(st.stops, Subject(e));
    if e.ModifyOrder? && Lookup(st, e.orderId).Some? {
      var o := Lookup(st, e.orderId).value;
      if Evicts(st, e) {
        var m := Modified(o, e.newPrice, e.newQuantity, e.timestamp);
        ClearIff(m, visited);
        InsertMembers(m.side, OnSide(Withdraw(st, e.orderId), m.side), m);
      } else {
        assert NotedIn(visited)(WithQuantity(o, e.newQuantity));
        UpdateSubset(OnSide(st, o.side), o.(quantity := e.newQuantity));
      }
    }
  }

  lemma NotedMore(st: State, visited: iset<Grave>, visited': iset<Grave>)
    requires AllState(st, NotedIn(visited)) && visited <= visited'
    ensures AllState(st, NotedIn(visited'))
  {
  }

  // ---- events -----------------------------------------------------------------

  lemma LaunchClear(st: State, o: Order, graves: iset<Grave>)
    requires Admissible(o) && AllState(st, Clear(graves)) && Clear(graves)(o)
    ensures Every(Launch(Config(st, Idle, EMPTY_RESULT), o), Clear(graves))
  {
    ClearClosed(graves);
    assert Clear(graves)(Entering(o));
    LaunchEvery(Config(st, Idle, EMPTY_RESULT), o, Clear(graves));
  }

  /** A withdrawn order leaves a clear state, whatever tombstone it leaves. */
  lemma WithdrawClear(st: State, id: OrderId, graves: iset<Grave>, graves': iset<Grave>)
    requires UniqueIds(st) && AllState(st, Clear(graves)) && Lookup(st, id).Some?
    requires forall g :: g in graves' ==> g in graves || g.id == id
    ensures AllState(Withdraw(st, id), Clear(graves'))
  {
    hide StateSum;
    RemoveSubset(st.bids, id);
    RemoveSubset(st.asks, id);
    WithdrawGone(st, id);
    StateClearGone(Withdraw(st, id), id, graves, graves');
  }

  lemma PlaceClear(st: State, o: Order, graves: iset<Grave>)
    requires AllState(st, Clear(graves)) && Clear(graves)(o)
    ensures AllState(Place(st, o), Clear(graves))
  {
    InsertMembers(o.side, OnSide(st, o.side), o);
  }

  lemma ClearOfFewer(o: Order, graves: iset<Grave>, graves': iset<Grave>)
    requires Clear(graves)(o) && graves' <= graves
    ensures Clear(graves')(o)
  {
  }

  lemma IdleEvery(st: State, out: MatchResult, p: Order -> bool)
    ensures Every(Config(st, Idle, out), p) <==> AllState(st, p)
  {
  }

  lemma StateClearFewer(st: State, graves: iset<Grave>, graves': iset<Grave>)
    requires AllState(st, Clear(graves)) && graves' <= graves
    ensures AllState(st, Clear(graves'))
  {
  }

  /** A cancel keeps the state clear. */
  lemma CancelClear(st: State, e: Event, graves: iset<Grave>, graves': iset<Grave>)
    requires e.CancelOrder? && UniqueIds(st) && AllState(st, Clear(graves))
    requires forall g :: g in graves' ==> g in graves || (Evicts(st, e) && g.id == e.orderId)
    ensures AllState(Submit(st, e).0, Clear(graves'))
  {
    hide Clear, UniqueIds;
    if Evicts(st, e) {
      WithdrawClear(st, e.orderId, graves, graves');
    } else {
      RemoveSubset(st.stops, e.orderId);
      StateClearFewer(Submit(st, e).0, graves, graves');
    }
  }

  /** A modify keeps the state clear, unless it puts the order back onto a level with
      a tombstone of its id. */
  lemma ModifyClear(st: State, e: Event, graves: iset<Grave>, left: iset<Grave>, graves': iset<Grave>)
    requires e.ModifyOrder? && UniqueIds(st) && AllState(st, Clear(graves))
    requires graves' <= if Evicts(st, e) then left else graves
    requires forall g :: g in left ==> g in graves || g.id == e.orderId
    requires Evicts(st, e) ==>
               Clear(left)(Modified(Lookup(st, e.orderId).value, e.newPrice, e.newQuantity, e.timestamp))
    ensures AllState(Submit(st, e).0, Clear(graves'))
  {
    hide Clear, UniqueIds, Place;
    if Evicts(st, e) {
      var m := Modified(Lookup(st, e.orderId).value, e.newPrice, e.newQuantity, e.timestamp);
      WithdrawClear(st, e.orderId, graves, graves');
      ClearOfFewer(m, left, graves');
      PlaceClear(Withdraw(st, e.orderId), m, graves');
    } else {
      ReducedClear(st, e, graves);
      StateClearFewer(Submit(st, e).0, graves, graves');
    }
  }

  /** A quantity reduction changes no id, side or price. */
  lemma ReducedClear(st: State, e: Event, graves: iset<Grave>)
    requires e.ModifyOrder? && !Evicts(st, e) && AllState(st, Clear(graves))
    ensures AllState(Submit(st, e).0, Clear(graves))
  {
    if Lookup(st, e.orderId).Some? {
      var o := Lookup(st, e.orderId).value;
      assert Clear(graves)(WithQuantity(o, e.newQuantity));
      UpdateSubset(OnSide(st, o.side), o.(quantity := e.newQuantity));
    }
  }
}
