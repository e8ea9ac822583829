/** The account of every id over whole runs of events. */
module Accounts {
  import opened Orders
  import opened Ladder
  import opened Matcher
  import opened Census
  import opened Everywhere
  import opened NoCrossing
  import opened Conservation
  import opened Runs

  /** The order a cancel of this id is about. */
  function Cancelled(st: State, e: Event): Option<Order>
    requires e.CancelOrder?
  {
    if Find(st.stops, e.orderId).Some? then Find(st.stops, e.orderId)
    else if Evicts(st, e) then Lookup(st, e.orderId)
    else None
  }

  /** The order a modify changes, and its quantity afterwards. */
  function Changed(st: State, e: Event): Option<(Order, Quantity)>
    requires e.ModifyOrder?
  {
    match Lookup(st, e.orderId)
    case Some(o) => if o.IsResting() && e.newQuantity != 0 then Some((o, e.newQuantity)) else None
    case None => None
  }

  /** What the event brings under the id: a new order, or more of an old one. */
  function Brought(st: State, e: Event, id: OrderId): nat {
    match e
    case NewOrder(o) => if o.id == id then o.quantity else 0
    case CancelOrder(_, _) => 0
    case ModifyOrder(i, _, _, _) =>
      if i == id && Changed(st, e).Some? then Minus(Changed(st, e).value.1, Changed(st, e).value.0.quantity) else 0
    case ReplaceOrder(i, o) => if o.id == id && Lookup(st, i).Some? then o.quantity else 0
  }

  /** What is open under the id and given up on request. */
  function Withdrawn(st: State, e: Event, id: OrderId): nat {
    match e
    case NewOrder(_) => 0
    case CancelOrder(i, _) => if i == id && Cancelled(st, e).Some? then Cancelled(st, e).value.OpenQty() else 0
    case ModifyOrder(i, _, _, _) =>
      if i == id && Changed(st, e).Some? then Minus(Changed(st, e).value.0.quantity, Changed(st, e).value.1) else 0
    case ReplaceOrder(i, _) => if i == id && Lookup(st, i).Some? then Lookup(st, i).value.OpenQty() else 0
  }

  /** What the event's cascade discards of the id. */
  ghost function Lost(st: State, e: Event, id: OrderId): nat
    requires AdmissibleEvent(e)
  {
    match e
    case NewOrder(o) => Residual(st, o, WithId(id))
    case ReplaceOrder(i, o) => if Lookup(st, i).Some? then Residual(Withdraw(st, i), o, WithId(id)) else 0
    case _ => 0
  }

  // ---- one event --------------------------------------------------------------

  /** What is open under an id once the one order of another id, or of this one, has
      left the book. */
  lemma OpenWithout(st: State, i: OrderId, id: OrderId)
    requires UniqueIds(st) && Lookup(st, i).Some?
    ensures var taken := if i == id then Lookup(st, i).value.OpenQty() else 0;
      StateSum(Withdraw(st, i), Open(WithId(id))) + taken == StateSum(st, Open(WithId(id)))
  {
    hide UniqueIds, Sum, Find, Ladder.Remove;
    var f := Open(WithId(id));
    if i == id {
      FoundId(st, i);
      StateOfOne(st, i, f);
    } else {
      SumOfOthers(st.bids, i, f);
      SumOfOthers(st.asks, i, f);
    }
  }

  lemma FoundId(st: State, id: OrderId)
    ensures Lookup(st, id).Some? ==> Lookup(st, id).value.id == id
    ensures Find(st.stops, id).Some? ==> Find(st.stops, id).value.id == id
  {
    FindId(st.bids, id);
    FindId(st.asks, id);
    FindId(st.stops, id);
  }

  lemma {:induction false} FindId(s: seq<Order>, id: OrderId)
    ensures Find(s, id).Some? ==> Find(s, id).value.id == id && Find(s, id).value in s
  {
    if s != [] && s[0].id != id {
      FindId(s[1..], id);
    }
  }

  lemma CancelBalances(st: State, e: Event, id: OrderId)
    requires e.CancelOrder? && UniqueIds(st)
    ensures var (st', r) := Submit(st, e);
      r.trades == [] && StateSum(st', Open(WithId(id))) + Withdrawn(st, e, id) == StateSum(st, Open(WithId(id)))
  {
    hide UniqueIds, Sum, Find, Ladder.Remove, StateSum;
    var i := e.orderId;
    FoundId(st, i);
    if Find(st.stops, i).Some? {
      StopOpenWithout(st, i, id);
    } else if Lookup(st, i).Some? {
      OpenWithout(st, i, id);
    }
  }

  lemma StopOpenWithout(st: State, i: OrderId, id: OrderId)
    requires UniqueIds(st) && Find(st.stops, i).Some?
    ensures var taken := if i == id then Find(st.stops, i).value.OpenQty() else 0;
      StateSum(st.(stops := Remove(st.stops, i)), Open(WithId(id))) + taken == StateSum(st, Open(WithId(id)))
  {
    hide UniqueIds, Sum, Find, Ladder.Remove;
    var f := Open(WithId(id));
    FoundId(st, i);
    if i == id {
      StateOfOne(st, i, f);
    } else {
      SumOfOthers(st.stops, i, f);
    }
  }

  lemma PlaceOpen(st: State, o: Order, sel: Order -> bool)
    ensures StateSum(Place(st, o), Open(sel)) == StateSum(st, Open(sel)) + (if sel(o) then o.OpenQty() else 0)
  {
    SumInsert(o.side, OnSide(st, o.side), o, Open(sel));
  }

  /** An order that keeps its place changes the sum by its own change. */
  lemma {:induction false} SumAmended(s: seq<Order>, o: Order, was: Order, f: Order -> nat)
    requires Find(s, o.id) == Some(was)
    ensures Sum(Update(s, o), f) + f(was) == Sum(s, f) + f(o)
  {
    if s[0].id != o.id {
      SumAmended(s[1..], o, was, f);
      assert ([s[0]] + Update(s[1..], o))[1..] == Update(s[1..], o);
    } else {
      assert ([o] + s[1..])[1..] == s[1..];
    }
  }

  lemma ReduceOpen(st: State, o: Order, newQuantity: Quantity, id: OrderId)
    requires Sided(st) && Lookup(st, o.id) == Some(o) && newQuantity < o.quantity
    ensures var m := o.(quantity := newQuantity);
      StateSum(WithSide(st, o.side, Update(OnSide(st, o.side), m)), Open(WithId(id)))
      + (if o.id == id then o.quantity - newQuantity else 0) == StateSum(st, Open(WithId(id)))
  {
    hide Sum, Find, Ladder.Update;
    FindId(st.bids, o.id);
    FindId(st.asks, o.id);
    var m, f := o.(quantity := newQuantity), Open(WithId(id));
    assert Find(OnSide(st, o.side), m.id) == Some(o);
    SumAmended(OnSide(st, o.side), m, o, f);
    assert f(o) == (if o.id == id then o.OpenQty() else 0) && f(m) == if o.id == id then m.OpenQty() else 0;
  }

  lemma ModifyBalances(st: State, e: Event, id: OrderId)
    requires e.ModifyOrder? && UniqueIds(st) && Sided(st)
    ensures var (st', r) := Submit(st, e);
      && r.trades == []
      && StateSum(st', Open(WithId(id))) + Withdrawn(st, e, id) == StateSum(st, Open(WithId(id))) + Brought(st, e, id)
  {
    hide UniqueIds, Sum, Find, Ladder.Remove, Ladder.Update;
    var i := e.orderId;
    if Lookup(st, i).Some? && Lookup(st, i).value.IsResting() {
      var o := Lookup(st, i).value;
      FoundId(st, i);
      if Requeues(o, e.newPrice, e.newQuantity) {
        OpenWithout(st, i, id);
        PlaceOpen(Withdraw(st, i), Modified(o, e.newPrice, e.newQuantity, e.timestamp), WithId(id));
      } else if e.newQuantity != 0 && e.newQuantity < o.quantity {
        ReduceOpen(st, o, e.newQuantity, id);
      }
    }
  }

  lemma ReplaceBalances(st: State, e: Event, id: OrderId)
    requires e.ReplaceOrder? && AdmissibleEvent(e) && UniqueIds(st) && AllState(st, SOUND) && Brings(e, SOUND)
    ensures var (st', r) := Submit(st, e);
      StateSum(st', Open(WithId(id))) + Conservation.Filled(r.trades, id) + Lost(st, e, id) + Withdrawn(st, e, id)
      == StateSum(st, Open(WithId(id))) + Brought(st, e, id)
  {
    hide UniqueIds, StateSum, Lookup, Residual, Enter, Withdraw, AllState, SoundOrder, Open;
    if Lookup(st, e.oldOrderId).Some? {
      OpenWithout(st, e.oldOrderId, id);
      WithdrawSound(st, e.oldOrderId);
      EnterConservesOrder(Withdraw(st, e.oldOrderId), e.newOrder, id);
    }
  }

  lemma WithdrawSound(st: State, id: OrderId)
    requires AllState(st, SOUND)
    ensures AllState(Withdraw(st, id), SOUND)
  {
    RemoveSubset(st.bids, id);
    RemoveSubset(st.asks, id);
  }

  /** What is open under an id after an event, traded in it, discarded by it and given
      up on request is what was open before and what the event brought. */
  lemma SubmitBalances(st: State, e: Event, id: OrderId)
    requires AdmissibleEvent(e) && UniqueIds(st) && Sided(st) && AllState(st, SOUND) && Brings(e, SOUND)
    ensures var (st', r) := Submit(st, e);
      StateSum(st', Open(WithId(id))) + Conservation.Filled(r.trades, id) + Lost(st, e, id) + Withdrawn(st, e, id)
      == StateSum(st, Open(WithId(id))) + Brought(st, e, id)
  {
    match e {
      case NewOrder(o) =>
        EnterConservesOrder(st, o, id);
      case CancelOrder(_, _) =>
        CancelBalances(st, e, id);
      case ModifyOrder(_, _, _, _) =>
        ModifyBalances(st, e, id);
      case ReplaceOrder(_, _) =>
        ReplaceBalances(st, e, id);
    }
  }

  // ---- whole runs -------------------------------------------------------------

  /** The account of an id over a run. */
  datatype Account = Account(brought: nat, traded: nat, withdrawn: nat, lost: nat)

  ghost function AccountOf(st: State, es: seq<Event>, id: OrderId): Account
    requires WellFormedRun(st, es)
    decreases |es|
  {
    if es == [] then Account(0, 0, 0, 0)
    else
      var (st1, r) := Submit(st, es[0]);
      var rest := AccountOf(st1, es[1..], id);
      Account(Brought(st, es[0], id) + rest.brought, Conservation.Filled(r.trades, id) + rest.traded,
              Withdrawn(st, es[0], id) + rest.withdrawn, Lost(st, es[0], id) + rest.lost)
  }

  ghost predicate BringsSound(es: seq<Event>) {
    forall e :: e in es && AdmissibleEvent(e) ==> Brings(e, SOUND)
  }

  /** Over any run of events: what an id had open and what was brought under it is
      what it traded, what was withdrawn of it, what was discarded, and what is still
      open. */
  lemma {:induction false} PlayBalances(st: State, es: seq<Event>, id: OrderId)
    requires Good(st) && AllState(st, SOUND) && WellFormedRun(st, es) && BringsSound(es)
    ensures forall e :: e in es ==> AdmissibleEvent(e)
    ensures AllState(Play(st, es).0, SOUND)
    ensures var account := AccountOf(st, es, id);
      StateSum(st, Open(WithId(id))) + account.brought
      == account.traded + account.withdrawn + account.lost + StateSum(Play(st, es).0, Open(WithId(id)))
    decreases |es|
  {
    hide UniqueIds, Sided, Ordered, AllState, StateSum, Submit, Open, Conservation.Filled, WellFormed, Brought,
         Withdrawn, Lost, Brings;
    RunAdmissible(st, es);
    if es != [] {
      SoundClosed();
      assert Brings(es[0], SOUND);
      SubmitKeepsGood(st, es[0]);
      SubmitEvery(st, es[0], SOUND);
      SubmitBalances(st, es[0], id);
      PlayBalances(Submit(st, es[0]).0, es[1..], id);
    }
  }
}
