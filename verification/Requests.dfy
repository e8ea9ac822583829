/** What becomes of a cancel, a modify and a replace, place by place. */
module Requests {
  import opened Orders
  import opened Ladder
  import opened Matcher
  import opened Census
  import opened NoCrossing
  import opened Runs

  // ---- where the order is -----------------------------------------------------

  /** The list without its k-th order. */
  function Without(s: seq<Order>, k: nat): seq<Order>
    requires k < |s|
  {
    s[..k] + s[k + 1..]
  }

  /** Only this side has changed, and it is now `s`. */
  ghost predicate SideBecomes(st: State, st': State, side: Side, s: seq<Order>) {
    && OnSide(st', side) == s && OnSide(st', Opp(side)) == OnSide(st, Opp(side))
    && st'.stops == st.stops && st'.last == st.last
  }

  lemma {:induction false} OnlyAt(s: seq<Order>, k: nat)
    requires k < |s| && Sum(s, IdIs(s[k].id)) <= 1
    ensures forall j :: 0 <= j < |s| && j != k ==> s[j].id != s[k].id
  {
    if k > 0 {
      assert s[1..][k - 1] == s[k];
      SumZero(s[1..], s[k].id);
      OnlyAt(s[1..], k - 1);
      forall j | 0 <= j < |s| && j != k ensures s[j].id != s[k].id {
        assert j > 0 ==> s[1..][j - 1] == s[j];
      }
    } else {
      SumZero(s[1..], s[0].id);
      forall j | 0 < j < |s| ensures s[j].id != s[0].id {
        assert s[1..][j - 1] == s[j];
      }
    }
  }

  /** An order of a side is found there, nowhere else, and withdrawn from its place. */
  lemma FoundAt(st: State, side: Side, k: nat)
    requires UniqueIds(st) && k < |OnSide(st, side)|
    ensures var s := OnSide(st, side); var o := s[k];
      && Find(st.stops, o.id).None? && Lookup(st, o.id) == Some(o)
      && SideBecomes(st, Withdraw(st, o.id), side, Without(s, k))
  {
    var s := OnSide(st, side);
    var o := s[k];
    assert o in s;
    assert StateSum(st, IdIs(o.id)) <= 1;
    SumZero(s, o.id);
    SumZero(OnSide(st, Opp(side)), o.id);
    SumZero(st.stops, o.id);
    OnlyAt(s, k);
    FindAt(s, o.id, k);
    RemoveAbsent(OnSide(st, Opp(side)), o.id);
  }

  lemma FoundNowhere(st: State, id: OrderId)
    requires forall o :: o in st.bids || o in st.asks ==> o.id != id
    ensures Lookup(st, id).None?
  {
  }

  // ---- cancel -----------------------------------------------------------------

  /** A pending stop is taken off the pending ones, and its cancel is reported. */
  lemma CancelOfStop(st: State, k: nat, timestamp: Timestamp)
    requires UniqueIds(st) && k < |st.stops|
    ensures var stop := st.stops[k];
      Submit(st, CancelOrder(stop.id, timestamp)) ==
      (st.(stops := Without(st.stops, k)),
       MatchResult([], [Report(stop.id, OrderStatus.Cancelled, stop.quantity, timestamp)], []))
  {
    var stop := st.stops[k];
    assert StateSum(st, IdIs(stop.id)) <= 1;
    OnlyAt(st.stops, k);
    FindAt(st.stops, stop.id, k);
  }

  /** A resting order is taken off the book and its cancel is reported; one that is on
      the book with another status is left there, and the cancel is rejected. */
  lemma CancelOfResting(st: State, side: Side, k: nat, timestamp: Timestamp)
    requires UniqueIds(st) && k < |OnSide(st, side)|
    ensures var o := OnSide(st, side)[k];
      var (st', r) := Submit(st, CancelOrder(o.id, timestamp));
      if o.status.Resting? || o.status.PartialFill? then
        && SideBecomes(st, st', side, Without(OnSide(st, side), k))
        && r == MatchResult([], [Report(o.id, OrderStatus.Cancelled, o.quantity, timestamp)], [])
      else st' == st && r == MatchResult([], [], [Rejection(o.id, OrderNotCancellable, timestamp)])
  {
    FoundAt(st, side, k);
  }

  /** A cancel of an id that is neither pending nor on the book is rejected. */
  lemma CancelOfUnknown(st: State, id: OrderId, timestamp: Timestamp)
    requires forall o :: o in st.bids || o in st.asks || o in st.stops ==> o.id != id
    ensures Submit(st, CancelOrder(id, timestamp)) ==
            (st, MatchResult([], [], [Rejection(id, OrderNotFound, timestamp)]))
  {
    FoundNowhere(st, id);
  }

  // ---- modify -----------------------------------------------------------------

  /** The list `s` is `r` with the order in the place its price gives it: nothing
      before it has a worse price, and everything behind it has. */
  ghost predicate Joins(r: seq<Order>, s: seq<Order>, m: Order) {
    exists j ::
      && 0 <= j <= |r| && s == r[..j] + [m] + r[j..]
      && (forall i :: 0 <= i < j ==> if m.side.Buy? then r[i].price >= m.price else r[i].price <= m.price)
      && (forall i :: j <= i < |r| ==> if m.side.Buy? then r[i].price < m.price else r[i].price > m.price)
  }

  lemma InsertJoins(r: seq<Order>, m: Order)
    requires Sorted(m.side, r)
    ensures Joins(r, Insert(m.side, r, m), m)
  {
    var j := JoiningPlace(r, m);
  }

  lemma {:induction false} JoiningPlace(r: seq<Order>, m: Order) returns (j: nat)
    requires Sorted(m.side, r)
    ensures j <= |r| && Insert(m.side, r, m) == r[..j] + [m] + r[j..]
    ensures forall i :: 0 <= i < j ==> if m.side.Buy? then r[i].price >= m.price else r[i].price <= m.price
    ensures forall i :: j <= i < |r| ==> if m.side.Buy? then r[i].price < m.price else r[i].price > m.price
  {
    if r == [] || Better(m.side, m.price, r[0].price) {
      j := 0;
      assert [m] + r == r[..0] + [m] + r[0..];
    } else {
      SortedTail(m.side, r);
      var t := r[1..];
      j := JoiningPlace(t, m);
      assert [r[0]] + (t[..j] + [m] + t[j..]) == r[..j + 1] + [m] + r[j + 1..];
      assert forall i :: 0 < i < |r| ==> r[i] == t[i - 1];
      j := j + 1;
    }
  }

  /** The whole effect of a modify of an order on the book. Without a status that
      allows it, it is rejected. With a new price or more quantity, the order goes
      behind everything of its price. Otherwise it keeps its place, and nothing but
      its quantity changes, if any is given. */
  lemma ModifyOfResting(st: State, side: Side, k: nat, newPrice: Price, newQuantity: Quantity, timestamp: Timestamp)
    requires UniqueIds(st) && Sided(st) && Ordered(st) && k < |OnSide(st, side)|
    ensures var s := OnSide(st, side);
      var o := s[k];
      var (st', r) := Submit(st, ModifyOrder(o.id, newPrice, newQuantity, timestamp));
      if !(o.status.Resting? || o.status.PartialFill?) then
        st' == st && r == MatchResult([], [], [Rejection(o.id, OrderNotCancellable, 0)])
      else if (newPrice != 0 && newPrice != o.price) || newQuantity > o.quantity then
        && r == EMPTY_RESULT && SideBecomes(st, st', side, OnSide(st', side))
        && var m := o.(price := if newPrice != 0 then newPrice else o.price,
                       quantity := if newQuantity != 0 then newQuantity else o.quantity, timestamp := timestamp);
           Joins(Without(s, k), OnSide(st', side), m)
      else
        && r == EMPTY_RESULT
        && SideBecomes(st, st', side, s[k := o.(quantity := if newQuantity != 0 then newQuantity else o.quantity)])
  {
    hide UniqueIds, Place, Withdraw, Ladder.Update, Find, Lookup, Joins, Sorted;
    var s := OnSide(st, side);
    var o := s[k];
    assert o in s;
    FoundAt(st, side, k);
    if !o.IsResting() {
    } else if Requeues(o, newPrice, newQuantity) {
      MovesTo(st, side, k, Modified(o, newPrice, newQuantity, timestamp));
    } else {
      OnlyHere(st, side, k);
      UpdateAt(s, k, o.(quantity := newQuantity));
    }
  }

  lemma MovesTo(st: State, side: Side, k: nat, m: Order)
    requires UniqueIds(st) && Ordered(st) && k < |OnSide(st, side)| && m.side == side
    ensures var s := OnSide(st, side);
      var st' := Place(Withdraw(st, s[k].id), m);
      SideBecomes(st, st', side, OnSide(st', side)) && Joins(Without(s, k), OnSide(st', side), m)
  {
    hide UniqueIds, Insert, Ladder.Remove, Joins;
    var s := OnSide(st, side);
    FoundAt(st, side, k);
    RemoveSorted(side, s, s[k].id);
    InsertJoins(Without(s, k), m);
  }

  lemma OnlyHere(st: State, side: Side, k: nat)
    requires UniqueIds(st) && k < |OnSide(st, side)|
    ensures var s := OnSide(st, side); forall j :: 0 <= j < |s| && j != k ==> s[j].id != s[k].id
  {
    assert StateSum(st, IdIs(OnSide(st, side)[k].id)) <= 1;
    OnlyAt(OnSide(st, side), k);
  }

  lemma {:induction false} UpdateAt(s: seq<Order>, k: nat, o: Order)
    requires k < |s| && s[k].id == o.id && forall j :: 0 <= j < |s| && j != k ==> s[j].id != o.id
    ensures Update(s, o) == s[k := o]
  {
    if k > 0 {
      assert forall j :: 0 < j < |s| ==> s[1..][j - 1] == s[j];
      UpdateAt(s[1..], k - 1, o);
      assert [s[0]] + s[1..][k - 1 := o] == s[k := o];
    }
  }

  /** A modify of an id that is not on the book is rejected, a pending stop's too. */
  lemma ModifyOfUnknown(st: State, id: OrderId, newPrice: Price, newQuantity: Quantity, timestamp: Timestamp)
    requires forall o :: o in st.bids || o in st.asks ==> o.id != id
    ensures Submit(st, ModifyOrder(id, newPrice, newQuantity, timestamp)) ==
            (st, MatchResult([], [], [Rejection(id, OrderNotFound, 0)]))
  {
    FoundNowhere(st, id);
  }

  // ---- replace ----------------------------------------------------------------

  /** A replace of an order on the book, whatever its status, takes it off, without a
      report, and then does what the new order does by itself. */
  lemma ReplaceOfResting(st: State, side: Side, k: nat, o: Order)
    requires UniqueIds(st) && k < |OnSide(st, side)| && Admissible(o)
    ensures var was := OnSide(st, side)[k];
      exists st1 ::
        && SideBecomes(st, st1, side, Without(OnSide(st, side), k))
        && Submit(st, ReplaceOrder(was.id, o)) == Submit(st1, NewOrder(o))
  {
    FoundAt(st, side, k);
    assert SideBecomes(st, Withdraw(st, OnSide(st, side)[k].id), side, Without(OnSide(st, side), k));
  }

  /** A replace of an id that is not on the book is rejected, and the new order is
      not entered. */
  lemma ReplaceOfUnknown(st: State, id: OrderId, o: Order)
    requires Admissible(o) && forall x :: x in st.bids || x in st.asks ==> x.id != id
    ensures Submit(st, ReplaceOrder(id, o)) == (st, MatchResult([], [], [Rejection(id, OrderNotFound, 0)]))
  {
    FoundNowhere(st, id);
  }
}
