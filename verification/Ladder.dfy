/** One side of an eager book: the resting orders in price-time priority, best
    price first and oldest first within a price. */
module Ladder {
  import opened Orders

  predicate Better(side: Side, p: Price, q: Price) {
    if side.Buy? then p > q else p < q
  }

  ghost predicate Sorted(side: Side, s: seq<Order>) {
    forall i, j :: 0 <= i < j < |s| ==> !Better(side, s[j].price, s[i].price)
  }

  ghost predicate Distinct(s: seq<Order>) {
    forall i, j :: 0 <= i < j < |s| ==> s[i].id != s[j].id
  }

  /** Joins the queue behind every order of an equal or better price. */
  function Insert(side: Side, s: seq<Order>, o: Order): (r: seq<Order>)
    ensures |r| == |s| + 1
  {
    if s == [] || Better(side, o.price, s[0].price) then [o] + s
    else [s[0]] + Insert(side, s[1..], o)
  }

  /** Drops the first order with this id, if there is one. */
  function Remove(s: seq<Order>, id: OrderId): seq<Order> {
    if s == [] then []
    else if s[0].id == id then s[1..]
    else [s[0]] + Remove(s[1..], id)
  }

  /** Overwrites the order that has o's id, keeping its place. */
  function Update(s: seq<Order>, o: Order): (r: seq<Order>)
    ensures |r| == |s|
  {
    if s == [] then []
    else if s[0].id == o.id then [o] + s[1..]
    else [s[0]] + Update(s[1..], o)
  }

  function Find(s: seq<Order>, id: OrderId): (r: Option<Order>)
    ensures r.Some? ==> r.value in s && r.value.id == id
    ensures r.None? ==> forall o :: o in s ==> o.id != id
  {
    if s == [] then None
    else if s[0].id == id then Some(s[0])
    else Find(s[1..], id)
  }

  /** The queue of ids resting at one price. */
  function IdsAt(s: seq<Order>, p: Price): seq<OrderId> {
    if s == [] then []
    else if s[0].price == p then [s[0].id] + IdsAt(s[1..], p)
    else IdsAt(s[1..], p)
  }

  function RemoveId(ids: seq<OrderId>, id: OrderId): seq<OrderId> {
    if ids == [] then []
    else if ids[0] == id then ids[1..]
    else [ids[0]] + RemoveId(ids[1..], id)
  }

  /** The sum of a measure over all orders of a list. */
  function Sum(s: seq<Order>, f: Order -> nat): nat {
    if s == [] then 0 else f(s[0]) + Sum(s[1..], f)
  }

  // ---- membership -----------------------------------------------------------

  lemma {:induction false} InsertMembers(side: Side, s: seq<Order>, o: Order)
    ensures forall x :: x in Insert(side, s, o) <==> x == o || x in s
  {
    if s != [] && !Better(side, o.price, s[0].price) {
      InsertMembers(side, s[1..], o);
      assert s == [s[0]] + s[1..];
    }
  }

  lemma {:induction false} RemoveMembers(s: seq<Order>, id: OrderId)
    requires Distinct(s)
    ensures forall x :: x in Remove(s, id) <==> x in s && x.id != id
  {
    if s != [] {
      assert s == [s[0]] + s[1..];
      if s[0].id == id {
        assert forall x :: x in s[1..] ==> exists k :: 0 < k < |s| && s[k] == x;
      } else {
        RemoveMembers(s[1..], id);
      }
    }
  }

  lemma {:induction false} UpdateMembers(s: seq<Order>, o: Order)
    requires Distinct(s)
    requires exists x :: x in s && x.id == o.id
    ensures forall x :: x in Update(s, o) <==> x == o || (x in s && x.id != o.id)
  {
    assert s == [s[0]] + s[1..];
    if s[0].id == o.id {
      assert forall x :: x in s[1..] ==> exists k :: 0 < k < |s| && s[k] == x;
    } else {
      UpdateMembers(s[1..], o);
    }
  }

  lemma {:induction false} UpdateAbsent(s: seq<Order>, o: Order)
    requires forall x :: x in s ==> x.id != o.id
    ensures Update(s, o) == s
  {
    if s != [] {
      UpdateAbsent(s[1..], o);
    }
  }

  lemma {:induction false} RemoveAbsent(s: seq<Order>, id: OrderId)
    requires forall x :: x in s ==> x.id != id
    ensures Remove(s, id) == s
  {
    if s != [] {
      RemoveAbsent(s[1..], id);
    }
  }

  lemma {:induction false} FindAt(s: seq<Order>, id: OrderId, k: nat)
    requires k < |s| && s[k].id == id && forall j :: 0 <= j < k ==> s[j].id != id
    ensures Find(s, id) == Some(s[k]) && Remove(s, id) == s[..k] + s[k + 1..]
  {
    if k > 0 {
      var t := s[1..];
      assert t[k - 1] == s[k] && forall j :: 0 <= j < k - 1 ==> t[j] == s[j + 1];
      FindAt(t, id, k - 1);
      assert t[..k - 1] == s[1..k];
      assert t[k..] == s[k + 1..];
      assert [s[0]] + (s[1..k] + s[k + 1..]) == s[..k] + s[k + 1..];
    }
  }

  // ---- order ----------------------------------------------------------------

  lemma SortedTail(side: Side, s: seq<Order>)
    requires Sorted(side, s) && s != []
    ensures Sorted(side, s[1..])
    ensures forall x :: x in s ==> !Better(side, x.price, s[0].price)
  {
  }

  lemma SortedCons(side: Side, o: Order, s: seq<Order>)
    requires Sorted(side, s)
    requires forall x :: x in s ==> !Better(side, x.price, o.price)
    ensures Sorted(side, [o] + s)
  {
  }

  lemma DistinctCons(o: Order, s: seq<Order>)
    requires Distinct(s)
    requires forall x :: x in s ==> x.id != o.id
    ensures Distinct([o] + s)
  {
  }

  lemma {:induction false} InsertKeepsSorted(side: Side, s: seq<Order>, o: Order)
    requires Sorted(side, s)
    ensures Sorted(side, Insert(side, s, o))
  {
    if s == [] || Better(side, o.price, s[0].price) {
      SortedCons(side, o, s);
    } else {
      SortedTail(side, s);
      InsertKeepsSorted(side, s[1..], o);
      InsertMembers(side, s[1..], o);
      SortedCons(side, s[0], Insert(side, s[1..], o));
    }
  }

  lemma {:induction false} InsertKeepsDistinct(side: Side, s: seq<Order>, o: Order)
    requires Distinct(s)
    requires forall x :: x in s ==> x.id != o.id
    ensures Distinct(Insert(side, s, o))
  {
    if s == [] || Better(side, o.price, s[0].price) {
      DistinctCons(o, s);
    } else {
      InsertKeepsDistinct(side, s[1..], o);
      InsertMembers(side, s[1..], o);
      DistinctCons(s[0], Insert(side, s[1..], o));
    }
  }

  lemma {:induction false} RemoveKeepsOrder(side: Side, s: seq<Order>, id: OrderId)
    requires Sorted(side, s) && Distinct(s)
    ensures Sorted(side, Remove(s, id)) && Distinct(Remove(s, id))
  {
    if s != [] && s[0].id != id {
      SortedTail(side, s);
      RemoveKeepsOrder(side, s[1..], id);
      RemoveMembers(s[1..], id);
      SortedCons(side, s[0], Remove(s[1..], id));
      DistinctCons(s[0], Remove(s[1..], id));
    }
  }

  lemma {:induction false} UpdateAt(s: seq<Order>, o: Order, k: nat)
    requires k < |s|
    requires Distinct(s)
    ensures Update(s, o)[k] == if s[k].id == o.id then o else s[k]
  {
    if s[0].id == o.id || k == 0 {
    } else {
      UpdateAt(s[1..], o, k - 1);
    }
  }

  lemma UpdateKeepsOrder(side: Side, s: seq<Order>, o: Order)
    requires Sorted(side, s) && Distinct(s)
    requires forall x :: x in s && x.id == o.id ==> x.price == o.price
    ensures Sorted(side, Update(s, o)) && Distinct(Update(s, o))
  {
    forall k | 0 <= k < |s|
      ensures Update(s, o)[k].id == s[k].id && Update(s, o)[k].price == s[k].price
    {
      UpdateAt(s, o, k);
    }
  }

  // ---- queues per price -----------------------------------------------------

  lemma {:induction false} IdsAtAbsent(s: seq<Order>, p: Price)
    ensures IdsAt(s, p) == [] <==> forall x :: x in s ==> x.price != p
  {
    if s != [] {
      IdsAtAbsent(s[1..], p);
      assert s == [s[0]] + s[1..];
    }
  }

  lemma {:induction false} IdsAtInsert(side: Side, s: seq<Order>, o: Order, p: Price)
    requires Sorted(side, s)
    ensures IdsAt(Insert(side, s, o), p) == if p == o.price then IdsAt(s, p) + [o.id] else IdsAt(s, p)
  {
    if s == [] {
    } else if Better(side, o.price, s[0].price) {
      SortedTail(side, s);
      IdsAtAbsent(s, o.price);
    } else {
      SortedTail(side, s);
      IdsAtInsert(side, s[1..], o, p);
    }
  }

  lemma {:induction false} IdsAtMembers(s: seq<Order>, p: Price)
    ensures forall id :: id in IdsAt(s, p) <==> exists x :: x in s && x.price == p && x.id == id
  {
    if s != [] {
      IdsAtMembers(s[1..], p);
      assert s == [s[0]] + s[1..];
    }
  }

  lemma {:induction false} IdsAtRemove(s: seq<Order>, o: Order, p: Price)
    requires Distinct(s) && o in s
    ensures IdsAt(Remove(s, o.id), p) == if p == o.price then RemoveId(IdsAt(s, p), o.id) else IdsAt(s, p)
  {
    assert s == [s[0]] + s[1..];
    if s[0].id == o.id {
      assert s[0] == o;
    } else {
      IdsAtRemove(s[1..], o, p);
    }
  }

  lemma {:induction false} IdsAtUpdate(s: seq<Order>, o: Order, p: Price)
    requires forall x :: x in s && x.id == o.id ==> x.price == o.price
    ensures IdsAt(Update(s, o), p) == IdsAt(s, p)
  {
    if s != [] {
      assert s[0] in s;
      if s[0].id != o.id {
        IdsAtUpdate(s[1..], o, p);
      }
    }
  }

  // ---- sums -----------------------------------------------------------------

  lemma {:induction false} SumInsert(side: Side, s: seq<Order>, o: Order, f: Order -> nat)
    ensures Sum(Insert(side, s, o), f) == Sum(s, f) + f(o)
  {
    if s != [] && !Better(side, o.price, s[0].price) {
      SumInsert(side, s[1..], o, f);
    }
  }

  lemma {:induction false} SumConcat(s: seq<Order>, t: seq<Order>, f: Order -> nat)
    ensures Sum(s + t, f) == Sum(s, f) + Sum(t, f)
  {
    if s == [] {
      assert s + t == t;
    } else {
      SumConcat(s[1..], t, f);
      assert (s + t)[1..] == s[1..] + t;
    }
  }

  lemma {:induction false} SumRemove(s: seq<Order>, o: Order, f: Order -> nat)
    requires Distinct(s) && o in s
    ensures Sum(Remove(s, o.id), f) + f(o) == Sum(s, f)
  {
    assert s == [s[0]] + s[1..];
    if s[0].id == o.id {
      assert s[0] == o;
    } else {
      SumRemove(s[1..], o, f);
    }
  }

  lemma {:induction false} SumRemoveAtMost(s: seq<Order>, id: OrderId, f: Order -> nat)
    ensures Sum(Remove(s, id), f) <= Sum(s, f)
  {
    if s != [] && s[0].id != id {
      SumRemoveAtMost(s[1..], id, f);
    }
  }
}
