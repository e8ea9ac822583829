/** One side of the order book: a sorted map of price levels. */
module BookSides {
  import opened Orders
  import opened Ladder
  import opened PriceLevels
  import opened Volumes

  class BookSide {
    const side: Side
    var levels: map<Price, PriceLevel>
    // the eager side these levels stand for
    ghost var list: seq<Order>
    // no iceberg ever joined this side
    ghost var iceless: bool
    // per level, the quantity of the fills that used an order up since it was opened
    ghost var spent: map<Price, Quantity>

    ghost function VolumeMap(): map<Price, Quantity>
      reads this`levels, levels.Values
    {
      map p | p in levels :: levels[p].totalVolume
    }

    /** The displayed volume of a price, 0 where there is no level. */
    ghost function VolumeAt(p: Price): Quantity
      reads this`levels, levels.Values
    {
      if p in levels then levels[p].totalVolume else 0
    }

    ghost function SpentAt(p: Price): Quantity
      reads this`spent
    {
      if p in spent then spent[p] else 0
    }

    /** Without icebergs, the volumes of the levels are accounted for. */
    ghost predicate VolumesOk()
      reads this, levels.Values
    {
      iceless ==> (forall o :: o in list ==> !o.IsIceberg()) && Balanced(VolumeMap(), list, spent)
    }

    ghost predicate Valid()
      reads this, levels.Values
    {
      QueuesOk() && VolumesOk()
    }

    /** The levels hold exactly the queues of the eager list, and no empty one. */
    ghost predicate QueuesOk()
      reads this, levels.Values
    {
      && Sorted(side, list) && Distinct(list)
      && (forall o :: o in list ==> o.side == side && o.price in levels)
      && spent.Keys == levels.Keys
      && (forall p :: p in levels ==>
            && levels[p].price == p
            && levels[p].Valid()
            && levels[p].Ids() == IdsAt(list, p)
            && IdsAt(list, p) != [])
    }

    /** The level of this price holds a tombstone of the id. */
    predicate Buried(p: Price, id: OrderId)
      reads this`levels, levels.Values
    {
      p in levels && id in levels[p].cancelled
    }

    ghost predicate Queued(p: Price, id: OrderId)
      reads this`levels, levels.Values
    {
      p in levels && levels[p].Valid() && id in levels[p].Ids()
    }

    /** Nothing this side is made of has changed. */
    twostate lemma Untouched()
      requires old(Valid()) && unchanged(this) && unchanged(levels.Values)
      ensures Valid()
    {
    }

    constructor (side: Side)
      ensures Valid() && this.side == side
      ensures list == [] && levels == map[] && spent == map[] && iceless
    {
      this.side := side;
      levels, list, iceless, spent := map[], [], true, map[];
    }

    /** The level of the best price, or none. */
    method Best() returns (level: PriceLevel?)
      requires Valid()
      ensures level == null <==> list == []
      ensures level != null ==>
                && list[0].price in levels && level in levels.Values
                && level == levels[list[0].price] && level.price == list[0].price
      ensures level != null ==> level.Valid() && level.Ids() != [] && level.Ids()[0] == list[0].id
    {
      assert list != [] ==> list[0] in list;
      if forall p :: p !in levels {
        level := null;
      } else {
        ghost var some :| some in levels;
        IdsAtAbsent(list, some);
        SortedTail(side, list);
        forall q | q in levels
          ensures !Better(side, q, list[0].price)
        {
          IdsAtAbsent(list, q);
        }
        var p :| p in levels && forall q :: q in levels ==> !Better(side, q, p);
        assert !Better(side, p, list[0].price) && !Better(side, list[0].price, p);
        level := levels[p];
      }
    }

    lemma LevelIs(p: Price)
      requires QueuesOk() && p in levels
      ensures levels[p].Valid() && levels[p].price == p && levels[p].Ids() == IdsAt(list, p)
      ensures spent.Keys == levels.Keys
      ensures forall q :: q in levels && q != p ==> levels[q] != levels[p]
    {
    }

    lemma NoneAt(p: Price)
      requires QueuesOk() && p !in levels
      ensures IdsAt(list, p) == [] && spent.Keys == levels.Keys
    {
      IdsAtAbsent(list, p);
    }

    /** Puts an order at the end of its price's queue, opening the level if needed. */
    method Enqueue(o: Order)
      requires Valid()
      requires o.side == side && forall x :: x in list ==> x.id != o.id
      modifies this, levels.Values
      ensures Valid() && fresh(levels.Values - old(levels.Values))
      ensures list == Insert(side, old(list), o)
      ensures forall p, id :: Buried(p, id) <==> old(Buried(p, id))
      ensures iceless <==> old(iceless) && !o.IsIceberg()
      ensures spent == Opened(old(spent), o.price)
      ensures forall p :: VolumeAt(p) ==
                old(VolumeAt(p)) + if p != o.price then 0 else if o.peakQty > 0 then o.peakQty else o.quantity
    {
      hide VolumesOk, QueuesOk, Insert, IdsAt, Buried, Live, Tombstoned, VolumeAt;
      if o.price in levels {
        LevelIs(o.price);
      } else {
        NoneAt(o.price);
        var level := new PriceLevel(o.price);
        levels, spent := levels[o.price := level], spent[o.price := 0];
      }
      levels[o.price].PushBack(o.id, o.VisibleQty());
      list, iceless := Insert(side, list, o), iceless && !o.IsIceberg();
      Enqueued(o);
      EnqueuedVolumes(o);
      SameTombstones(o.price);
      GrownVolume(o.price, o.VisibleQty());
    }

    /** No tombstone came or went on a level that was there before. */
    twostate lemma SameTombstones(p: Price)
      requires p in levels && levels == old(levels)[p := levels[p]]
      requires levels[p].cancelled == if p in old(levels) then old(levels[p].cancelled) else {}
      requires forall q :: q in old(levels) && q != p ==> unchanged(old(levels)[q])
      ensures forall q, id :: Buried(q, id) <==> old(Buried(q, id))
    {
    }

    twostate lemma GrownVolume(p: Price, new more: Quantity)
      requires p in levels && levels == old(levels)[p := levels[p]]
      requires levels[p].totalVolume == (if p in old(levels) then old(levels[p].totalVolume) else 0) + more
      requires forall q :: q in old(levels) && q != p ==> unchanged(old(levels)[q])
      ensures forall q :: VolumeAt(q) == old(VolumeAt(q)) + if q == p then more else 0
    {
    }

    /** The queues after one level got a new last order. */
    twostate lemma Enqueued(o: Order)
      requires old(QueuesOk()) && o.side == side && forall x :: x in old(list) ==> x.id != o.id
      requires o.price in levels && levels == old(levels)[o.price := levels[o.price]]
      requires var level := levels[o.price];
        && level.price == o.price && level.Valid()
        && level.Ids() == IdsAt(old(list), o.price) + [o.id]
      requires forall p :: p in old(levels) && p != o.price ==> unchanged(old(levels)[p])
      requires list == Insert(side, old(list), o) && spent.Keys == levels.Keys
      ensures QueuesOk()
    {
      InsertKeepsSorted(side, old(list), o);
      InsertKeepsDistinct(side, old(list), o);
      InsertMembers(side, old(list), o);
      forall p ensures IdsAt(list, p) == if p == o.price then IdsAt(old(list), p) + [o.id] else IdsAt(old(list), p) {
        IdsAtInsert(side, old(list), o, p);
      }
    }

    twostate lemma WasInOrder()
      requires old(QueuesOk())
      ensures Distinct(old(list)) && forall o :: o in old(list) ==> o.price in old(levels)
    {
    }

    /** Untouched levels keep their volume. */
    twostate lemma OtherVolumes(p: Price)
      requires forall q :: q in old(levels) && q != p ==> unchanged(old(levels)[q])
      requires forall q :: q in levels && q != p ==> q in old(levels) && levels[q] == old(levels)[q]
      ensures forall q :: q in levels && q != p ==> VolumeMap()[q] == old(VolumeMap())[q]
    {
      forall q | q in levels && q != p ensures levels[q].totalVolume == old(levels[q].totalVolume) {
        assert unchanged(old(levels)[q]);
      }
    }

    /** The volumes after one level got a new last order. */
    twostate lemma EnqueuedVolumes(o: Order)
      requires old(Valid()) && iceless == (old(iceless) && !o.IsIceberg()) && list == Insert(side, old(list), o)
      requires o.price in levels && levels == old(levels)[o.price := levels[o.price]]
      requires forall p :: p in old(levels) && p != o.price ==> unchanged(old(levels)[p])
      requires spent == if o.price in old(levels) then old(spent) else old(spent)[o.price := 0]
      requires levels[o.price].totalVolume ==
               (if o.price in old(levels) then old(levels[o.price].totalVolume) else 0) + o.VisibleQty()
      ensures VolumesOk()
    {
      hide Insert, QueuesOk, Balanced;
      var volumes := old(VolumeMap());
      WasInOrder();
      InsertMembers(side, old(list), o);
      if iceless {
        var wider := if o.price in volumes then volumes else volumes[o.price := 0];
        if o.price !in volumes {
          BalancedOpen(volumes, old(list), old(spent), o.price);
        }
        BalancedInsert(side, wider, old(list), spent, o);
        OtherVolumes(o.price);
        assert VolumeMap() == wider[o.price := wider[o.price] + o.quantity];
      }
    }

    /** Tombstones an order and drops its level when nothing live is left on it.
        With an older tombstone of the same id in the way, the id stays queued. */
    method Dequeue(o: Order)
      requires Valid() && o in list
      modifies this, levels.Values
      ensures levels.Values <= old(levels.Values)
      ensures list == Remove(old(list), o.id)
      ensures !old(Buried(o.price, o.id)) ==> Valid()
      ensures old(Buried(o.price, o.id)) <==> Queued(o.price, o.id)
      ensures forall p, id :: Buried(p, id) ==> old(Buried(p, id)) || (p == o.price && id == o.id)
      ensures !old(Buried(o.price, o.id)) ==>
                (Buried(o.price, o.id) <==> old(IdsAt(list, o.price))[0] != o.id)
      ensures forall p :: p != o.price ==> (Buried(p, o.id) <==> old(Buried(p, o.id)))
      ensures iceless == old(iceless)
      ensures !old(Buried(o.price, o.id)) ==> spent == Kept(old(spent), o.price, list)
      ensures forall p :: p in levels && p != o.price ==> VolumeAt(p) == old(VolumeAt(p))
      ensures o.price in levels ==>
                VolumeAt(o.price) == Minus(old(VolumeAt(o.price)), if o.peakQty > 0 then o.peakQty else o.quantity)
    {
      hide Live, Drained, Tombstoned, Sorted, Distinct, RemoveId, Ladder.Remove, IdsAt, VolumesOk, QueuesOk;
      QueuedOnLevel(o);
      var level := levels[o.price];
      LevelIs(o.price);
      if !Buried(o.price, o.id) {
        TombstoneStaysIff(level.queue, level.cancelled, o.id);
      }
      RemoveIdShrinks(level.Ids(), o.id);
      level.Remove(o.id, o.VisibleQty());
      var empty := level.IsEmpty();
      if empty {
        levels, spent := levels - {o.price}, spent - {o.price};
      }
      list := Remove(list, o.id);
      if !old(Buried(o.price, o.id)) {
        Dequeued(o);
        DequeuedVolumes(o);
        NotQueued(old(list), o.id, o.price);
        LevelIffOrder(o.price);
      }
    }

    lemma QueuedOnLevel(o: Order)
      requires QueuesOk() && o in list
      ensures o.price in levels && o.id in levels[o.price].Ids() && Distinct(list)
    {
      IdsAtMembers(list, o.price);
    }

    /** A level is there exactly while something rests on it. */
    lemma LevelIffOrder(p: Price)
      requires QueuesOk()
      ensures p in levels <==> exists o :: o in list && o.price == p
    {
      IdsAtAbsent(list, p);
    }

    lemma NotQueued(was: seq<Order>, id: OrderId, p: Price)
      requires QueuesOk() && Distinct(was) && list == Remove(was, id)
      ensures !Queued(p, id)
    {
      RemoveMembers(was, id);
      IdsAtMembers(list, p);
    }

    /** The queues after one order left its level, and the level, if that was its
        last, left the side. */
    twostate lemma Dequeued(o: Order)
      requires old(QueuesOk()) && o in old(list) && o.price in old(levels)
      requires var level := old(levels)[o.price];
        && level.Valid() && level.Ids() == RemoveId(old(level.Ids()), o.id)
        && levels == if level.Ids() == [] then old(levels) - {o.price} else old(levels)
      requires forall p :: p in old(levels) && p != o.price ==> unchanged(old(levels)[p])
      requires list == Remove(old(list), o.id) && spent.Keys == levels.Keys
      ensures QueuesOk()
    {
      hide Sorted, Distinct, RemoveId, Ladder.Remove, IdsAt, Live;
      RemoveMembers(old(list), o.id);
      RemoveKeepsOrder(side, old(list), o.id);
      forall p
        ensures IdsAt(list, p) == if p == o.price then RemoveId(IdsAt(old(list), p), o.id) else IdsAt(old(list), p)
      {
        IdsAtRemove(old(list), o, p);
      }
      IdsAtAbsent(list, o.price);
    }

    /** The volumes after that. */
    twostate lemma DequeuedVolumes(o: Order)
      requires old(Valid()) && o in old(list) && o.price in old(levels)
      requires var level := old(levels)[o.price];
        && level.totalVolume == Minus(old(level.totalVolume), o.VisibleQty())
        && (levels == old(levels) || levels == old(levels) - {o.price})
      requires forall p :: p in old(levels) && p != o.price ==> unchanged(old(levels)[p])
      requires list == Remove(old(list), o.id) && iceless == old(iceless)
      requires spent == if o.price in levels then old(spent) else old(spent) - {o.price}
      ensures VolumesOk()
    {
      hide Ladder.Remove, QueuesOk, Balanced, Distinct;
      var volumes := old(VolumeMap());
      WasInOrder();
      RemoveMembers(old(list), o.id);
      if iceless {
        BalancedRemove(volumes, old(list), old(spent), o);
        var after := volumes[o.price := volumes[o.price] - o.quantity];
        BalancedClose(after, list, old(spent), o.price);
        OtherVolumes(o.price);
        assert VolumeMap() == if o.price in levels then after else after - {o.price};
      }
    }

    /** The best order's slice was used up: it goes to the back of its level with
        a fresh one. */
    method Rotate(level: PriceLevel, o: Order, filledQty: Quantity)
      requires Valid() && list != [] && level == levels[list[0].price]
      requires o.id == list[0].id && o.price == list[0].price && o.side == side && o.IsIceberg()
      modifies level, this`list, this`iceless, this`spent
      ensures Valid() && levels == old(levels) && !iceless
      ensures list == Insert(side, old(list)[1..], o)
      ensures forall p, id :: Buried(p, id) ==> old(Buried(p, id))
      ensures spent == Refunded(old(spent), o.price, filledQty)
      ensures forall p :: VolumeAt(p) ==
                if p == o.price then Minus(old(VolumeAt(p)), filledQty) + o.quantity else old(VolumeAt(p))
    {
      hide VolumesOk, QueuesOk, Insert, IdsAt;
      HeadOnLevel();
      LevelIs(list[0].price);
      level.PopFront(filledQty);
      level.PushBack(o.id, o.quantity);
      list, iceless, spent := Insert(side, list[1..], o), false, spent[o.price := Minus(SpentAt(o.price), filledQty)];
      Rotated(o);
      VolumesHold();
    }

    lemma HeadOnLevel()
      requires QueuesOk() && list != []
      ensures list[0].price in levels && IdsAt(list, list[0].price) == [list[0].id] + IdsAt(list[1..], list[0].price)
    {
    }

    lemma VolumesHold()
      requires !iceless
      ensures VolumesOk()
    {
    }

    /** The queues after the first order went to the back of its level. */
    twostate lemma Rotated(o: Order)
      requires old(QueuesOk()) && old(list) != [] && levels == old(levels)
      requires var best := old(list)[0];
        o.id == best.id && o.price == best.price && o.side == side && best.price in levels
      requires var level := levels[o.price];
        && level.Valid()
        && level.Ids() == old(level.Ids())[1..] + [o.id]
      requires forall p :: p in levels && p != o.price ==> unchanged(levels[p])
      requires list == Insert(side, old(list)[1..], o) && spent.Keys == levels.Keys
      ensures QueuesOk()
    {
      hide Insert, Sorted, Distinct, IdsAt;
      var rest := old(list)[1..];
      RestInOrder(side, old(list));
      InsertKeepsSorted(side, rest, o);
      InsertKeepsDistinct(side, rest, o);
      InsertMembers(side, rest, o);
      forall p ensures IdsAt(list, p) == if p == o.price then IdsAt(rest, p) + [o.id] else IdsAt(rest, p) {
        IdsAtInsert(side, rest, o, p);
      }
    }

    /** The oldest live id of the best level; dead entries before it are dropped. */
    method FrontOf(level: PriceLevel) returns (id: OrderId)
      requires Valid() && list != [] && list[0].price in levels && level == levels[list[0].price]
      modifies level`queue, level`cancelled
      ensures Valid() && id == list[0].id && !Buried(list[0].price, id)
      ensures forall p, id :: Buried(p, id) ==> old(Buried(p, id))
    {
      assert list[0] in list;
      id := level.Front();
      FrontIsHead();
    }

    lemma FrontIsHead()
      requires list != []
      ensures IdsAt(list, list[0].price) != [] && IdsAt(list, list[0].price)[0] == list[0].id
    {
    }

    /** Lowers the displayed volume of a level, if there is one, by quantity that was
        taken off its orders before. */
    method ReduceVolume(p: Price, delta: Quantity)
      requires Valid() && (iceless && p in levels ==> delta <= SpentAt(p))
      modifies levels.Values, this`spent
      ensures Valid()
      ensures forall q :: q in levels ==>
                levels[q].queue == old(levels[q].queue) && levels[q].cancelled == old(levels[q].cancelled)
      ensures forall q :: q in levels ==>
                levels[q].totalVolume == if q == p then Minus(old(levels[q].totalVolume), delta)
                  else old(levels[q].totalVolume)
      ensures spent == Refunded(old(spent), p, delta)
    {
      hide VolumesOk, QueuesOk;
      if p in levels {
        LevelIs(p);
        levels[p].ReduceFrontVolume(delta);
        spent := spent[p := Minus(SpentAt(p), delta)];
        Reduced(p);
        ReducedVolumes(p, delta);
      } else {
        NoneAt(p);
      }
    }

    /** The queues do not depend on the volume of a level. */
    twostate lemma Reduced(p: Price)
      requires old(QueuesOk()) && p in levels
      requires levels == old(levels) && list == old(list) && spent.Keys == old(spent).Keys
      requires levels[p].queue == old(levels[p].queue) && levels[p].cancelled == old(levels[p].cancelled)
      requires forall q :: q in levels && q != p ==> unchanged(levels[q])
      ensures QueuesOk()
    {
      hide IdsAt;
    }

    twostate lemma ReducedVolumes(p: Price, new delta: Quantity)
      requires old(Valid()) && p in levels && (iceless ==> delta <= old(SpentAt(p)))
      requires levels == old(levels) && list == old(list) && iceless == old(iceless)
      requires levels[p].totalVolume == Minus(old(levels[p].totalVolume), delta)
      requires forall q :: q in levels && q != p ==> unchanged(levels[q])
      requires spent == old(spent)[p := Minus(old(SpentAt(p)), delta)]
      ensures VolumesOk()
    {
      hide Balanced, IdsAt;
      var volumes := old(VolumeMap());
      if iceless {
        KeysAgree(volumes, list, old(spent));
        BalancedReduce(volumes, list, old(spent), p, delta);
        OtherVolumes(p);
        assert VolumeMap() == volumes[p := volumes[p] - delta];
      }
    }

    /** Overwrites a resting order without moving it; the levels need not know. What
        it loses is spent, until the volume is lowered too. */
    ghost method Amend(was: Order, o: Order)
      requires Valid() && was in list
      requires o.id == was.id && o.price == was.price && o.side == was.side && o.peakQty == was.peakQty
      requires o.quantity <= was.quantity
      modifies this`list, this`spent
      ensures Valid() && list == Update(old(list), o)
      ensures spent == Charged(old(spent), o.price, was.quantity - o.quantity)
    {
      hide VolumesOk, QueuesOk, Update;
      QueuedOnLevel(was);
      LevelIs(o.price);
      list := Update(list, o);
      spent := spent[o.price := SpentAt(o.price) + was.quantity - o.quantity];
      Amended(was, o);
      AmendedVolumes(was, o);
    }

    twostate lemma Amended(was: Order, new o: Order)
      requires old(QueuesOk()) && was in old(list) && o.id == was.id && o.price == was.price && o.side == was.side
      requires levels == old(levels) && spent.Keys == old(spent).Keys && list == Update(old(list), o)
      requires forall p :: p in levels ==> unchanged(levels[p])
      ensures QueuesOk()
    {
      hide Update;
      UpdateMembers(old(list), o);
      UpdateKeepsOrder(side, old(list), o);
      forall p ensures IdsAt(list, p) == IdsAt(old(list), p) {
        IdsAtUpdate(old(list), o, p);
      }
    }

    twostate lemma AmendedVolumes(was: Order, new o: Order)
      requires old(Valid()) && was in old(list) && o.id == was.id && o.price == was.price && o.side == was.side
      requires o.peakQty == was.peakQty && o.quantity <= was.quantity && iceless == old(iceless)
      requires levels == old(levels) && list == Update(old(list), o)
      requires forall p :: p in levels ==> unchanged(levels[p])
      requires spent == old(spent)[o.price := old(SpentAt(o.price)) + was.quantity - o.quantity]
      ensures VolumesOk()
    {
      hide Balanced, IdsAt;
      UpdateMembers(old(list), o);
      if iceless {
        KeysAgree(old(VolumeMap()), old(list), old(spent));
        BalancedAmend(old(VolumeMap()), old(list), old(spent), was, o);
        forall p | p in levels ensures VolumeMap()[p] == old(VolumeMap())[p] {
          assert unchanged(levels[p]);
        }
        assert VolumeMap() == old(VolumeMap());
      }
    }
  }

  /** What stands behind the first order. */
  lemma RestInOrder(side: Side, s: seq<Order>)
    requires Sorted(side, s) && Distinct(s) && s != []
    ensures Sorted(side, s[1..]) && Distinct(s[1..])
    ensures forall x :: x in s[1..] ==> x in s && x.id != s[0].id
    ensures forall p :: IdsAt(s, p) == if p == s[0].price then [s[0].id] + IdsAt(s[1..], p) else IdsAt(s[1..], p)
  {
  }

  lemma KeysAgree(volumes: map<Price, Quantity>, s: seq<Order>, spent: map<Price, Quantity>)
    requires Balanced(volumes, s, spent)
    ensures spent.Keys == volumes.Keys
  {
  }
}
