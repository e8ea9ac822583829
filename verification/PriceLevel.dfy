/** The FIFO of one price, with O(1) cancels that leave tombstones behind. */
module PriceLevels {
  import opened Orders
  import opened Ladder

  // ---- the queue a level stands for -------------------------------------------

  /** What a queue with tombstones means: the first entry of a tombstoned id is
      dead, and a later entry of the same id is alive again. */
  function Live(queue: seq<OrderId>, cancelled: set<OrderId>): seq<OrderId> {
    if queue == [] then []
    else if queue[0] in cancelled then Live(queue[1..], cancelled - {queue[0]})
    else [queue[0]] + Live(queue[1..], cancelled)
  }

  /** The entries whose id bears no tombstone at all, as the listing filters them. */
  function Unmarked(queue: seq<OrderId>, cancelled: set<OrderId>): seq<OrderId> {
    if queue == [] then []
    else if queue[0] in cancelled then Unmarked(queue[1..], cancelled)
    else [queue[0]] + Unmarked(queue[1..], cancelled)
  }

  /** Every tombstone still has its dead entry in the queue. */
  ghost predicate Tombstoned(queue: seq<OrderId>, cancelled: set<OrderId>) {
    forall id :: id in cancelled ==> id in queue
  }

  lemma {:induction false} LivePush(queue: seq<OrderId>, cancelled: set<OrderId>, id: OrderId)
    requires Tombstoned(queue, cancelled)
    ensures Live(queue + [id], cancelled) == Live(queue, cancelled) + [id]
  {
    if queue == [] {
      assert queue + [id] == [id];
    } else {
      assert (queue + [id])[1..] == queue[1..] + [id];
      assert queue == [queue[0]] + queue[1..];
      if queue[0] in cancelled {
        LivePush(queue[1..], cancelled - {queue[0]}, id);
      } else {
        LivePush(queue[1..], cancelled, id);
      }
    }
  }

  /** A new tombstone kills exactly one live entry of its id. */
  lemma {:induction false} LiveRemove(queue: seq<OrderId>, cancelled: set<OrderId>, id: OrderId)
    requires id !in cancelled
    ensures Live(queue, cancelled + {id}) == RemoveId(Live(queue, cancelled), id)
  {
    if queue == [] {
    } else if queue[0] == id {
      assert cancelled + {id} - {id} == cancelled;
    } else if queue[0] in cancelled {
      assert cancelled + {id} - {queue[0]} == cancelled - {queue[0]} + {id};
      LiveRemove(queue[1..], cancelled - {queue[0]}, id);
    } else {
      LiveRemove(queue[1..], cancelled, id);
    }
  }

  lemma {:induction false} RemoveIdShrinks(ids: seq<OrderId>, id: OrderId)
    ensures |RemoveId(ids, id)| == if id in ids then |ids| - 1 else |ids|
  {
    if ids != [] && ids[0] != id {
      RemoveIdShrinks(ids[1..], id);
      assert ids == [ids[0]] + ids[1..];
    }
  }

  /** Tombstoning a live id works exactly when the id bears no tombstone yet. */
  lemma RemoveWorksIff(queue: seq<OrderId>, cancelled: set<OrderId>, id: OrderId)
    requires id in Live(queue, cancelled)
    ensures Live(queue, cancelled + {id}) == RemoveId(Live(queue, cancelled), id) <==> id !in cancelled
  {
    if id !in cancelled {
      LiveRemove(queue, cancelled, id);
    } else {
      assert cancelled + {id} == cancelled;
      RemoveIdShrinks(Live(queue, cancelled), id);
    }
  }

  lemma {:induction false} LiveSize(queue: seq<OrderId>, cancelled: set<OrderId>)
    requires Tombstoned(queue, cancelled)
    ensures |Live(queue, cancelled)| == |queue| - |cancelled|
  {
    if queue == [] {
      assert cancelled == {};
    } else {
      assert queue == [queue[0]] + queue[1..];
      if queue[0] in cancelled {
        LiveSize(queue[1..], cancelled - {queue[0]});
      } else {
        LiveSize(queue[1..], cancelled);
      }
    }
  }

  lemma {:induction false} LiveMembers(queue: seq<OrderId>, cancelled: set<OrderId>)
    ensures forall id :: id in Live(queue, cancelled) ==> id in queue
    ensures forall id :: id in queue && id !in cancelled ==> id in Live(queue, cancelled)
  {
    if queue != [] {
      assert queue == [queue[0]] + queue[1..];
      if queue[0] in cancelled {
        LiveMembers(queue[1..], cancelled - {queue[0]});
      } else {
        LiveMembers(queue[1..], cancelled);
      }
    }
  }

  lemma {:induction false} UnmarkedMembers(queue: seq<OrderId>, cancelled: set<OrderId>)
    ensures forall id :: id in Unmarked(queue, cancelled) <==> id in queue && id !in cancelled
  {
    if queue != [] {
      UnmarkedMembers(queue[1..], cancelled);
      assert queue == [queue[0]] + queue[1..];
    }
  }

  lemma {:induction false} UnmarkedIgnores(queue: seq<OrderId>, cancelled: set<OrderId>, id: OrderId)
    requires id !in queue
    ensures Unmarked(queue, cancelled) == Unmarked(queue, cancelled - {id})
  {
    if queue != [] {
      UnmarkedIgnores(queue[1..], cancelled, id);
    }
  }

  /** The listing is right exactly when no live id bears a tombstone. */
  lemma {:induction false} ListingWorksIff(queue: seq<OrderId>, cancelled: set<OrderId>)
    ensures Unmarked(queue, cancelled) == Live(queue, cancelled) <==>
            forall id :: id in Live(queue, cancelled) ==> id !in cancelled
  {
    UnmarkedMembers(queue, cancelled);
    if forall id :: id in Live(queue, cancelled) ==> id !in cancelled {
      ListingWorks(queue, cancelled);
    }
  }

  lemma {:induction false} ListingWorks(queue: seq<OrderId>, cancelled: set<OrderId>)
    requires forall id :: id in Live(queue, cancelled) ==> id !in cancelled
    ensures Unmarked(queue, cancelled) == Live(queue, cancelled)
  {
    if queue != [] {
      if queue[0] in cancelled {
        var rest := cancelled - {queue[0]};
        LiveMembers(queue[1..], rest);
        UnmarkedIgnores(queue[1..], cancelled, queue[0]);
        ListingWorks(queue[1..], rest);
      } else {
        ListingWorks(queue[1..], cancelled);
      }
    }
  }

  /** The queue and tombstones once the dead entries at the front are dropped. */
  function Drained(queue: seq<OrderId>, cancelled: set<OrderId>): (seq<OrderId>, set<OrderId>) {
    if queue == [] || queue[0] !in cancelled then (queue, cancelled)
    else Drained(queue[1..], cancelled - {queue[0]})
  }

  /** A cancelled id leaves a tombstone behind exactly when it was not the oldest. */
  lemma {:induction false} TombstoneStaysIff(queue: seq<OrderId>, cancelled: set<OrderId>, id: OrderId)
    requires id !in cancelled && id in Live(queue, cancelled)
    ensures id in Drained(queue, cancelled + {id}).1 <==> Live(queue, cancelled)[0] != id
  {
    if queue[0] == id {
      assert cancelled + {id} - {id} == cancelled;
      DrainedFewer(queue[1..], cancelled);
    } else if queue[0] in cancelled {
      assert cancelled + {id} - {queue[0]} == cancelled - {queue[0]} + {id};
      TombstoneStaysIff(queue[1..], cancelled - {queue[0]}, id);
    }
  }

  lemma {:induction false} DrainedFewer(queue: seq<OrderId>, cancelled: set<OrderId>)
    ensures Drained(queue, cancelled).1 <= cancelled
  {
    if queue != [] && queue[0] in cancelled {
      DrainedFewer(queue[1..], cancelled - {queue[0]});
    }
  }

  /** A quantity increase in mid-queue pushes an id its level still has a tombstone
      of. The level then fills correctly, but lists too little, and a second
      cancel of the id has no effect. */
  lemma RequeuedInMidQueue()
    ensures var queue := [1, 2] + [2]; var cancelled := {2};
      && Live(queue, cancelled) == [1, 2]
      && Unmarked(queue, cancelled) == [1]
      && Live(queue, cancelled + {2}) == [1, 2]
  {
    var queue: seq<OrderId> := [1, 2] + [2];
    assert queue[1..] == [2, 2] && queue[1..][1..] == [2];
    assert {2} - {2} == {} && {2} + {2} == {2};
    assert Live([2], {}) == [2];
    assert Live([2, 2], {2}) == [2] by { assert [2, 2][1..] == [2]; }
    assert Unmarked([2, 2], {2}) == [] by { assert [2, 2][1..] == [2]; }
  }

  // ---- the level itself -------------------------------------------------------

  class PriceLevel {
    const price: Price
    var totalVolume: Quantity
    var queue: seq<OrderId>
    var cancelled: set<OrderId>

    ghost predicate Valid()
      reads this
    {
      Tombstoned(queue, cancelled)
    }

    /** The ids resting here, oldest first. */
    ghost function Ids(): seq<OrderId>
      reads this
    {
      Live(queue, cancelled)
    }

    constructor (price: Price)
      ensures Valid() && this.price == price
      ensures Ids() == [] && totalVolume == 0 && cancelled == {}
    {
      this.price := price;
      totalVolume, queue, cancelled := 0, [], {};
    }

    method PushBack(id: OrderId, visibleQty: Quantity)
      requires Valid()
      modifies this
      ensures Valid() && Ids() == old(Ids()) + [id]
      ensures totalVolume == old(totalVolume) + visibleQty && cancelled == old(cancelled)
    {
      LivePush(queue, cancelled, id);
      queue := queue + [id];
      totalVolume := totalVolume + visibleQty;
    }

    /** Drops dead entries from the front, tombstones with them. */
    method DrainCancelled()
      requires Valid()
      modifies this`queue, this`cancelled
      ensures Valid() && Ids() == old(Ids())
      ensures cancelled <= old(cancelled)
      ensures queue != [] ==> queue[0] !in cancelled
      ensures queue == [] <==> Ids() == []
      ensures (queue, cancelled) == Drained(old(queue), old(cancelled))
    {
      while queue != [] && queue[0] in cancelled
        invariant Valid() && Ids() == old(Ids()) && cancelled <= old(cancelled)
        invariant Drained(queue, cancelled) == Drained(old(queue), old(cancelled))
        decreases |queue|
      {
        cancelled := cancelled - {queue[0]};
        queue := queue[1..];
      }
    }

    method PopFront(filledQty: Quantity)
      requires Valid() && Ids() != []
      modifies this
      ensures Valid() && Ids() == old(Ids())[1..]
      ensures totalVolume == Minus(old(totalVolume), filledQty) && cancelled <= old(cancelled)
    {
      DrainCancelled();
      queue := queue[1..];
      totalVolume := if totalVolume >= filledQty then totalVolume - filledQty else 0;
    }

    method ReduceFrontVolume(qty: Quantity)
      modifies this`totalVolume
      ensures totalVolume == Minus(old(totalVolume), qty)
    {
      totalVolume := if totalVolume >= qty then totalVolume - qty else 0;
    }

    /** Tombstones an id. The level forgets it, unless a tombstone of the same
        id was still waiting: then nothing happens. */
    method Remove(id: OrderId, visibleQty: Quantity)
      requires Valid() && id in Ids()
      modifies this
      ensures Valid()
      ensures Ids() == if id in old(cancelled) then old(Ids()) else RemoveId(old(Ids()), id)
      ensures totalVolume == Minus(old(totalVolume), visibleQty)
      ensures cancelled == old(cancelled) + {id} && queue == old(queue)
    {
      LiveMembers(queue, cancelled);
      if id in cancelled {
        assert cancelled + {id} == cancelled;
      } else {
        LiveRemove(queue, cancelled, id);
      }
      cancelled := cancelled + {id};
      totalVolume := if totalVolume >= visibleQty then totalVolume - visibleQty else 0;
    }

    method Front() returns (id: OrderId)
      requires Valid() && Ids() != []
      modifies this`queue, this`cancelled
      ensures Valid() && Ids() == old(Ids()) && cancelled <= old(cancelled)
      ensures id == Ids()[0] && id !in cancelled
    {
      DrainCancelled();
      id := queue[0];
    }

    method IsEmpty() returns (empty: bool)
      requires Valid()
      modifies this`queue, this`cancelled
      ensures Valid() && Ids() == old(Ids()) && cancelled <= old(cancelled)
      ensures empty <==> Ids() == []
      ensures cancelled == Drained(old(queue), old(cancelled)).1
    {
      DrainCancelled();
      empty := queue == [];
    }

    method Size() returns (n: int)
      requires Valid()
      ensures n == |Ids()|
    {
      LiveSize(queue, cancelled);
      n := |queue| - |cancelled|;
    }

    method OrderIds() returns (ids: seq<OrderId>)
      ensures ids == Unmarked(queue, cancelled)
      ensures ids == Ids() <==> forall id :: id in Ids() ==> id !in cancelled
    {
      ids := [];
      for i := 0 to |queue|
        invariant ids + Unmarked(queue[i..], cancelled) == Unmarked(queue, cancelled)
      {
        assert queue[i..][1..] == queue[i + 1..];
        if queue[i] !in cancelled {
          ids := ids + [queue[i]];
        }
      }
      ListingWorksIff(queue, cancelled);
    }
  }
}
