/** The limit order book: two sides and a map of orders by id, kept consistent
    with an eager book of price-time sorted lists. */
module OrderBooks {
  import opened Orders
  import opened Ladder
  import opened PriceLevels
  import opened BookSides
  import opened Volumes

  /** A place where a tombstone can be: an id on the level of a side and price. */
  datatype Grave = Grave(side: Side, price: Price, id: OrderId)

  function GraveOf(o: Order): Grave { Grave(o.side, o.price, o.id) }

  /** The id map holds exactly the orders of both sides. */
  ghost predicate IdsOk(idMap: map<OrderId, Order>, own: seq<Order>, other: seq<Order>) {
    && (forall o :: o in own ==> o.id in idMap && idMap[o.id] == o)
    && (forall o :: o in other ==> o.id in idMap && idMap[o.id] == o)
    && (forall id :: id in idMap ==> idMap[id].id == id && (idMap[id] in own || idMap[id] in other))
  }

  lemma IdsInsert(side: Side, idMap: map<OrderId, Order>, own: seq<Order>, other: seq<Order>, o: Order)
    requires IdsOk(idMap, own, other) && o.id !in idMap
    ensures IdsOk(idMap[o.id := o], Insert(side, own, o), other)
  {
    InsertMembers(side, own, o);
  }

  lemma IdsRemove(idMap: map<OrderId, Order>, own: seq<Order>, other: seq<Order>, o: Order)
    requires IdsOk(idMap, own, other) && Distinct(own) && o in own && o !in other
    ensures IdsOk(idMap - {o.id}, Remove(own, o.id), other)
    ensures Remove(other, o.id) == other
  {
    RemoveMembers(own, o.id);
    RemoveAbsent(other, o.id);
  }

  lemma IdsUpdate(idMap: map<OrderId, Order>, own: seq<Order>, other: seq<Order>, was: Order, o: Order)
    requires IdsOk(idMap, own, other) && Distinct(own) && was in own && was !in other && o.id == was.id
    ensures IdsOk(idMap[o.id := o], Update(own, o), other)
    ensures Update(other, o) == other
  {
    UpdateMembers(own, o);
    UpdateAbsent(other, o);
  }

  lemma IdsRotate(side: Side, idMap: map<OrderId, Order>, own: seq<Order>, other: seq<Order>, o: Order)
    requires IdsOk(idMap, own, other) && Distinct(own) && own != [] && own[0] !in other && o.id == own[0].id
    ensures IdsOk(idMap[o.id := o], Insert(side, own[1..], o), other)
  {
    hide IdsOk, Insert;
    IdsRemove(idMap, own, other, own[0]);
    IdsInsert(side, idMap - {o.id}, own[1..], other, o);
    assert (idMap - {o.id})[o.id := o] == idMap[o.id := o];
  }

  lemma IdsSwap(idMap: map<OrderId, Order>, own: seq<Order>, other: seq<Order>)
    requires IdsOk(idMap, own, other)
    ensures IdsOk(idMap, other, own)
  {
  }

  class OrderBook {
    const bids: BookSide
    const asks: BookSide
    var idMap: map<OrderId, Order>
    var lastTradePrice: Price

    ghost function Levels(): set<PriceLevel>
      reads bids`levels, asks`levels
    {
      bids.levels.Values + asks.levels.Values
    }

    /** Every id in the map rests exactly once, on its own side and price, and
        every queued id is in the map. */
    ghost predicate Valid()
      reads this`idMap, bids, asks, bids.levels.Values, asks.levels.Values
    {
      && bids.side == Buy && asks.side == Sell
      && bids.levels.Values !! asks.levels.Values
      && bids.Valid() && asks.Valid()
      && IdsOk(idMap, bids.list, asks.list)
    }

    function SideOf(side: Side): BookSide
    {
      if side.Buy? then bids else asks
    }

    /** On which sides no iceberg ever joined. */
    ghost function Iceless(): (bool, bool)
      reads bids`iceless, asks`iceless
    {
      (bids.iceless, asks.iceless)
    }

    /** Where there are tombstones now. */
    ghost function Graves(): iset<Grave>
      reads bids`levels, asks`levels, bids.levels.Values, asks.levels.Values
    {
      iset g: Grave | SideOf(g.side).Buried(g.price, g.id)
    }

    /** The order rests on a level that still holds a tombstone of its own id. */
    predicate Haunted(id: OrderId)
      reads this`idMap, bids, asks, bids.levels.Values, asks.levels.Values
    {
      id in idMap && SideOf(idMap[id].side).Buried(idMap[id].price, id)
    }

    /** Where there may be tombstones after an order that is not haunted is cancelled:
        it leaves one itself unless it is the oldest of its level. */
    ghost function GravesWithout(o: Order): iset<Grave>
      reads bids, asks, bids.levels.Values, asks.levels.Values
    {
      var queue := IdsAt(SideOf(o.side).list, o.price);
      if queue != [] && queue[0] == o.id then Graves() else Graves() + iset{GraveOf(o)}
    }

    lemma HauntedIff(id: OrderId)
      ensures Haunted(id) <==> id in idMap && Grave(idMap[id].side, idMap[id].price, id) in Graves()
    {
    }

    lemma GraveIff(g: Grave)
      ensures g in Graves() <==> SideOf(g.side).Buried(g.price, g.id)
    {
    }

    /** The level of `o` still queues it although the id map does not know it. */
    ghost predicate Dangling(o: Order)
      reads this`idMap, bids, asks, bids.levels.Values, asks.levels.Values
    {
      o.id !in idMap && SideOf(o.side).Queued(o.price, o.id)
    }

    lemma DanglingIsInvalid(o: Order)
      requires Dangling(o)
      ensures !Valid()
    {
      IdsAtMembers(SideOf(o.side).list, o.price);
    }

    /** Put back on that level, which is the second half of a requeue, the id is
        queued there twice. */
    lemma PushedTwice(o: Order)
      requires Dangling(o)
      ensures var level := SideOf(o.side).levels[o.price];
        o.id in level.Ids() && Live(level.queue + [o.id], level.cancelled) == level.Ids() + [o.id]
    {
      LivePush(SideOf(o.side).levels[o.price].queue, SideOf(o.side).levels[o.price].cancelled, o.id);
    }

    constructor ()
      ensures Valid() && fresh(bids) && fresh(asks) && Levels() == {} && Graves() == iset{}
      ensures bids.list == [] && asks.list == [] && lastTradePrice == 0 && idMap == map[] && Iceless() == (true, true)
      ensures bids.spent == map[] && asks.spent == map[]
    {
      bids := new BookSide(Buy);
      asks := new BookSide(Sell);
      idMap, lastTradePrice := map[], 0;
    }

    method InsertOrder(o: Order)
      requires Valid() && o.id !in idMap
      modifies this, bids, asks, Levels()
      ensures Valid() && fresh(Levels() - old(Levels()))
      ensures bids.list == if o.side.Buy? then Insert(Buy, old(bids.list), o) else old(bids.list)
      ensures asks.list == if o.side.Sell? then Insert(Sell, old(asks.list), o) else old(asks.list)
      ensures lastTradePrice == old(lastTradePrice) && idMap == old(idMap)[o.id := o]
      ensures Graves() == old(Graves())
      ensures Haunted(o.id) <==> old(SideOf(o.side).Buried(o.price, o.id))
      ensures SideOf(o.side).iceless <==> old(SideOf(o.side).iceless) && !o.IsIceberg()
      ensures SideOf(Opp(o.side)).iceless == old(SideOf(Opp(o.side)).iceless)
      ensures SideOf(o.side).spent == Opened(old(SideOf(o.side).spent), o.price)
      ensures SideOf(Opp(o.side)).spent == old(SideOf(Opp(o.side)).spent)
      ensures forall p :: SideOf(o.side).VolumeAt(p) == old(SideOf(o.side).VolumeAt(p)) +
                if p != o.price then 0 else if o.peakQty > 0 then o.peakQty else o.quantity
    {
      hide BookSide.Valid, BookSide.Buried, BookSide.VolumeAt, Ladder.Insert;
      var side := if o.IsBuy() then bids else asks;
      var other := if o.IsBuy() then asks else bids;
      IdsInsert(o.side, idMap, side.list, other.list, o);
      side.Enqueue(o);
      idMap := idMap[o.id := o];
      other.Untouched();
    }

    lemma NotThere(id: OrderId)
      requires Valid() && id !in idMap
      ensures Remove(bids.list, id) == bids.list && Remove(asks.list, id) == asks.list && idMap - {id} == idMap
    {
      RemoveAbsent(bids.list, id);
      RemoveAbsent(asks.list, id);
    }

    lemma OrderIsThere(id: OrderId)
      requires Valid() && id in idMap
      ensures idMap[id].id == id
      ensures forall x :: (x in bids.list || x in asks.list) && x.id == id ==> x == idMap[id]
    {
    }

    /** Takes an order off the book. That works exactly when the order is not
        haunted; otherwise its id stays queued although the map forgets it. */
    method CancelOrder(id: OrderId) returns (found: bool)
      requires Valid()
      modifies this, bids, asks, Levels()
      ensures found <==> old(id in idMap)
      ensures Levels() <= old(Levels()) && lastTradePrice == old(lastTradePrice)
      ensures idMap == old(idMap) - {id}
      ensures bids.list == Remove(old(bids.list), id) && asks.list == Remove(old(asks.list), id)
      ensures found ==> var other := SideOf(Opp(old(idMap)[id].side)); other.list == old(other.list)
      ensures old(Haunted(id)) <==> !Valid()
      ensures found ==> (old(Haunted(id)) <==> Dangling(old(idMap)[id]))
      ensures found && !old(Haunted(id)) ==> var o := old(idMap)[id];
                SideOf(o.side).Buried(o.price, id) <==>
                  old(IdsAt(SideOf(idMap[id].side).list, idMap[id].price))[0] != id
      ensures found ==> var o := old(idMap)[id];
                forall p :: p != o.price ==>
                  (SideOf(o.side).Buried(p, id) <==> old(SideOf(idMap[id].side).Buried(p, id)))
      ensures !found ==> Graves() == old(Graves())
      ensures found && !old(Haunted(id)) ==> Graves() <= old(GravesWithout(idMap[id]))
      ensures Iceless() == old(Iceless())
      ensures found ==> var o := old(idMap)[id];
                SideOf(Opp(o.side)).spent == old(SideOf(Opp(idMap[id].side)).spent)
      ensures found && !old(Haunted(id)) ==> var o := old(idMap)[id];
                SideOf(o.side).spent == Kept(old(SideOf(idMap[id].side).spent), o.price, SideOf(o.side).list)
      ensures !found ==> bids.spent == old(bids.spent) && asks.spent == old(asks.spent)
      ensures found ==> var o := old(idMap)[id]; o.price in SideOf(o.side).levels ==>
                SideOf(o.side).VolumeAt(o.price) ==
                Minus(old(SideOf(idMap[id].side).VolumeAt(idMap[id].price)),
                      if o.peakQty > 0 then o.peakQty else o.quantity)
    {
      hide IdsOk, BookSide.Valid, BookSide.Buried, BookSide.Queued, BookSide.VolumeAt, Ladder.Remove, IdsAt;
      if id !in idMap {
        NotThere(id);
        return false;
      }
      OrderIsThere(id);
      var o := idMap[id];
      Forget(o);
      found := true;
    }

    /** An order rests on its own side only. */
    lemma WhereItIs(o: Order)
      requires Valid() && o.id in idMap && idMap[o.id] == o
      ensures Distinct(SideOf(o.side).list) && o in SideOf(o.side).list && o !in SideOf(Opp(o.side)).list
      ensures IdsOk(idMap, SideOf(o.side).list, SideOf(Opp(o.side)).list)
      ensures o.price in SideOf(o.side).spent
    {
    }

    /** The removal itself, for an order that is there. */
    method Forget(o: Order)
      requires Valid() && o.id in idMap && idMap[o.id] == o
      modifies this, bids, asks, Levels()
      ensures Levels() <= old(Levels()) && lastTradePrice == old(lastTradePrice)
      ensures idMap == old(idMap) - {o.id}
      ensures bids.list == Remove(old(bids.list), o.id) && asks.list == Remove(old(asks.list), o.id)
      ensures SideOf(Opp(o.side)).list == old(SideOf(Opp(o.side)).list)
      ensures old(Haunted(o.id)) <==> !Valid()
      ensures old(Haunted(o.id)) <==> Dangling(o)
      ensures !old(Haunted(o.id)) ==>
                (SideOf(o.side).Buried(o.price, o.id) <==> old(IdsAt(SideOf(o.side).list, o.price))[0] != o.id)
      ensures forall p :: p != o.price ==> (SideOf(o.side).Buried(p, o.id) <==> old(SideOf(o.side).Buried(p, o.id)))
      ensures !old(Haunted(o.id)) ==> Graves() <= old(GravesWithout(o))
      ensures Iceless() == old(Iceless())
      ensures SideOf(Opp(o.side)).spent == old(SideOf(Opp(o.side)).spent)
      ensures !old(Haunted(o.id)) ==>
                SideOf(o.side).spent == Kept(old(SideOf(o.side).spent), o.price, SideOf(o.side).list)
      ensures o.price in SideOf(o.side).levels ==>
                SideOf(o.side).VolumeAt(o.price) ==
                Minus(old(SideOf(o.side).VolumeAt(o.price)), if o.peakQty > 0 then o.peakQty else o.quantity)
    {
      hide IdsOk, BookSide.Valid, BookSide.Buried, BookSide.Queued, BookSide.VolumeAt, Ladder.Remove, IdsAt;
      var side := if o.IsBuy() then bids else asks;
      ghost var other := if o.IsBuy() then asks else bids;
      WhereItIs(o);
      IdsRemove(idMap, side.list, other.list, o);
      IdsSwap(idMap - {o.id}, Remove(side.list, o.id), other.list);
      side.Dequeue(o);
      other.Untouched();
      idMap := idMap - {o.id};
      if Dangling(o) {
        DanglingIsInvalid(o);
      }
    }

    method FindOrder(id: OrderId) returns (r: Option<Order>)
      requires Valid()
      ensures r == if Find(bids.list, id).Some? then Find(bids.list, id) else Find(asks.list, id)
      ensures r == if id in idMap then Some(idMap[id]) else None
    {
      r := if id in idMap then Some(idMap[id]) else None;
    }

    method BestBidLevel() returns (level: PriceLevel?)
      requires Valid()
      ensures level == null <==> bids.list == []
      ensures level != null ==>
                && bids.list[0].price in bids.levels && level in bids.levels.Values
                && level == bids.levels[bids.list[0].price]
                && level.price == bids.list[0].price
                && level.Valid() && level.Ids() != [] && level.Ids()[0] == bids.list[0].id
    {
      level := bids.Best();
    }

    method BestAskLevel() returns (level: PriceLevel?)
      requires Valid()
      ensures level == null <==> asks.list == []
      ensures level != null ==>
                && asks.list[0].price in asks.levels && level in asks.levels.Values
                && level == asks.levels[asks.list[0].price]
                && level.price == asks.list[0].price
                && level.Valid() && level.Ids() != [] && level.Ids()[0] == asks.list[0].id
    {
      level := asks.Best();
    }

    lemma BestIsKnown(side: Side)
      requires Valid() && SideOf(side).list != []
      ensures var best := SideOf(side).list[0]; best.id in idMap && idMap[best.id] == best && best.side == side
      ensures SideOf(side).list[0].price in SideOf(side).spent
      ensures SideOf(side).list[0].price in SideOf(side).levels
    {
    }

    /** Every level's volume is what rests there plus what was spent there: equal to
        what rests exactly when nothing was. */
    lemma VolumeBound(side: Side, p: Price)
      requires Valid() && SideOf(side).iceless && p in SideOf(side).levels
      ensures var s := SideOf(side);
        && p in s.spent && s.levels[p].totalVolume == LiveQty(s.list, p) + s.spent[p]
        && (s.levels[p].totalVolume == LiveQty(s.list, p) <==> s.spent[p] == 0)
    {
    }

    /** The id at the front of the best level of a side: that order is never haunted. */
    method FrontOf(side: Side, level: PriceLevel) returns (id: OrderId)
      requires Valid() && SideOf(side).list != []
      requires var best := SideOf(side).list[0];
        best.price in SideOf(side).levels && level == SideOf(side).levels[best.price]
      modifies level`queue, level`cancelled
      ensures Valid() && id == SideOf(side).list[0].id && !Haunted(id)
      ensures id in idMap && idMap[id] == SideOf(side).list[0]
      ensures Graves() <= old(Graves())
    {
      var s := if side.Buy? then bids else asks;
      ghost var other := if side.Buy? then asks else bids;
      assert s.list[0] in s.list;
      id := s.FrontOf(level);
      other.Untouched();
    }

    /** Overwrites a resting order without moving it. */
    method Amend(o: Order)
      requires Valid()
      requires o.id in idMap && idMap[o.id].price == o.price && idMap[o.id].side == o.side
      requires idMap[o.id].peakQty == o.peakQty && o.quantity <= idMap[o.id].quantity
      modifies this`idMap, bids`list, asks`list, bids`spent, asks`spent
      ensures Valid()
      ensures Iceless() == old(Iceless())
      ensures SideOf(o.side).spent ==
                Charged(old(SideOf(o.side).spent), o.price, old(idMap)[o.id].quantity - o.quantity)
      ensures SideOf(Opp(o.side)).spent == old(SideOf(Opp(o.side)).spent)
      ensures SideOf(o.side).list == Update(old(SideOf(o.side).list), o)
      ensures SideOf(Opp(o.side)).list == old(SideOf(Opp(o.side)).list)
      ensures idMap == old(idMap)[o.id := o]
    {
      hide IdsOk, BookSide.Valid, Ladder.Update;
      ghost var side := if o.IsBuy() then bids else asks;
      ghost var other := if o.IsBuy() then asks else bids;
      OrderIsThere(o.id);
      WhereItIs(idMap[o.id]);
      IdsUpdate(idMap, side.list, other.list, idMap[o.id], o);
      IdsSwap(idMap[o.id := o], Update(side.list, o), other.list);
      side.Amend(idMap[o.id], o);
      other.Untouched();
      idMap := idMap[o.id := o];
    }

    /** The best order of a side goes to the back of its level with a fresh slice. */
    method Rotate(o: Order, filledQty: Quantity)
      requires Valid() && SideOf(o.side).list != []
      requires var best := SideOf(o.side).list[0]; o.id == best.id && o.price == best.price && o.IsIceberg()
      modifies this`idMap, SideOf(o.side)`list, SideOf(o.side)`iceless, SideOf(o.side)`spent,
               SideOf(o.side).levels.Values
      ensures Valid() && Levels() == old(Levels()) && Graves() <= old(Graves())
      ensures SideOf(o.side).spent == Refunded(old(SideOf(o.side).spent), o.price, filledQty)
      ensures SideOf(Opp(o.side)).spent == old(SideOf(Opp(o.side)).spent)
      ensures SideOf(o.side).list == Insert(o.side, old(SideOf(o.side).list)[1..], o)
      ensures SideOf(Opp(o.side)).list == old(SideOf(Opp(o.side)).list)
      ensures !SideOf(o.side).iceless && SideOf(Opp(o.side)).iceless == old(SideOf(Opp(o.side)).iceless)
      ensures idMap == old(idMap)[o.id := o]
      ensures forall p :: SideOf(o.side).VolumeAt(p) ==
                if p == o.price then Minus(old(SideOf(o.side).VolumeAt(p)), filledQty) + o.quantity
                else old(SideOf(o.side).VolumeAt(p))
    {
      hide IdsOk, BookSide.Valid, BookSide.VolumeAt, Ladder.Insert;
      var side := if o.IsBuy() then bids else asks;
      ghost var other := if o.IsBuy() then asks else bids;
      BestIsKnown(o.side);
      WhereItIs(side.list[0]);
      IdsRotate(o.side, idMap, side.list, other.list, o);
      IdsSwap(idMap[o.id := o], Insert(o.side, side.list[1..], o), other.list);
      side.Rotate(side.levels[o.price], o, filledQty);
      other.Untouched();
      idMap := idMap[o.id := o];
    }

    /** Lowers the displayed volume of a level, if there is one. */
    method ReduceLevelVolume(side: Side, p: Price, delta: Quantity)
      requires Valid()
      requires SideOf(side).iceless && p in SideOf(side).levels ==> delta <= SideOf(side).SpentAt(p)
      modifies SideOf(side).levels.Values, SideOf(side)`spent
      ensures Valid() && Graves() == old(Graves())
      ensures forall q :: q in SideOf(side).levels ==>
                SideOf(side).levels[q].totalVolume ==
                  if q == p then Minus(old(SideOf(side).levels[p].totalVolume), delta)
                    else old(SideOf(side).levels[q].totalVolume)
      ensures SideOf(side).spent == Refunded(old(SideOf(side).spent), p, delta)
      ensures SideOf(Opp(side)).spent == old(SideOf(Opp(side)).spent)
    {
      hide IdsOk, BookSide.Valid;
      var s := if side.Buy? then bids else asks;
      ghost var other := if side.Buy? then asks else bids;
      s.ReduceVolume(p, delta);
      other.Untouched();
    }
  }

  lemma NothingHaunted(book: OrderBook, id: OrderId)
    requires book.Valid() && book.Graves() == iset{}
    ensures !book.Haunted(id)
  {
    book.HauntedIff(id);
  }
}
