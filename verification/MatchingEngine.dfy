/** The recursive matching engine over the lazy book. Every method is proved
    against the reference machine: the configuration before the call and the one
    after it run to the same end, whatever activities (`below`) and earlier
    results (`done`) the call is nested in. */
module MatchingEngines {
  import opened Orders
  import opened Ladder
  import opened PriceLevels
  import opened BookSides
  import opened OrderBooks
  import opened Matcher
  import opened Volumes
  import opened Spending
  import opened Census
  import opened Everywhere
  import opened Clearance
  import opened Leading

  class MatchingEngine {
    const book: OrderBook
    var pendingStops: seq<Order>
    var sequence: nat
    // how many events brought an id bound for a level that still held a tombstone of it
    ghost var revisits: nat

    ghost predicate Valid()
      reads book`idMap, book.bids, book.asks, book.bids.levels.Values, book.asks.levels.Values
    {
      book.Valid()
    }

    /** The eager state this engine stands for. */
    ghost function St(): State
      reads this`pendingStops, book`lastTradePrice, book.bids`list, book.asks`list
    {
      State(book.bids.list, book.asks.list, book.lastTradePrice, pendingStops)
    }

    /** What was spent on the levels of the book. */
    ghost function Spent(): Ledger
      reads book.bids`spent, book.asks`spent
    {
      Ledger(book.bids.spent, book.asks.spent)
    }

    ghost function Past(): History
      reads book.bids`levels, book.asks`levels, book.bids.levels.Values, book.asks.levels.Values
      reads book.bids`iceless, book.asks`iceless, book.bids`spent, book.asks`spent
    {
      History(book.Graves(), book.bids.iceless && book.asks.iceless, Spent())
    }

    ghost function At(stack: Stack, out: MatchResult): Config
      reads this, book, book.bids, book.asks
    {
      Config(St(), stack, out)
    }

    /** `a` is looking for counterparties on top of `below`. */
    ghost function Seeking(a: Order, below: Stack, out: MatchResult): Config
      reads this, book, book.bids, book.asks
    {
      At(Push(Matching(a), below), out)
    }

    ghost function Judging(price: Price, working: seq<Order>, below: Stack, out: MatchResult): Config
      reads this, book, book.bids, book.asks
    {
      At(Push(Evaluating(price, working), below), out)
    }

    constructor ()
      ensures Valid() && St() == EMPTY_STATE && sequence == 0 && revisits == 0 && book.idMap == map[]
      ensures Past() == History(iset{}, true, EMPTY_LEDGER)
      ensures fresh(book) && fresh(book.bids) && fresh(book.asks) && fresh(book.Levels())
    {
      book := new OrderBook();
      pendingStops, sequence, revisits := [], 0, 0;
    }

    // ---- matching ---------------------------------------------------------------

    method ExecuteFill(aggressor: Order, passiveId: OrderId, fillQty: Quantity, result: MatchResult,
                       ghost below: Stack, ghost done: MatchResult)
      returns (a: Order, r: MatchResult)
      requires Valid() && CanFill(St(), aggressor)
      requires passiveId == OnSide(St(), Opp(aggressor.side))[0].id && fillQty == FillQty(St(), aggressor)
      requires Unique(Seeking(aggressor, below, Merge(done, result)))
      requires passiveId in book.idMap && !book.Haunted(passiveId)
      modifies this`pendingStops, book, book.bids, book.asks, book.Levels()
      ensures Valid() && fresh(book.Levels() - old(book.Levels()))
      ensures a == aggressor.(quantity := aggressor.quantity - fillQty)
      ensures Leads(old(Seeking(aggressor, below, Merge(done, result))), old(Past()),
                    Seeking(a, below, Merge(done, r)), Past())
      ensures Steps(Seeking(a, below, Merge(done, r))) < Steps(old(Seeking(aggressor, below, Merge(done, result))))
      decreases Steps(Seeking(aggressor, below, Merge(done, result))), 0
    {
      hide Run, Steps, Unique, Leads, StartEvaluation, Traded, FillQty, StepSpends, OrderBook.Valid, OrderBook.Graves,
           OrderBook.Haunted;
      ghost var c, b := Seeking(aggressor, below, Merge(done, result)), Past();
      FillLeads(c, aggressor, below, b, b.graves);
      a, r := SettleFill(aggressor, passiveId, fillQty, result, below, done);
      ghost var d, b' := StartEvaluation(Seeking(a, below, Merge(done, r))), Past();
      LeadsUnique(c, b, d, b');
      r := EvaluateStopTriggers(r, Push(Matching(a), below), done);
      LeadsOn(c, b, d, b', Seeking(a, below, Merge(done, r)), Past());
    }

    /** The fill itself: both quantities, the last price, the trade, and the
        passive order's place in the book. */
    method SettleFill(aggressor: Order, passiveId: OrderId, fillQty: Quantity, result: MatchResult,
                      ghost below: Stack, ghost done: MatchResult)
      returns (a: Order, r: MatchResult)
      requires Valid() && CanFill(St(), aggressor)
      requires passiveId == OnSide(St(), Opp(aggressor.side))[0].id && fillQty == FillQty(St(), aggressor)
      requires passiveId in book.idMap && !book.Haunted(passiveId)
      modifies book, book.bids, book.asks, book.Levels()
      ensures Valid() && book.Levels() <= old(book.Levels())
      ensures a == aggressor.(quantity := aggressor.quantity - fillQty)
      ensures Seeking(a, below, Merge(done, r)) ==
                old(Traded(Seeking(aggressor, below, Merge(done, result)), aggressor, below))
      ensures Leads(old(Seeking(aggressor, below, Merge(done, result))), old(Past()),
                    StartEvaluation(Seeking(a, below, Merge(done, r))), Past())
    {
      hide Run, Steps, Reaches, RunSpends, Unique, Leads, StartEvaluation, OrderBook.Valid, OrderBook.Graves, AfterFill;
      ghost var c := Seeking(aggressor, below, Merge(done, result));
      book.BestIsKnown(Opp(aggressor.side));
      var passive := book.idMap[passiveId];
      ghost var b := Past();
      a := aggressor.(quantity := aggressor.quantity - fillQty);
      r := AddTrade(result, Trade(a.id, passiveId, passive.price, fillQty, a.side));
      SettlePassive(passive, fillQty);
      FillLeads(c, aggressor, below, b, Past().graves);
    }

    /** The passive order gives up its part: it stays in front, goes to the back with
        a fresh slice, or leaves the book. */
    method SettlePassive(best: Order, fillQty: Quantity)
      requires Valid() && best.id in book.idMap && book.idMap[best.id] == best && !book.Haunted(best.id)
      requires book.SideOf(best.side).list != [] && book.SideOf(best.side).list[0] == best && fillQty <= best.quantity
      modifies book, book.bids, book.asks, book.Levels()
      ensures Valid() && book.Levels() <= old(book.Levels())
      ensures book.SideOf(best.side).list == AfterFill(best.side, old(book.SideOf(best.side).list), fillQty)
      ensures book.SideOf(Opp(best.side)).list == old(book.SideOf(Opp(best.side)).list)
      ensures book.lastTradePrice == best.price
      ensures book.Graves() <= if UsedUp(best, fillQty) then old(book.Graves()) + iset{GraveOf(best)}
                else old(book.Graves())
      ensures book.Iceless() == old(book.Iceless())
      ensures var side := book.SideOf(best.side);
        Spent() == WithLedger(old(Spent()), best.side, FillSpends(old(side.spent), best, fillQty, side.list))
    {
      hide OrderBook.Valid, BookSide.Valid, BookSide.Buried, Insert, Ladder.Update, Ladder.Remove;
      WorksOnHead(best);
      var passive := best.(quantity := best.quantity - fillQty);
      HeadAmended(book.SideOf(passive.side).list, passive);
      ChargedAndRefunded(book.SideOf(best.side).spent, best.price, fillQty);
      book.Amend(passive);
      book.lastTradePrice := passive.price;
      PlaceAfterFill(passive, fillQty);
    }

    lemma WorksOnHead(best: Order)
      requires Valid() && book.SideOf(best.side).list != [] && book.SideOf(best.side).list[0] == best
      ensures book.SideOf(best.side).iceless ==> !best.IsIceberg()
      ensures best.price in book.SideOf(best.side).spent
    {
    }

    /** The filled order stays in front with what is left of it, goes to the back of
        its level with a fresh slice, or leaves the book. In the last case what it
        just lost stays in the volume of its level. */
    method PlaceAfterFill(passive: Order, fillQty: Quantity)
      requires Valid() && passive.id in book.idMap && book.idMap[passive.id] == passive && !book.Haunted(passive.id)
      requires book.SideOf(passive.side).list != [] && book.SideOf(passive.side).list[0] == passive
      requires book.SideOf(passive.side).iceless ==> fillQty <= book.SideOf(passive.side).SpentAt(passive.price)
      modifies book, book.bids, book.asks, book.Levels()
      ensures Valid() && book.Levels() <= old(book.Levels())
      ensures book.SideOf(passive.side).list ==
              if passive.quantity > 0 then old(book.SideOf(passive.side).list)
              else if UsedUp(passive, 0) then old(book.SideOf(passive.side).list)[1..]
              else Insert(passive.side, old(book.SideOf(passive.side).list)[1..], Replenished(passive))
      ensures book.SideOf(Opp(passive.side)).list == old(book.SideOf(Opp(passive.side)).list)
      ensures book.lastTradePrice == old(book.lastTradePrice)
      ensures book.Graves() <= if UsedUp(passive, 0) then old(book.Graves()) + iset{GraveOf(passive)}
                else old(book.Graves())
      ensures book.Iceless() == old(book.Iceless())
      ensures var side := book.SideOf(passive.side);
        && side.spent == (if UsedUp(passive, 0) then Kept(old(side.spent), passive.price, side.list)
                          else Refunded(old(side.spent), passive.price, fillQty))
        && book.SideOf(Opp(passive.side)).spent == old(book.SideOf(Opp(passive.side)).spent)
    {
      hide OrderBook.Valid, BookSide.Valid, BookSide.Buried, Insert;
      WorksOnHead(passive);
      if passive.quantity == 0 && passive.IsIceberg() && passive.reserveQty > 0 {
        ReplenishIceberg(passive, fillQty);
      } else if passive.quantity == 0 {
        var gone := book.CancelOrder(passive.id);
      } else {
        book.ReduceLevelVolume(passive.side, passive.price, fillQty);
      }
    }

    method ReplenishIceberg(passive: Order, filledQty: Quantity)
      requires Valid() && book.SideOf(passive.side).list != [] && book.SideOf(passive.side).list[0] == passive
      requires passive.IsIceberg()
      modifies book`idMap, book.SideOf(passive.side)`list, book.SideOf(passive.side)`iceless,
               book.SideOf(passive.side)`spent
      modifies book.SideOf(passive.side).levels.Values
      ensures book.Graves() <= old(book.Graves())
      ensures book.SideOf(passive.side).spent ==
                Refunded(old(book.SideOf(passive.side).spent), passive.price, filledQty)
      ensures book.SideOf(Opp(passive.side)).spent == old(book.SideOf(Opp(passive.side)).spent)
      ensures Valid() && book.Levels() == old(book.Levels())
      ensures book.SideOf(passive.side).list ==
              Insert(passive.side, old(book.SideOf(passive.side).list)[1..], Replenished(passive))
      ensures book.SideOf(Opp(passive.side)).list == old(book.SideOf(Opp(passive.side)).list)
      ensures !book.SideOf(passive.side).iceless
      ensures book.SideOf(Opp(passive.side)).iceless == old(book.SideOf(Opp(passive.side)).iceless)
      ensures var next := if passive.reserveQty < passive.peakQty then passive.reserveQty else passive.peakQty;
        forall p :: book.SideOf(passive.side).VolumeAt(p) ==
          if p == passive.price then Minus(old(book.SideOf(passive.side).VolumeAt(p)), filledQty) + next
          else old(book.SideOf(passive.side).VolumeAt(p))
    {
      hide OrderBook.Valid, BookSide.Valid, BookSide.VolumeAt, Insert;
      var newPeak := Min(passive.peakQty, passive.reserveQty);
      var o := passive.(reserveQty := passive.reserveQty - newPeak, quantity := newPeak);
      book.Rotate(o, filledQty);
    }

    /** One fill against the front of the best opposite level. */
    method FillBest(level: PriceLevel, order: Order, result: MatchResult, ghost below: Stack, ghost done: MatchResult)
      returns (a: Order, r: MatchResult)
      requires Valid() && CanFill(St(), order)
      requires level in book.Levels()
      requires var best := OnSide(St(), Opp(order.side))[0].price; var levels := book.SideOf(Opp(order.side)).levels;
        best in levels && level == levels[best]
      requires Unique(Seeking(order, below, Merge(done, result)))
      modifies this`pendingStops, book, book.bids, book.asks, book.Levels()
      ensures Valid() && fresh(book.Levels() - old(book.Levels()))
      ensures a == order.(quantity := a.quantity)
      ensures Leads(old(Seeking(order, below, Merge(done, result))), old(Past()),
                    Seeking(a, below, Merge(done, r)), Past())
      ensures Unique(Seeking(a, below, Merge(done, r)))
      ensures Steps(Seeking(a, below, Merge(done, r))) < Steps(old(Seeking(order, below, Merge(done, result))))
      decreases Steps(Seeking(order, below, Merge(done, result))), 1
    {
      hide Run, Steps, Reaches, RunSpends, Unique, Leads, StartEvaluation, OrderBook.Valid, OrderBook.Graves;
      ghost var c, b := Seeking(order, below, Merge(done, result)), Past();
      var passiveId := book.FrontOf(Opp(order.side), level);
      ghost var graves := Past().graves;
      var passive := book.idMap[passiveId];
      var fillQty := Min(order.quantity, passive.quantity);
      a, r := ExecuteFill(order, passiveId, fillQty, result, below, done);
      DrainLeads(c, b, graves, Seeking(a, below, Merge(done, r)), Past());
      LeadsUnique(c, b, Seeking(a, below, Merge(done, r)), Past());
    }

    /** The best level an aggressor could match against. */
    method BestOpposite(a: Order) returns (level: PriceLevel?)
      requires Valid()
      ensures var side := book.SideOf(Opp(a.side));
        && (level == null <==> side.list == [])
        && (level != null ==>
              && side.list[0].price in side.levels && level == side.levels[side.list[0].price] && level in book.Levels()
              && level.price == side.list[0].price)
    {
      hide OrderBook.Valid;
      if a.IsBuy() {
        level := book.BestAskLevel();
      } else {
        level := book.BestBidLevel();
      }
    }

    /** Goes on until the order is filled or nothing opposite is within its limit. The
        machine has then come to where it settles the order as it is, `last`. */
    method MatchLimit(order: Order, result: MatchResult, ghost below: Stack, ghost done: MatchResult)
      returns (a: Order, r: MatchResult, ghost last: Order)
      requires Valid() && !order.kind.Market?
      requires Unique(Seeking(order, below, Merge(done, result)))
      modifies this`pendingStops, book, book.bids, book.asks, book.Levels()
      ensures Valid() && fresh(book.Levels() - old(book.Levels()))
      ensures last == order.(quantity := last.quantity) && !CanFill(St(), last) && a == Settled(last)
      ensures Leads(old(Seeking(order, below, Merge(done, result))), old(Past()),
                    Seeking(last, below, Merge(done, r)), Past())
      decreases Steps(Seeking(order, below, Merge(done, result))), 2
    {
      hide Run, Steps, Reaches, RunSpends, Unique, Leads, OrderBook.Valid, OrderBook.Graves;
      a, r := order, result;
      ghost var c, b := Seeking(order, below, Merge(done, result)), Past();
      LeadsNowhere(c, b);
      while a.quantity > 0
        invariant Valid() && fresh(book.Levels() - old(book.Levels()))
        invariant a == order.(quantity := a.quantity)
        invariant Leads(c, b, Seeking(a, below, Merge(done, r)), Past())
        invariant Unique(Seeking(a, below, Merge(done, r))) && Steps(Seeking(a, below, Merge(done, r))) <= Steps(c)
        decreases Steps(Seeking(a, below, Merge(done, r)))
      {
        var level := BestOpposite(a);
        if level == null {
          break;
        }
        if a.IsBuy() && level.price > a.price {
          break;
        }
        if a.IsSell() && level.price < a.price {
          break;
        }
        ghost var d, b' := Seeking(a, below, Merge(done, r)), Past();
        a, r := FillBest(level, a, r, below, done);
        LeadsOn(c, b, d, b', Seeking(a, below, Merge(done, r)), Past());
      }
      last := a;
      if a.quantity == 0 {
        a := a.(status := Filled);
      }
    }

    method MatchMarket(order: Order, result: MatchResult, ghost below: Stack, ghost done: MatchResult)
      returns (r: MatchResult)
      requires Valid() && order.kind.Market?
      requires Unique(Seeking(order, below, Merge(done, result)))
      modifies this`pendingStops, book, book.bids, book.asks, book.Levels()
      ensures Valid() && fresh(book.Levels() - old(book.Levels()))
      ensures Leads(old(Seeking(order, below, Merge(done, result))), old(Past()),
                    At(below, Merge(done, r)), Past())
      decreases Steps(Seeking(order, below, Merge(done, result))), 2
    {
      hide Run, Steps, Reaches, RunSpends, Unique, Leads, OrderBook.Valid, OrderBook.Graves;
      var a := order;
      r := result;
      ghost var c, b := Seeking(order, below, Merge(done, result)), Past();
      LeadsNowhere(c, b);
      while a.quantity > 0
        invariant Valid() && fresh(book.Levels() - old(book.Levels()))
        invariant a == order.(quantity := a.quantity)
        invariant Leads(c, b, Seeking(a, below, Merge(done, r)), Past())
        invariant Unique(Seeking(a, below, Merge(done, r))) && Steps(Seeking(a, below, Merge(done, r))) <= Steps(c)
        decreases Steps(Seeking(a, below, Merge(done, r)))
      {
        var level := BestOpposite(a);
        if level == null {
          MarketDoneLeads(St(), a, below, Merge(done, r), Past());
          assert Merge(done, AddRejection(r, Exhausted(a))) == AddRejection(Merge(done, r), Exhausted(a));
          LeadsOn(c, b, Seeking(a, below, Merge(done, r)), Past(),
            At(below, AddRejection(Merge(done, r), Exhausted(a))), Past());
          r := AddRejection(r, Rejection(a.id, MarketExhausted, 0));
          return;
        }
        ghost var d, b' := Seeking(a, below, Merge(done, r)), Past();
        a, r := FillBest(level, a, r, below, done);
        LeadsOn(c, b, d, b', Seeking(a, below, Merge(done, r)), Past());
      }
      MarketDoneLeads(St(), a, below, Merge(done, r), Past());
      LeadsOn(c, b, Seeking(a, below, Merge(done, r)), Past(), At(below, Merge(done, r)), Past());
    }

    // ---- stops ------------------------------------------------------------------

    method EvaluateStopTriggers(result: MatchResult, ghost below: Stack, ghost done: MatchResult)
      returns (r: MatchResult)
      requires Valid() && Unique(StartEvaluation(At(below, Merge(done, result))))
      modifies this`pendingStops, book, book.bids, book.asks, book.Levels()
      ensures Valid() && fresh(book.Levels() - old(book.Levels()))
      ensures Leads(old(StartEvaluation(At(below, Merge(done, result)))), old(Past()),
                    At(below, Merge(done, r)), Past())
      decreases Steps(StartEvaluation(At(below, Merge(done, result)))), 6
    {
      hide Run, Steps, Reaches, RunSpends, Unique, Every, Clear, NO_PEAK, NotedIn, Leads, OrderBook.Valid,
           OrderBook.Graves, OrderBook.Iceless, OrderBook.Haunted, Launch;
      r := result;
      LeadsNowhere(StartEvaluation(At(below, Merge(done, result))), Past());
      if pendingStops == [] {
        return;
      }
      var lastPrice := book.lastTradePrice;
      if lastPrice == 0 {
        return;
      }
      ghost var c, b := StartEvaluation(At(below, Merge(done, result))), Past();
      var working := pendingStops;
      pendingStops := [];
      assert working[0..] == working;
      for i := 0 to |working|
        invariant Valid() && fresh(book.Levels() - old(book.Levels()))
        invariant Leads(c, b, Judging(lastPrice, working[i..], below, Merge(done, r)), Past())
      {
        ghost var d := Judging(lastPrice, working[i..], below, Merge(done, r));
        ghost var now := Past();
        StepLeads(d, now);
        LeadsOn(c, b, d, now, Step(d), now);
        LeadsUnique(c, b, Step(d), now);
        assert working[i..][1..] == working[i + 1..];
        var stop := working[i];
        var triggered := false;
        if stop.IsBuy() && lastPrice >= stop.stopPrice {
          triggered := true;
        }
        if stop.IsSell() && lastPrice <= stop.stopPrice {
          triggered := true;
        }
        if triggered {
          r := ProcessTriggeredStop(stop, r, Push(Evaluating(lastPrice, working[i + 1..]), below), done);
          LeadsOn(c, b, Step(d), now, Judging(lastPrice, working[i + 1..], below, Merge(done, r)), Past());
        } else {
          pendingStops := pendingStops + [stop];
        }
      }
      ghost var d := Judging(lastPrice, [], below, Merge(done, r));
      StepLeads(d, Past());
      LeadsOn(c, b, d, Past(), At(below, Merge(done, r)), Past());
    }

    method ProcessTriggeredStop(stop: Order, result: MatchResult, ghost below: Stack, ghost done: MatchResult)
      returns (r: MatchResult)
      requires Valid() && Unique(Launch(At(below, Merge(done, result)), Converted(stop)))
      modifies this`pendingStops, book, book.bids, book.asks, book.Levels()
      ensures Valid() && fresh(book.Levels() - old(book.Levels()))
      ensures Leads(old(Launch(At(below, Merge(done, result)), Converted(stop))), old(Past()),
                    At(below, Merge(done, r)), Past())
      decreases Steps(Launch(At(below, Merge(done, result)), Converted(stop))), 4
    {
      hide Run, Steps, Reaches, RunSpends, Unique, Leads, OrderBook.Valid, OrderBook.Graves;
      var converted := stop.(status := Triggered);
      if stop.kind.Stop? {
        converted := converted.(kind := Market, price := 0);
      } else {
        converted := converted.(kind := Limit);
      }
      var sub := ProcessNewOrder(converted, below, Merge(done, result));
      MergeAssociative(done, result, sub);
      r := Merge(result, sub);
    }

    // ---- new orders -------------------------------------------------------------

    method ProcessNewOrder(e: Order, ghost below: Stack, ghost done: MatchResult) returns (r: MatchResult)
      requires Valid() && Admissible(e) && Unique(Launch(At(below, done), e))
      modifies this`pendingStops, book, book.bids, book.asks, book.Levels()
      ensures Valid() && fresh(book.Levels() - old(book.Levels()))
      ensures Leads(old(Launch(At(below, done), e)), old(Past()), At(below, Merge(done, r)), Past())
      decreases Steps(Launch(At(below, done), e)), if e.IsStop() then 5 else 3
    {
      hide Run, Steps, Unique, Leads, OrderBook.Valid, OrderBook.Graves, OrderBook.Iceless, OrderBook.Haunted;
      r := EMPTY_RESULT;
      MergeAssociative(done, EMPTY_RESULT, EMPTY_RESULT);
      var order := e.(status := OrderStatus.Resting);
      ghost var c, b := Launch(At(below, done), e), Past();
      ghost var last: Order, d: Config, b': History;
      if order.kind.Limit? {
        order, r, last := MatchLimit(order, r, below, done);
        d, b' := Seeking(last, below, Merge(done, r)), Past();
        LeadsUnique(c, b, d, b');
        RestOrder(order, last, r, below, done);
        LeadsOn(c, b, d, b', At(below, Merge(done, r)), Past());
      } else if order.kind.Market? {
        r := MatchMarket(order, r, below, done);
      } else if order.IsStop() {
        var immediatelyTriggered := false;
        if order.IsBuy() && book.lastTradePrice != 0 && book.lastTradePrice >= order.stopPrice {
          immediatelyTriggered := true;
        }
        if order.IsSell() && book.lastTradePrice != 0 && book.lastTradePrice <= order.stopPrice {
          immediatelyTriggered := true;
        }
        if immediatelyTriggered {
          r := ProcessTriggeredStop(order, r, below, done);
        } else {
          pendingStops := pendingStops + [order];
          LeadsNowhere(c, b);
        }
      } else {
        order := order.(reserveQty := order.quantity - order.peakQty, quantity := order.peakQty);
        order, r, last := MatchLimit(order, r, below, done);
        d, b' := Seeking(last, below, Merge(done, r)), Past();
        LeadsUnique(c, b, d, b');
        RestOrder(order, last, r, below, done);
        LeadsOn(c, b, d, b', At(below, Merge(done, r)), Past());
      }
    }

    /** What is left of a limit order or an iceberg joins the book. */
    method RestOrder(order: Order, ghost last: Order, ghost r: MatchResult, ghost below: Stack, ghost done: MatchResult)
      requires Valid() && !last.kind.Market? && !CanFill(St(), last) && order == Settled(last)
      requires Unique(Seeking(last, below, Merge(done, r)))
      modifies book, book.bids, book.asks, book.Levels()
      ensures Valid() && fresh(book.Levels() - old(book.Levels()))
      ensures Leads(old(Seeking(last, below, Merge(done, r))), old(Past()), At(below, Merge(done, r)), Past())
    {
      ghost var c := Seeking(last, below, Merge(done, r));
      hide Unique, Leads, BookSide.Valid, BookSide.Buried, OrderBook.Haunted, OrderBook.Graves, Insert, Opened, CanFill;
      RestLeads(c, last, below, Past());
      NotOnBook(c, last, below);
      if order.quantity > 0 || (order.kind.Iceberg? && order.reserveQty > 0) {
        book.InsertOrder(order);
      }
    }

    // ---- cancel, modify, replace ------------------------------------------------

    /** The event's request can be carried out on this book: the order it takes
        off the book, if any, is not haunted. */
    ghost predicate Serves(e: Event)
      reads this`pendingStops, book, book.bids, book.asks, book.bids.levels.Values, book.asks.levels.Values
    {
      Evicts(St(), e) ==> !book.Haunted(Subject(e))
    }

    /** Requeueing the order haunts it: it returns to its own level from behind
        another order, or to a level that still holds an older tombstone of it. */
    ghost predicate HauntedByRequeue(o: Order, newPrice: Price)
      requires Valid() && o.id in book.idMap && book.idMap[o.id] == o
      reads this`pendingStops, book, book.bids, book.asks, book.bids.levels.Values, book.asks.levels.Values
    {
      if newPrice != o.price then book.SideOf(o.side).Buried(newPrice, o.id)
      else IdsAt(OnSide(St(), o.side), o.price)[0] != o.id
    }

    method ProcessCancel(id: OrderId, timestamp: Timestamp) returns (r: MatchResult)
      requires Valid() && UniqueIds(St()) && Serves(CancelOrder(id, timestamp))
      modifies this`pendingStops, book, book.bids, book.asks, book.Levels()
      ensures Valid() && fresh(book.Levels() - old(book.Levels()))
      ensures (St(), r) == Cancel(old(St()), id, timestamp)
      ensures forall x :: x in r.reports ==>
                x.orderId == id && x.status == OrderStatus.Cancelled && x.timestamp == timestamp
      ensures book.Graves() <= if old(Evicts(St(), CancelOrder(id, timestamp)))
                               then old(book.GravesWithout(Lookup(St(), id).value)) else old(book.Graves())
      ensures Spent() == SubmitSpends(old(St()), old(Spent()), CancelOrder(id, timestamp))
      ensures book.Iceless() == old(book.Iceless())
    {
      hide OrderBook.Valid, OrderBook.Graves, OrderBook.GravesWithout, OrderBook.Haunted, Ladder.Remove, UniqueIds,
           Withdraw, WithdrawSpends;
      ghost var st := St();
      for i := 0 to |pendingStops|
        invariant St() == st && forall j :: 0 <= j < i ==> pendingStops[j].id != id
      {
        if pendingStops[i].id == id {
          FindAt(pendingStops, id, i);
          r := MatchResult([], [Report(id, Cancelled, pendingStops[i].quantity, timestamp)], []);
          pendingStops := pendingStops[..i] + pendingStops[i + 1..];
          return;
        }
      }
      var found := book.FindOrder(id);
      if found.None? {
        return MatchResult([], [], [Rejection(id, OrderNotFound, timestamp)]);
      }
      if !found.value.IsResting() {
        return MatchResult([], [], [Rejection(id, OrderNotCancellable, timestamp)]);
      }
      Evict(id);
      r := MatchResult([], [Report(id, Cancelled, found.value.quantity, timestamp)], []);
    }

    /** Takes an order that is not haunted off the book. */
    method Evict(id: OrderId)
      requires Valid() && id in book.idMap && !book.Haunted(id)
      modifies book, book.bids, book.asks, book.Levels()
      ensures Valid() && book.Levels() <= old(book.Levels()) && book.idMap == old(book.idMap) - {id}
      ensures St() == Withdraw(old(St()), id)
      ensures book.Graves() <= old(book.GravesWithout(book.idMap[id]))
      ensures Spent() == WithdrawSpends(old(St()), old(Spent()), old(book.idMap[id]))
      ensures book.Iceless() == old(book.Iceless())
    {
      hide OrderBook.Valid, OrderBook.Graves, OrderBook.GravesWithout, OrderBook.Haunted, BookSide.Buried,
           Ladder.Remove, Kept, IdsAt;
      book.OrderIsThere(id);
      var gone := book.CancelOrder(id);
    }

    lemma NotAnIceberg(o: Order)
      requires Valid() && o.id in book.idMap && book.idMap[o.id] == o
      ensures book.SideOf(o.side).iceless ==> !o.IsIceberg()
    {
      book.WhereItIs(o);
    }

    /** Cancel and reinsert: the order gives up its place in the queue. */
    method Requeue(ghost was: Order, order: Order)
      requires Valid() && was.id in book.idMap && book.idMap[was.id] == was && !book.Haunted(was.id)
      requires order.id == was.id && order.side == was.side && order.peakQty == was.peakQty
      modifies book, book.bids, book.asks, book.Levels()
      ensures Valid() && fresh(book.Levels() - old(book.Levels()))
      ensures St() == Place(Withdraw(old(St()), was.id), order)
      ensures book.Haunted(was.id) <==> old(HauntedByRequeue(was, order.price))
      ensures book.Graves() <= old(book.GravesWithout(was))
      ensures Spent() == PlaceSpends(WithdrawSpends(old(St()), old(Spent()), was), order)
      ensures book.Iceless() == old(book.Iceless())
    {
      hide OrderBook.Valid, OrderBook.Graves, OrderBook.GravesWithout, BookSide.Buried, Ladder.Remove, Ladder.Insert,
           Kept, Opened;
      NotAnIceberg(was);
      var ok := book.CancelOrder(order.id);
      book.InsertOrder(order);
    }

    method ProcessModify(id: OrderId, newPrice: Price, newQuantity: Quantity, timestamp: Timestamp)
      returns (r: MatchResult)
      requires Valid() && UniqueIds(St()) && Serves(ModifyOrder(id, newPrice, newQuantity, timestamp))
      modifies book, book.bids, book.asks, book.Levels()
      ensures Valid() && fresh(book.Levels() - old(book.Levels()))
      ensures (St(), r) == Modify(old(St()), id, newPrice, newQuantity, timestamp)
      ensures book.Graves() <= if old(Evicts(St(), ModifyOrder(id, newPrice, newQuantity, timestamp)))
                               then old(book.GravesWithout(Lookup(St(), id).value)) else old(book.Graves())
      ensures Spent() == SubmitSpends(old(St()), old(Spent()), ModifyOrder(id, newPrice, newQuantity, timestamp))
      ensures book.Iceless() == old(book.Iceless())
      ensures old(Evicts(St(), ModifyOrder(id, newPrice, newQuantity, timestamp))) ==>
                (book.Haunted(id) <==>
                  old(var o := Lookup(St(), id).value;
                      HauntedByRequeue(o, if newPrice != 0 then newPrice else o.price)))
    {
      hide OrderBook.Valid, OrderBook.Graves, OrderBook.GravesWithout, Ladder.Update, OrderBook.Haunted, UniqueIds,
           Place, Withdraw, PlaceSpends, WithdrawSpends;
      r := EMPTY_RESULT;
      var found := book.FindOrder(id);
      if found.None? || !found.value.IsResting() {
        var reason := if found.None? then OrderNotFound else OrderNotCancellable;
        return MatchResult([], [], [Rejection(id, reason, 0)]);
      }
      var order := found.value;
      var priceChanged := newPrice != 0 && newPrice != order.price;
      var qtyIncreased := newQuantity != 0 && newQuantity > order.quantity;
      if priceChanged || qtyIncreased {
        ghost var was := order;
        if newPrice != 0 {
          order := order.(price := newPrice);
        }
        if newQuantity != 0 {
          order := order.(quantity := newQuantity);
        }
        order := order.(timestamp := timestamp);
        Requeue(was, order);
      } else if newQuantity != 0 && newQuantity < order.quantity {
        ReduceQuantity(order, newQuantity);
      }
    }

    /** Takes quantity off a resting order, which keeps its place. */
    method ReduceQuantity(order: Order, newQuantity: Quantity)
      requires Valid() && order.id in book.idMap && book.idMap[order.id] == order && newQuantity < order.quantity
      modifies book, book.bids, book.asks, book.Levels()
      ensures Valid() && book.Levels() == old(book.Levels())
      ensures book.Graves() == old(book.Graves()) && book.Iceless() == old(book.Iceless()) && Spent() == old(Spent())
      ensures var o := order.(quantity := newQuantity);
        St() == WithSide(old(St()), o.side, Update(OnSide(old(St()), o.side), o))
    {
      hide OrderBook.Valid, BookSide.Valid, Ladder.Update;
      var delta := order.quantity - newQuantity;
      book.WhereItIs(order);
      ChargedAndRefunded(book.SideOf(order.side).spent, order.price, delta);
      book.Amend(order.(quantity := newQuantity));
      book.ReduceLevelVolume(order.side, order.price, delta);
    }

    /** A cancel on an engine at rest. */
    method ServeCancel(id: OrderId, timestamp: Timestamp) returns (r: MatchResult)
      requires Valid() && UniqueIds(St()) && Serves(CancelOrder(id, timestamp))
      modifies this`pendingStops, book, book.bids, book.asks, book.Levels()
      ensures Valid() && fresh(book.Levels() - old(book.Levels()))
      ensures (St(), r) == Cancel(old(St()), id, timestamp) && UniqueIds(St())
      ensures Spent() == SubmitSpends(old(St()), old(Spent()), CancelOrder(id, timestamp))
      ensures book.Iceless() == old(book.Iceless())
      ensures old(Clean()) ==> Clean()
      ensures forall visited :: old(Within(visited)) ==> Within(visited)
    {
      hide UniqueIds, OrderBook.Valid, OrderBook.Graves, OrderBook.Haunted, Cancel, SubmitSpends, AllState, Clear,
           NotedIn;
      ghost var st, e, graves := St(), CancelOrder(id, timestamp), book.Graves();
      CancelUnique(st, id, timestamp);
      r := ProcessCancel(id, timestamp);
      if AllState(st, Clear(graves)) {
        CancelClear(st, e, graves, book.Graves());
      }
      forall visited | AllState(st, NotedIn(visited)) && graves <= visited ensures Within(visited) {
        WithdrawNoted(st, id, visited);
        UnlaunchedNoted(st, e, visited);
      }
    }

    /** A modify on an engine at rest. */
    method ServeModify(id: OrderId, newPrice: Price, newQuantity: Quantity, timestamp: Timestamp)
      returns (r: MatchResult)
      requires Valid() && UniqueIds(St()) && Serves(ModifyOrder(id, newPrice, newQuantity, timestamp))
      modifies this`pendingStops, book, book.bids, book.asks, book.Levels()
      ensures Valid() && fresh(book.Levels() - old(book.Levels()))
      ensures (St(), r) == Modify(old(St()), id, newPrice, newQuantity, timestamp) && UniqueIds(St())
      ensures Spent() == SubmitSpends(old(St()), old(Spent()), ModifyOrder(id, newPrice, newQuantity, timestamp))
      ensures book.Iceless() == old(book.Iceless())
      ensures old(Clean() && !Revisits(ModifyOrder(id, newPrice, newQuantity, timestamp))) ==> Clean()
      ensures var e := ModifyOrder(id, newPrice, newQuantity, timestamp);
        forall visited :: old(Within(visited)) && PlacesOfEvent(old(St()), e) <= visited ==> Within(visited)
    {
      hide UniqueIds, OrderBook.Valid, OrderBook.Graves, OrderBook.Haunted, Modify, SubmitSpends, AllState, Clear,
           Sided, NotedIn, PlacesOf;
      ghost var e := ModifyOrder(id, newPrice, newQuantity, timestamp);
      ghost var st, graves, again := St(), book.Graves(), Revisits(e);
      ghost var left := if Evicts(st, e) then book.GravesWithout(Lookup(st, id).value) else graves;
      BookIsSided();
      ModifyUnique(st, id, newPrice, newQuantity, timestamp);
      r := ProcessModify(id, newPrice, newQuantity, timestamp);
      if AllState(st, Clear(graves)) && !again {
        ModifyClear(st, e, graves, left, book.Graves());
      }
      forall visited | AllState(st, NotedIn(visited)) && graves <= visited && PlacesOfEvent(st, e) <= visited
        ensures Within(visited)
      {
        WithdrawNoted(st, id, visited);
        UnlaunchedNoted(st, e, visited);
      }
    }

    /** A new order on an engine at rest. */
    method EnterOrder(o: Order) returns (r: MatchResult)
      requires Valid() && Admissible(o) && UniqueIds(St()) && StateSum(St(), IdIs(o.id)) == 0
      modifies this`pendingStops, book, book.bids, book.asks, book.Levels()
      ensures Valid() && fresh(book.Levels() - old(book.Levels()))
      ensures (St(), r) == Enter(old(St()), o) && UniqueIds(St())
      ensures Spent() == EnterSpends(old(St()), old(Spent()), o)
      ensures old(Past().iceless && AllState(St(), NO_PEAK)) && !o.IsIceberg() ==> Past().iceless
      ensures old(Clean()) && Clear(old(book.Graves()))(o) ==> Clean()
      ensures forall visited :: old(Within(visited)) && PlacesOf(o) <= visited ==> Within(visited)
    {
      hide Run, Steps, Reaches, RunSpends, Unique, Launch, UniqueIds, StateSum, OrderBook.Valid, OrderBook.Graves,
           Every, AllState, NO_PEAK, Clear, NotedIn, PlacesOf;
      ghost var st, b := St(), Past();
      LaunchUnique(st, o);
      LaunchNoPeak(st, o);
      if AllState(st, Clear(b.graves)) && Clear(b.graves)(o) {
        LaunchClear(st, o, b.graves);
      }
      forall visited | AllState(st, NotedIn(visited)) && PlacesOf(o) <= visited
        ensures Every(Launch(Config(st, Idle, EMPTY_RESULT), o), NotedIn(visited))
      {
        LaunchNoted(st, o, visited);
      }
      r := ProcessNewOrder(o, Idle, EMPTY_RESULT);
      MergeAssociative(r, r, r);
      RunIdle(At(Idle, r));
      NothingMoreSpent(At(Idle, r), Spent());
      IdleUnique(St(), r);
      IdleEvery(St(), r, Clear(Past().graves));
      forall visited ensures Every(At(Idle, r), NotedIn(visited)) <==> AllState(St(), NotedIn(visited)) {
        IdleEvery(St(), r, NotedIn(visited));
      }
    }

    method ProcessReplace(id: OrderId, o: Order) returns (r: MatchResult)
      requires Valid() && UniqueIds(St()) && Serves(ReplaceOrder(id, o)) && WellFormed(St(), ReplaceOrder(id, o))
      modifies this`pendingStops, book, book.bids, book.asks, book.Levels()
      ensures Valid() && fresh(book.Levels() - old(book.Levels()))
      ensures (St(), r) == Replace(old(St()), id, o) && UniqueIds(St())
      ensures Spent() == SubmitSpends(old(St()), old(Spent()), ReplaceOrder(id, o))
      ensures old(Past().iceless && AllState(St(), NO_PEAK)) && !o.IsIceberg() ==> Past().iceless
      ensures old(Clean() && !Revisits(ReplaceOrder(id, o))) ==> Clean()
      ensures forall visited :: old(Within(visited)) && PlacesOfEvent(old(St()), ReplaceOrder(id, o)) <= visited ==>
                Within(visited)
    {
      hide Run, Unique, UniqueIds, StateSum, OrderBook.Valid, OrderBook.Levels, OrderBook.Graves, IdsAt, Withdraw,
           WithdrawSpends, EnterSpends, Enter, OrderBook.Haunted, Clear, AllState, NO_PEAK, NotedIn, PlacesOf;
      ghost var st, graves := St(), book.Graves();
      var found := book.FindOrder(id);
      if found.None? {
        return MatchResult([], [], [Rejection(id, OrderNotFound, 0)]);
      }
      ghost var left := book.GravesWithout(found.value);
      WithdrawUnique(st, id);
      WithdrawNoPeak(st, id);
      Evict(id);
      if AllState(st, Clear(graves)) && Clear(left)(o) {
        WithdrawClear(st, id, graves, book.Graves());
        ClearOfFewer(o, left, book.Graves());
      }
      forall visited | AllState(st, NotedIn(visited)) && graves <= visited ensures Within(visited) {
        WithdrawNoted(st, id, visited);
      }
      label evicted:
      r := EnterOrder(o);
      forall level | level in book.Levels() && level !in old(book.Levels()) ensures fresh(level) {
        assert fresh@evicted(level);
      }
    }

    lemma BookIsSided()
      requires Valid()
      ensures Sided(St())
    {
    }

    // ---- tombstones and ids -----------------------------------------------------

    /** No order is bound for a level that holds a tombstone of its id. */
    ghost predicate Clean()
      reads this`pendingStops, book, book.bids, book.asks, book.bids.levels.Values, book.asks.levels.Values
    {
      AllState(St(), Clear(book.Graves()))
    }

    /** Tombstones are only where orders have been, and orders are bound for nowhere
        else. */
    ghost predicate Within(visited: iset<Grave>)
      reads this`pendingStops, book, book.bids, book.asks, book.bids.levels.Values, book.asks.levels.Values
    {
      book.Graves() <= visited && AllState(St(), NotedIn(visited))
    }

    /** Then an event that brings no id back to where it has been brings none bound for
        a tombstone of it. */
    lemma NoReturnNoRevisit(visited: iset<Grave>, e: Event)
      requires Valid() && Clean() && Within(visited) && AdmissibleEvent(e) && NoReturn(St(), visited, e)
      ensures !Revisits(e)
    {
      hide OrderBook.Valid, OrderBook.Graves, IdsAt, PlacesOf, Clear, NotedIn;
      if e.NewOrder? {
        ClearIff(e.order, book.Graves());
      } else if !e.CancelOrder? && Evicts(St(), e) {
        var was := Lookup(St(), Subject(e)).value;
        var m := if e.ModifyOrder? then Modified(was, e.newPrice, e.newQuantity, e.timestamp) else e.newOrder;
        GraveOfResting(was, visited);
        ClearIff(m, book.GravesWithout(was));
      }
    }

    lemma WithinMore(visited: iset<Grave>, visited': iset<Grave>)
      requires Within(visited) && visited <= visited'
      ensures Within(visited')
    {
      NotedMore(St(), visited, visited');
    }

    lemma GraveOfResting(o: Order, visited: iset<Grave>)
      requires Clean() && Within(visited) && (o in book.bids.list || o in book.asks.list)
      ensures GraveOf(o) in visited && GraveOf(o) !in book.Graves()
    {
    }

    /** The event brings an id bound for a level that still holds a tombstone of it,
        whether it will rest there or not. */
    ghost predicate Revisits(e: Event)
      reads this`pendingStops, book, book.bids, book.asks, book.bids.levels.Values, book.asks.levels.Values
    {
      match e
      case NewOrder(o) => !Clear(book.Graves())(o)
      case CancelOrder(_, _) => false
      case ModifyOrder(id, price, quantity, timestamp) =>
        Evicts(St(), e) && var o := Lookup(St(), id).value;
                           !Clear(book.GravesWithout(o))(Modified(o, price, quantity, timestamp))
      case ReplaceOrder(id, o) =>
        Evicts(St(), e) && !Clear(book.GravesWithout(Lookup(St(), id).value))(o)
    }

    /** A clean engine serves every event. */
    lemma CleanServes(e: Event)
      requires Valid() && Clean()
      ensures Serves(e)
    {
      var id := Subject(e);
      book.HauntedIff(id);
      if id in book.idMap {
        book.WhereItIs(book.idMap[id]);
      }
    }

    /** Can the event be carried out? This is the question whether the order it takes
        off the book, if any, is haunted. */
    method CanServe(e: Event) returns (ok: bool)
      requires Valid()
      ensures ok <==> Serves(e)
    {
      var id := Subject(e);
      var found := book.FindOrder(id);
      ok := true;
      if found.Some? && book.Haunted(id) {
        match e {
          case NewOrder(_) =>
          case CancelOrder(_, _) =>
            ok := !found.value.IsResting() || Find(pendingStops, id).Some?;
          case ModifyOrder(_, newPrice, newQuantity, _) =>
            ok := !found.value.IsResting() || !Requeues(found.value, newPrice, newQuantity);
          case ReplaceOrder(_, _) =>
            ok := false;
        }
      }
    }

    /** Processes one event. On any event this book can serve, the engine does
        exactly what the reference matcher does. */
    method Submit(e: Event) returns (r: MatchResult)
      requires Valid() && UniqueIds(St()) && WellFormed(St(), e) && Serves(e)
      modifies this, book, book.bids, book.asks, book.Levels()
      ensures Valid() && fresh(book.Levels() - old(book.Levels()))
      ensures (St(), r) == Matcher.Submit(old(St()), e) && UniqueIds(St())
      ensures sequence == old(sequence) + 1
      ensures Spent() == SubmitSpends(old(St()), old(Spent()), e)
      ensures old(Past().iceless && AllState(St(), NO_PEAK)) && BringsNoIceberg(e) ==>
                Past().iceless && AllState(St(), NO_PEAK)
      ensures revisits == old(revisits) + (if old(Revisits(e)) then 1 else 0)
      ensures old(Clean() && !Revisits(e)) ==> Clean()
      ensures forall visited :: old(Within(visited)) && PlacesOfEvent(old(St()), e) <= visited ==> Within(visited)
    {
      hide UniqueIds, OrderBook.Valid, OrderBook.Levels, OrderBook.Haunted, Modify, Cancel, Replace, Enter,
           EnterSpends, WithdrawSpends, PlaceSpends, AllState, NO_PEAK, Clear, Evicts, StateSum, Clean, Within;
      sequence, revisits := sequence + 1, revisits + (if Revisits(e) then 1 else 0);
      SubmitNoPeak(St(), e);
      label served:
      match e {
        case NewOrder(o) =>
          r := EnterOrder(o);
        case CancelOrder(id, timestamp) =>
          r := ServeCancel(id, timestamp);
        case ModifyOrder(id, newPrice, newQuantity, timestamp) =>
          r := ServeModify(id, newPrice, newQuantity, timestamp);
        case ReplaceOrder(id, o) =>
          r := ProcessReplace(id, o);
      }
      forall level | level in book.Levels() && level !in old(book.Levels()) ensures fresh(level) {
        assert fresh@served(level);
      }
    }
  }

  /** Two engines share no object. */
  ghost predicate Apart(e: MatchingEngine, f: MatchingEngine)
    reads e, e.book, e.book.bids, e.book.asks, f, f.book, f.book.bids, f.book.asks
  {
    && e != f && e.book != f.book
    && {e.book.bids, e.book.asks} !! {f.book.bids, f.book.asks}
    && e.book.Levels() !! f.book.Levels()
  }

  /** No order is bound for a tombstone of its id, and all places where there are
      tombstones or where orders are bound for have been recorded. */
  ghost predicate Tracked(engine: MatchingEngine, visited: iset<Grave>)
    reads engine`pendingStops, engine.book, engine.book.bids, engine.book.asks, engine.book.bids.levels.Values,
          engine.book.asks.levels.Values
  {
    engine.Clean() && engine.Within(visited)
  }

  lemma TrackedIff(engine: MatchingEngine, visited: iset<Grave>)
    ensures Tracked(engine, visited) <==> engine.Clean() && engine.Within(visited)
  {
  }

  /** An event that brings no id back to where it has been keeps it so. */
  lemma TrackingGoesOn(engine: MatchingEngine, e: Event)
    requires engine.Valid() && WellFormed(engine.St(), e)
    ensures forall visited :: Tracked(engine, visited) && NoReturn(engine.St(), visited, e) ==>
              engine.Clean() && !engine.Revisits(e) && engine.Within(visited + PlacesOfEvent(engine.St(), e))
  {
    hide MatchingEngine.Valid, MatchingEngine.Clean, MatchingEngine.Revisits, MatchingEngine.Within, NoReturn,
         PlacesOfEvent;
    forall visited | Tracked(engine, visited) && NoReturn(engine.St(), visited, e)
      ensures engine.Clean() && !engine.Revisits(e) && engine.Within(visited + PlacesOfEvent(engine.St(), e))
    {
      engine.NoReturnNoRevisit(visited, e);
      engine.WithinMore(visited, visited + PlacesOfEvent(engine.St(), e));
    }
  }

  /** Processing an event on one engine leaves every other as it was. */
  method SubmitBeside(engine: MatchingEngine, ghost other: MatchingEngine, e: Event) returns (r: MatchResult)
    requires engine.Valid() && UniqueIds(engine.St()) && WellFormed(engine.St(), e) && engine.Serves(e)
    requires Apart(engine, other) && other.Valid()
    modifies engine, engine.book, engine.book.bids, engine.book.asks, engine.book.Levels()
    ensures engine.Valid() && UniqueIds(engine.St()) && (engine.St(), r) == Matcher.Submit(old(engine.St()), e)
    ensures engine.revisits >= old(engine.revisits)
    ensures old(engine.Clean()) && engine.revisits == old(engine.revisits) ==> engine.Clean()
    ensures Apart(engine, other) && other.Valid() && other.St() == old(other.St())
    ensures other.Serves(e) == old(other.Serves(e)) && other.Clean() == old(other.Clean())
    ensures other.revisits == old(other.revisits)
    ensures forall visited :: Tracked(other, visited) == old(Tracked(other, visited))
    ensures forall visited :: old(Tracked(engine, visited)) && NoReturn(old(engine.St()), visited, e) ==>
              Tracked(engine, visited + PlacesOfEvent(old(engine.St()), e))
    ensures fresh(engine.book.Levels() - old(engine.book.Levels())) && other.book.Levels() == old(other.book.Levels())
  {
    hide UniqueIds, WellFormed, Matcher.Submit, OrderBook.Valid, OrderBook.Haunted, Evicts, AllState, Clear,
         OrderBook.Graves, SubmitSpends, Tracked;
    TrackingGoesOn(engine, e);
    r := engine.Submit(e);
    forall visited | old(Tracked(engine, visited)) && NoReturn(old(engine.St()), visited, e)
      ensures Tracked(engine, visited + PlacesOfEvent(old(engine.St()), e))
    {
      assert PlacesOfEvent(old(engine.St()), e) <= visited + PlacesOfEvent(old(engine.St()), e);
      TrackedIff(engine, visited + PlacesOfEvent(old(engine.St()), e));
    }
  }
}
