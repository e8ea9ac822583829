/** Inputs on which the engine does what one might not expect. */
module Instances {
  import opened Orders
  import opened Ladder
  import opened PriceLevels
  import opened BookSides
  import opened OrderBooks
  import opened Volumes
  import opened Matcher
  import opened NoCrossing
  import opened StopSafety
  import opened Snapshots

  function Ask(id: OrderId, price: Price): Order {
    Order(id, Sell, Limit, price, 0, 10, 10, 0, 0, 0, OrderStatus.Resting)
  }

  function Bid(id: OrderId, quantity: Quantity): Order {
    Order(id, Buy, Limit, 100, 0, quantity, quantity, 0, 0, 0, OrderStatus.Resting)
  }

  function BuyStop(id: OrderId, stopPrice: Price): Order {
    Order(id, Buy, Stop, 0, stopPrice, 10, 10, 0, 0, 0, OrderStatus.Resting)
  }

  /** The last trade price may well fire a stop that stays pending: its batch was
      judged at the price of an earlier trade, while a stop before it in the batch
      moved the price. */
  lemma StopMayStayFireable()
    ensures var st := State([], [Ask(1, 100), Ask(2, 105)], 0, [BuyStop(3, 100), BuyStop(4, 105)]);
      var o := Order(5, Buy, Limit, 100, 0, 10, 10, 0, 0, 0, OrderStatus.New);
      var st' := Enter(st, o).0;
      st'.last == 105 && st'.stops == [BuyStop(4, 105)] && BuyStop(4, 105).stopPrice <= st'.last
  {
  }

  /** The machine, one step on. */
  lemma Stepping(c: Config, d: Config)
    requires c.stack.Push? && Step(c) == d
    ensures Run(c) == Run(d)
  {
  }

  lemma Pair(x: Order, y: Order)
    ensures [x, y][1..] == [y] && [x][1..] == []
    ensures x.price == y.price ==> forall side :: Insert(side, [y], x) == [y, x]
  {
    assert [y][1..] == [];
    assert [y] + [x] == [y, x];
  }

  /** A sell stop at 95 waits while the last price is 100, and is filled at 94 once a
      sale has taken the bid at 95. */
  lemma SellStopFiresOnFall()
    ensures var bids := [Bid(1, 10).(price := 95), Bid(2, 10).(price := 94)];
      var stop := BuyStop(3, 95).(side := Sell);
      var st := State(bids, [], 100, [stop]);
      && Enter(State(bids, [], 100, []), stop) == (st, EMPTY_RESULT)
      && Enter(st, Ask(4, 95)) ==
         (State([], [], 94, []), MatchResult([Trade(4, 1, 95, 10, Sell), Trade(3, 2, 94, 10, Sell)], [], []))
  {
    hide Run;
    var first, second := Bid(1, 10).(price := 95), Bid(2, 10).(price := 94);
    var stop := BuyStop(3, 95).(side := Sell);
    var sold, done := Ask(4, 95), Ask(4, 95).(quantity := 0);
    var fired := stop.(kind := Market, price := 0);
    Pair(first, second);
    Pair(second, second);
    var t1, t2 := Trade(4, 1, 95, 10, Sell), Trade(3, 2, 94, 10, Sell);
    var r1, r2 := MatchResult([t1], [], []), MatchResult([t1, t2], [], []);
    var below := Push(Matching(done), Idle);
    var batch := Push(Evaluating(95, []), below);
    var c0 := Config(State([first, second], [], 100, [stop]), Push(Matching(sold), Idle), EMPTY_RESULT);
    var c1 := Config(State([second], [], 95, []), Push(Evaluating(95, [stop]), below), r1);
    var c2 := Config(State([second], [], 95, []), Push(Matching(fired), batch), r1);
    var c3 := Config(State([], [], 94, []), Push(Matching(fired.(quantity := 0)), batch), r2);
    assert [stop][1..] == [] && [] + [stop] == [stop];
    LaunchConverted(Config(c1.st, batch, r1), stop);
    EnterStopWaitsIff(State([first, second], [], 100, []), stop);
    Stepping(c0, c1);
    Stepping(c1, c2);
    assert [t1] + [t2] == [t1, t2];
    Stepping(c2, c3);
    Stepping(c3, Config(c3.st, batch, r2));
    Stepping(Config(c3.st, batch, r2), Config(c3.st, below, r2));
    Stepping(Config(c3.st, below, r2), Config(c3.st, Idle, r2));
    RunIdle(Config(c3.st, Idle, r2));
  }

  function Ice(reserve: Quantity): Order {
    Order(1, Sell, Iceberg, 100, 0, 10, 100, 10, reserve, 0, OrderStatus.Resting)
  }

  /** A buyer at 100 takes 10 from the first offer. */
  lemma TakesTen(asks: seq<Order>, after: seq<Order>, last: Price, o: Order, out: MatchResult)
    requires asks != [] && asks[0].quantity == 10 && asks[0].price == 100 && AfterFill(Sell, asks, 10) == after
    requires o.kind.Limit? && o.side.Buy? && o.price == 100 && o.quantity >= 10
    ensures Run(Config(State([], asks, last, []), Push(Matching(o), Idle), out)) ==
            Run(Config(State([], after, 100, []), Push(Matching(o.(quantity := o.quantity - 10)), Idle),
                       AddTrade(out, Trade(o.id, asks[0].id, 100, 10, Buy))))
  {
    hide AfterFill, Run;
    var c := Config(State([], asks, last, []), Push(Matching(o), Idle), out);
    Stepping(c, Step(c));
  }

  lemma IceTurns(reserve: Quantity, other: Order)
    requires reserve >= 10 && other.price == 100 && other.quantity == 10 && !other.IsIceberg()
    ensures AfterFill(Sell, [Ice(reserve), other], 10) == [other, Ice(reserve - 10)]
    ensures AfterFill(Sell, [Ice(reserve)], 10) == [Ice(reserve - 10)]
    ensures AfterFill(Sell, [other, Ice(reserve)], 10) == [Ice(reserve)]
  {
    Pair(Ice(reserve), other);
    Pair(Ice(reserve - 10), other);
    Pair(other, Ice(reserve));
  }

  /** An iceberg that shows 10 and has 90 more in reserve shares its price with an
      order of 10: a buyer of 40 takes them in turns of 10. */
  lemma IcebergTakesTurns()
    ensures var o := Order(3, Buy, Limit, 100, 0, 40, 40, 0, 0, 0, OrderStatus.New);
      var (t1, t2) := (Trade(3, 1, 100, 10, Buy), Trade(3, 2, 100, 10, Buy));
      Enter(State([], [Ice(90), Ask(2, 100)], 0, []), o) ==
      (State([], [Ice(60)], 100, []), MatchResult([t1, t2, t1, t1], [], []))
  {
    hide Run, Step, AfterFill, Insert;
    var o := Order(3, Buy, Limit, 100, 0, 40, 40, 0, 0, 0, OrderStatus.Resting);
    var t1, t2 := Trade(3, 1, 100, 10, Buy), Trade(3, 2, 100, 10, Buy);
    var r1, r2 := MatchResult([t1], [], []), MatchResult([t1, t2], [], []);
    var r3, r4 := MatchResult([t1, t2, t1], [], []), MatchResult([t1, t2, t1, t1], [], []);
    assert [] + [t1] == [t1] && [t1] + [t2] == [t1, t2];
    assert [t1, t2] + [t1] == [t1, t2, t1] && [t1, t2, t1] + [t1] == [t1, t2, t1, t1];
    IceTurns(90, Ask(2, 100));
    IceTurns(80, Ask(2, 100));
    IceTurns(70, Ask(2, 100));
    TakesTen([Ice(90), Ask(2, 100)], [Ask(2, 100), Ice(80)], 0, o, EMPTY_RESULT);
    TakesTen([Ask(2, 100), Ice(80)], [Ice(80)], 100, o.(quantity := 30), r1);
    TakesTen([Ice(80)], [Ice(70)], 100, o.(quantity := 20), r2);
    TakesTen([Ice(70)], [Ice(60)], 100, o.(quantity := 10), r3);
    FilledLeaves(State([], [Ice(60)], 100, []), o.(quantity := 0), r4);
  }

  lemma FilledLeaves(st: State, o: Order, out: MatchResult)
    requires o.kind.Limit? && o.quantity == 0
    ensures Run(Config(st, Push(Matching(o), Idle), out)) == Config(st, Idle, out)
  {
    hide Run;
    Stepping(Config(st, Push(Matching(o), Idle), out), Config(st, Idle, out));
    RunIdle(Config(st, Idle, out));
  }

  /** An iceberg of 20 that shows 10 takes the first of two offers of 10 at its price
      and goes to rest beside the second: the book is crossed, and the iceberg cannot
      be cancelled. */
  lemma IcebergCrossesAndStays()
    ensures var st := State([], [Ask(1, 100), Ask(2, 100)], 0, []);
      var o := Order(3, Buy, Iceberg, 100, 0, 20, 20, 10, 0, 0, OrderStatus.New);
      var (st', r) := Enter(st, o);
      && Uncrossed(st) && !Uncrossed(st')
      && r == MatchResult([Trade(3, 1, 100, 10, Buy)], [], [])
      && st'.bids == [o.(quantity := 0, reserveQty := 10, status := Filled)] && st'.asks == [Ask(2, 100)]
      && Cancel(st', 3, 7) == (st', Rejecting(3, OrderNotCancellable, 7))
  {
  }

  /** A bid moved to a price above the best offer stays there without a trade. */
  lemma ModifyCrosses()
    ensures var bid := Order(2, Buy, Limit, 90, 0, 10, 10, 0, 0, 0, OrderStatus.Resting);
      var st := State([bid], [Ask(1, 100)], 0, []);
      var moved := bid.(price := 105, timestamp := 7);
      && Uncrossed(st) && Modify(st, 2, 105, 0, 7) == (State([moved], [Ask(1, 100)], 0, []), EMPTY_RESULT)
      && !Uncrossed(Modify(st, 2, 105, 0, 7).0)
  {
    var bid := Order(2, Buy, Limit, 90, 0, 10, 10, 0, 0, 0, OrderStatus.Resting);
    var st := State([bid], [Ask(1, 100)], 0, []);
    var moved := bid.(price := 105, timestamp := 7);
    assert Lookup(st, 2) == Some(bid) && Modified(bid, 105, 0, 7) == moved;
    assert Remove([bid], 2) == [] by { assert [bid][1..] == []; }
    assert Remove([Ask(1, 100)], 2) == [Ask(1, 100)] by { assert [Ask(1, 100)][1..] == []; }
    assert Withdraw(st, 2) == State([], [Ask(1, 100)], 0, []);
    assert Place(Withdraw(st, 2), moved) == State([moved], [Ask(1, 100)], 0, []);
    assert Requeues(bid, 105, 0) && bid.IsResting();
    assert Modify(st, 2, 105, 0, 7) == (State([moved], [Ask(1, 100)], 0, []), EMPTY_RESULT);
  }

  /** A book with two orders of one side at one price. */
  method TwoResting(side: Side, first: Order, second: Order) returns (book: OrderBook)
    requires first.side == side && second.side == side && first.price == second.price && first.id != second.id
    ensures book.Valid() && fresh(book) && fresh(book.bids) && fresh(book.asks) && fresh(book.Levels())
    ensures book.SideOf(side).list == [first, second] && book.SideOf(Opp(side)).list == []
    ensures book.idMap == map[first.id := first, second.id := second] && book.Graves() == iset{}
    ensures !first.IsIceberg() && !second.IsIceberg() ==> book.SideOf(side).iceless
    ensures book.SideOf(side).spent == map[first.price := 0]
  {
    hide OrderBook.Valid, OrderBook.Graves, OrderBook.Haunted, BookSide.Buried, Ladder.Insert;
    ListOfTwo(side, first, second);
    book := new OrderBook();
    book.InsertOrder(first);
    book.InsertOrder(second);
  }

  /** A level displays 12 although only 7 rest there: a fill used up the 5 of an
      older order, which had no quantity left to subtract when it was taken off. */
  method UsedUpStaysDisplayed() returns (book: OrderBook)
    ensures book.Valid() && book.asks.list == [Ask(2, 100).(quantity := 7)]
    ensures 100 in book.asks.levels && book.asks.levels[100].totalVolume == 12 && LiveQty(book.asks.list, 100) == 7
  {
    hide OrderBook.Valid, OrderBook.Graves, OrderBook.Haunted, BookSide.Buried, Ladder.Remove, Ladder.Update, LiveQty,
         IdsAt;
    var first, second := Ask(1, 100).(quantity := 5), Ask(2, 100).(quantity := 7);
    var filled := first.(quantity := 0);
    ListOfTwo(Sell, filled, second);
    OneLeft(first, filled, second);
    book := TwoResting(Sell, first, second);
    book.Amend(filled);
    NothingHaunted(book, 1);
    var gone := book.CancelOrder(1);
    book.BestIsKnown(Sell);
    book.VolumeBound(Sell, 100);
  }

  lemma OneLeft(first: Order, filled: Order, second: Order)
    requires first.price == second.price && filled.id == first.id != second.id
    ensures Update([first, second], filled) == [filled, second] && Remove([filled, second], first.id) == [second]
    ensures LiveQty([second], second.price) == second.quantity
  {
    assert [first, second][1..] == [second] && [filled, second][1..] == [second] && [second][1..] == [];
    var f := QtyAt(second.price);
    assert Sum([second], f) == f(second) + Sum([], f);
  }

  /** Of two bids the second is taken off and put back with more quantity, which is
      what a modify does with it: it is haunted. */
  method HauntSecond(first: Order, second: Order, more: Order) returns (book: OrderBook)
    requires first.side == Buy && second.side == Buy && first.price == second.price && first.id != second.id
    requires more.side == Buy && more.price == second.price && more.id == second.id
    ensures book.Valid() && fresh(book) && fresh(book.bids) && fresh(book.asks) && fresh(book.Levels())
    ensures book.bids.list == [first, more] && book.idMap == map[first.id := first, second.id := more]
    ensures GraveOf(first) !in book.Graves() && GraveOf(more) in book.Graves() && book.Haunted(more.id)
  {
    hide OrderBook.Valid, OrderBook.Graves, OrderBook.Haunted, BookSide.Buried, Ladder.Insert, Ladder.Remove, IdsAt,
         Kept, Opened;
    ListOfTwo(Buy, first, second);
    ListOfTwo(Buy, first, more);
    book := TwoResting(Buy, first, second);
    NothingHaunted(book, second.id);
    var gone := book.CancelOrder(second.id);
    book.GraveIff(GraveOf(more));
    book.InsertOrder(more);
    book.HauntedIff(more.id);
  }

  /** The level of the two then lists only the first. */
  method HauntedIsNotListed() returns (book: OrderBook, listed: seq<OrderId>)
    ensures book.Valid() && fresh(book) && fresh(book.bids) && fresh(book.asks) && fresh(book.Levels())
    ensures book.bids.list == [Bid(1, 5), Bid(2, 9)] && book.idMap == map[1 := Bid(1, 5), 2 := Bid(2, 9)]
    ensures book.Haunted(2)
    ensures 100 in book.bids.levels
    ensures var level := book.bids.levels[100]; listed == Unmarked(level.queue, level.cancelled) == [1]
  {
    hide OrderBook.Valid, OrderBook.Graves, OrderBook.Haunted, Ladder.Insert, Ladder.Remove, IdsAt, Kept;
    var first, more := Bid(1, 5), Bid(2, 9);
    book := HauntSecond(first, Bid(2, 7), more);
    book.BestIsKnown(Buy);
    book.GraveIff(GraveOf(first));
    book.GraveIff(GraveOf(more));
    var level := book.bids.levels[100];
    ListsOnlyFirst(book, level, first, more);
    listed := level.OrderIds();
  }

  /** When the second is cancelled, the book forgets it but its level still queues it. */
  method HauntedCancelDangles() returns (book: OrderBook)
    ensures book.idMap == map[1 := Bid(1, 5)] && book.bids.list == [Bid(1, 5)]
    ensures book.Dangling(Bid(2, 9)) && !book.Valid()
  {
    hide OrderBook.Valid, OrderBook.Graves, OrderBook.Haunted, OrderBook.Dangling, Ladder.Insert, Ladder.Remove,
         IdsAt, Kept;
    var listed;
    book, listed := HauntedIsNotListed();
    ListOfTwo(Buy, Bid(1, 5), Bid(2, 9));
    var gone := book.CancelOrder(2);
    assert book.idMap == map[1 := Bid(1, 5)];
  }

  lemma ListOfTwo(side: Side, first: Order, second: Order)
    requires first.price == second.price && first.id != second.id
    ensures Insert(side, [], first) == [first] && Insert(side, [first], second) == [first, second]
    ensures Remove([first, second], second.id) == [first]
    ensures IdsAt([first, second], first.price) == [first.id, second.id]
  {
    assert [first][1..] == [] && [second][1..] == [] && [first, second][1..] == [second];
    assert Insert(side, [], second) == [second] && Remove([second], second.id) == [];
    assert [first] + [second] == [first, second] && [first] + [] == [first];
    assert IdsAt([second], first.price) == [second.id];
    assert [first.id] + [second.id] == [first.id, second.id];
  }

  /** The second order bears a tombstone of its own id and the first does not. */
  lemma ListsOnlyFirst(book: OrderBook, level: PriceLevel, first: Order, second: Order)
    requires book.Valid() && book.bids.list == [first, second] && first.price == second.price && first.id != second.id
    requires first.price in book.bids.levels && level == book.bids.levels[first.price]
    requires first.id !in level.cancelled && second.id in level.cancelled
    ensures Unmarked(level.queue, level.cancelled) == [first.id]
  {
    var s, p := [first, second], first.price;
    assert s[1..] == [second] && [second][1..] == [] && [first][1..] == [];
    assert Snapshots.Ids([second]) == [second.id] && Snapshots.Ids([first]) == [first.id];
    assert Snapshots.Ids(s) == [first.id, second.id];
    ListOfTwo(Buy, first, second);
    UnmarkedShown(level.queue, level.cancelled, level.cancelled, s);
    assert Shown([second], level.cancelled) == [] && [first] + [] == [first];
  }
}
