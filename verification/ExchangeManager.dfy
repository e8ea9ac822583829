/** One engine per symbol, and the translation of match results into events. */
module ExchangeManagers {
  import opened Orders
  import opened Ladder
  import opened BookSides
  import opened OrderBooks
  import opened Matcher
  import opened Census
  import opened Everywhere
  import opened NoCrossing
  import opened Conservation
  import opened Tape
  import opened Requests
  import opened MatchingEngines

  datatype OrderAction = Enter | Withdrawal

  datatype Message = Message(
    orderId: OrderId,
    clientId: nat,
    symbol: string,
    side: Side,
    kind: OrderType,
    quantity: Quantity,
    price: Price,
    stopPrice: Price,
    peakQty: Quantity,
    timestamp: Timestamp,
    action: OrderAction)

  datatype ExchangeEvent =
    | OrderRejected(orderId: OrderId, clientId: nat, reason: RejectReason)
    | OrderCanceled(orderId: OrderId, remainingQty: Quantity)
    | TradeExecuted(buyOrderId: OrderId, sellOrderId: OrderId, price: Price, quantity: Quantity)
    | OrderAccepted(orderId: OrderId, clientId: nat, price: Price, quantity: Quantity, side: Side, kind: OrderType)
    | BookUpdated(bestBid: Price, bestAsk: Price, spread: Price, bidLevels: nat, askLevels: nat)

  // ---- translation ------------------------------------------------------------

  function RejectionEvents(clientId: nat, rs: seq<Rejection>): seq<ExchangeEvent> {
    if rs == [] then []
    else
      var last := rs[|rs| - 1];
      RejectionEvents(clientId, rs[..|rs| - 1]) + [OrderRejected(last.orderId, clientId, last.reason)]
  }

  function CancelEvents(rs: seq<Report>): seq<ExchangeEvent> {
    if rs == [] then []
    else
      var r := rs[|rs| - 1];
      CancelEvents(rs[..|rs| - 1]) + (if r.status.Cancelled? then [OrderCanceled(r.orderId, r.remainingQty)] else [])
  }

  function TradeEvents(ts: seq<Trade>): (es: seq<ExchangeEvent>)
    ensures |es| == |ts|
  {
    if ts == [] then []
    else
      var t := ts[|ts| - 1];
      TradeEvents(ts[..|ts| - 1]) + [TradeExecuted(BuyerOf(t), SellerOf(t), t.price, t.quantity)]
  }

  function AcceptEvents(msg: Message, res: MatchResult): seq<ExchangeEvent> {
    if msg.action.Enter? && res.rejections == [] then
      [OrderAccepted(msg.orderId, msg.clientId, msg.price, msg.quantity, msg.side, msg.kind)]
    else []
  }

  /** Rejections, then cancels, then trades, then the acceptance. */
  function Translated(msg: Message, res: MatchResult): seq<ExchangeEvent> {
    RejectionEvents(msg.clientId, res.rejections) + CancelEvents(res.reports) + TradeEvents(res.trades)
    + AcceptEvents(msg, res)
  }

  /** The i-th rejection event tells of the i-th rejection, to the client that asked. */
  lemma {:induction false} RejectionEventAt(clientId: nat, rs: seq<Rejection>, i: nat)
    requires i < |rs|
    ensures |RejectionEvents(clientId, rs)| == |rs|
    ensures RejectionEvents(clientId, rs)[i] == OrderRejected(rs[i].orderId, clientId, rs[i].reason)
  {
    var n := |rs| - 1;
    if n > 0 {
      RejectionEventAt(clientId, rs[..n], if i < n then i else 0);
    }
  }

  /** How many reports tell of a cancel. */
  function Cancels(rs: seq<Report>): nat {
    if rs == [] then 0 else Cancels(rs[1..]) + (if rs[0].status.Cancelled? then 1 else 0)
  }

  /** There is one cancel event per reported cancel, and that of the i-th report comes
      after those of the cancels reported before it. */
  lemma {:induction false} CancelEventAt(rs: seq<Report>, i: nat)
    requires i < |rs|
    ensures |CancelEvents(rs)| == Cancels(rs)
    ensures rs[i].status.Cancelled? ==>
              && Cancels(rs[..i]) < Cancels(rs)
              && CancelEvents(rs)[Cancels(rs[..i])] == OrderCanceled(rs[i].orderId, rs[i].remainingQty)
  {
    var n := |rs| - 1;
    CancelsSplit(rs, n);
    if n > 0 {
      CancelEventAt(rs[..n], if i < n then i else 0);
    }
    if i < n {
      assert rs[..n][..i] == rs[..i];
    }
  }

  lemma {:induction false} CancelsSplit(rs: seq<Report>, n: nat)
    requires n < |rs|
    ensures Cancels(rs[..n + 1]) == Cancels(rs[..n]) + (if rs[n].status.Cancelled? then 1 else 0)
    ensures rs[..|rs|] == rs
  {
    if n == 0 {
      assert rs[..1][1..] == [];
    } else {
      assert rs[..n + 1][1..] == rs[1..][..n] && rs[..n][1..] == rs[1..][..n - 1];
      CancelsSplit(rs[1..], n - 1);
    }
  }

  /** The i-th trade event tells who bought and who sold in the i-th trade. */
  lemma {:induction false} TradeEventAt(ts: seq<Trade>, i: nat)
    requires i < |ts|
    ensures TradeEvents(ts)[i] == TradeExecuted(BuyerOf(ts[i]), SellerOf(ts[i]), ts[i].price, ts[i].quantity)
  {
    if i < |ts| - 1 {
      TradeEventAt(ts[..|ts| - 1], i);
    }
  }

  /** After a new order every trade event, also of stops it fired, names a buyer that
      bought and a seller that sold. */
  lemma TradeEventsGenuine(st: State, o: Order, who: OrderId -> Side)
    requires Admissible(o) && AllState(st, Named(who)) && Sided(st) && o.side == who(o.id)
    ensures forall e :: e in TradeEvents(Matcher.Enter(st, o).1.trades) ==>
              e.TradeExecuted? && who(e.buyOrderId) == Buy && who(e.sellOrderId) == Sell
  {
    var ts := Matcher.Enter(st, o).1.trades;
    EnterGenuine(st, o, who);
    forall e | e in TradeEvents(ts)
      ensures e.TradeExecuted? && who(e.buyOrderId) == Buy && who(e.sellOrderId) == Sell
    {
      var i :| 0 <= i < |ts| && TradeEvents(ts)[i] == e;
      TradeEventAt(ts, i);
      assert ts[i] in ts;
    }
  }

  /** A withdrawal of a pending stop is answered by one event, which tells that it is
      cancelled and how much of it was left. */
  lemma WithdrawalOfStop(st: State, msg: Message, k: nat)
    requires UniqueIds(st) && msg.action.Withdrawal? && k < |st.stops| && st.stops[k].id == msg.orderId
    ensures Translated(msg, Matcher.Submit(st, CancelOrder(msg.orderId, msg.timestamp)).1) ==
            [OrderCanceled(msg.orderId, st.stops[k].quantity)]
  {
    hide UniqueIds, Matcher.Submit, Translated;
    var stop := st.stops[k];
    CancelOfStop(st, k, msg.timestamp);
    ReportAlone(msg, [Report(stop.id, OrderStatus.Cancelled, stop.quantity, msg.timestamp)]);
  }

  /** So is that of a resting order; one on the book with another status is answered by
      a rejection to the client. */
  lemma WithdrawalOfResting(st: State, msg: Message, side: Side, k: nat)
    requires UniqueIds(st) && msg.action.Withdrawal?
    requires k < |OnSide(st, side)| && OnSide(st, side)[k].id == msg.orderId
    ensures var o := OnSide(st, side)[k];
      Translated(msg, Matcher.Submit(st, CancelOrder(msg.orderId, msg.timestamp)).1) ==
      if o.status.Resting? || o.status.PartialFill? then [OrderCanceled(msg.orderId, o.quantity)]
      else [OrderRejected(msg.orderId, msg.clientId, OrderNotCancellable)]
  {
    hide UniqueIds, Matcher.Submit, Translated;
    var o := OnSide(st, side)[k];
    CancelOfResting(st, side, k, msg.timestamp);
    ReportAlone(msg, [Report(o.id, OrderStatus.Cancelled, o.quantity, msg.timestamp)]);
    RejectionAlone(msg, [Rejection(o.id, OrderNotCancellable, msg.timestamp)]);
  }

  /** And that of an id that is neither pending nor on the book. */
  lemma WithdrawalOfUnknown(st: State, msg: Message)
    requires msg.action.Withdrawal?
    requires forall o :: o in st.bids || o in st.asks || o in st.stops ==> o.id != msg.orderId
    ensures Translated(msg, Matcher.Submit(st, CancelOrder(msg.orderId, msg.timestamp)).1) ==
            [OrderRejected(msg.orderId, msg.clientId, OrderNotFound)]
  {
    hide Matcher.Submit, Translated;
    CancelOfUnknown(st, msg.orderId, msg.timestamp);
    RejectionAlone(msg, [Rejection(msg.orderId, OrderNotFound, msg.timestamp)]);
  }

  lemma RejectionAlone(msg: Message, rs: seq<Rejection>)
    requires msg.action.Withdrawal? && |rs| == 1
    ensures Translated(msg, MatchResult([], [], rs)) == [OrderRejected(rs[0].orderId, msg.clientId, rs[0].reason)]
  {
    RejectionEventAt(msg.clientId, rs, 0);
    assert Translated(msg, MatchResult([], [], rs)) == RejectionEvents(msg.clientId, rs) + [] + [] + [];
  }

  lemma ReportAlone(msg: Message, rs: seq<Report>)
    requires msg.action.Withdrawal? && |rs| == 1 && rs[0].status.Cancelled?
    ensures Translated(msg, MatchResult([], rs, [])) == [OrderCanceled(rs[0].orderId, rs[0].remainingQty)]
  {
    CancelEventAt(rs, 0);
    assert Cancels(rs[..0]) == 0 && Cancels(rs) == 1 by { assert rs[1..] == []; }
    assert Translated(msg, MatchResult([], rs, [])) == [] + CancelEvents(rs) + [] + [];
  }

  function Best(s: seq<Order>): Price {
    if s == [] then 0 else s[0].price
  }

  /** The prices resting on one side. */
  function Prices(s: seq<Order>): set<Price> {
    set o | o in s :: o.price
  }

  function BookEvent(bids: seq<Order>, asks: seq<Order>): ExchangeEvent {
    BookUpdated(Best(bids), Best(asks),
                if bids == [] || asks == [] then 0 else asks[0].price - bids[0].price,
                |Prices(bids)|, |Prices(asks)|)
  }

  /** Of an ordered book the update tells the highest bid, the lowest offer, how far they
      are apart, and how many prices have orders on each side; 0 where there is none. */
  lemma BookEventTells(st: State)
    requires Ordered(st)
    ensures var e := BookEvent(st.bids, st.asks);
      && (if st.bids == [] then e.bestBid == 0
          else (exists o :: o in st.bids && o.price == e.bestBid) && forall o :: o in st.bids ==> o.price <= e.bestBid)
      && (if st.asks == [] then e.bestAsk == 0
          else (exists o :: o in st.asks && o.price == e.bestAsk) && forall o :: o in st.asks ==> o.price >= e.bestAsk)
      && e.spread == (if st.bids == [] || st.asks == [] then 0 else e.bestAsk - e.bestBid)
      && e.bidLevels == |set o | o in st.bids :: o.price| && e.askLevels == |set o | o in st.asks :: o.price|
  {
    assert st.bids != [] ==> st.bids[0] in st.bids;
    assert st.asks != [] ==> st.asks[0] in st.asks;
  }

  function RankOf(e: ExchangeEvent): nat {
    match e
    case OrderRejected(_, _, _) => 0
    case OrderCanceled(_, _) => 1
    case TradeExecuted(_, _, _, _) => 2
    case OrderAccepted(_, _, _, _, _, _) => 3
    case BookUpdated(_, _, _, _, _) => 4
  }

  /** Clients hear of rejections first, then of cancels, then of trades, then of the
      acceptance, of which there is at most one. */
  lemma EventsInOrder(msg: Message, r: MatchResult, i: nat, j: nat)
    requires i < j < |Translated(msg, r)|
    ensures var events := Translated(msg, r);
      RankOf(events[i]) <= RankOf(events[j]) <= 3 && !(events[i].OrderAccepted? && events[j].OrderAccepted?)
  {
    RanksAre(msg, r);
  }

  lemma RanksAre(msg: Message, r: MatchResult)
    ensures forall e :: e in RejectionEvents(msg.clientId, r.rejections) ==> RankOf(e) == 0
    ensures forall e :: e in CancelEvents(r.reports) ==> RankOf(e) == 1
    ensures forall e :: e in TradeEvents(r.trades) ==> RankOf(e) == 2
  {
    if r.rejections != [] {
      RejectionEventAt(msg.clientId, r.rejections, 0);
    }
    forall i | 0 <= i < |r.rejections| ensures RankOf(RejectionEvents(msg.clientId, r.rejections)[i]) == 0 {
      RejectionEventAt(msg.clientId, r.rejections, i);
    }
    RanksOfCancels(r.reports);
    forall i | 0 <= i < |r.trades| ensures RankOf(TradeEvents(r.trades)[i]) == 2 {
      TradeEventAt(r.trades, i);
    }
  }

  lemma {:induction false} RanksOfCancels(rs: seq<Report>)
    ensures forall e :: e in CancelEvents(rs) ==> RankOf(e) == 1
  {
    if rs != [] {
      RanksOfCancels(rs[..|rs| - 1]);
    }
  }

  /** A new order is acknowledged, with what its message says, exactly when nothing that
      it sets off finds the other side exhausted. */
  lemma AcknowledgedIff(st: State, msg: Message, o: Order)
    requires Admissible(o) && msg.action.Enter?
    ensures var events := Translated(msg, Matcher.Submit(st, NewOrder(o)).1);
      var ack := OrderAccepted(msg.orderId, msg.clientId, msg.price, msg.quantity, msg.side, msg.kind);
      (events != [] && events[|events| - 1] == ack) <==> forall id :: Residual(st, o, WithId(id)) == 0
  {
    hide Residual, Matcher.Enter;
    var r := Matcher.Enter(st, o).1;
    forall id ensures Tells(r.rejections, id) <==> Residual(st, o, WithId(id)) > 0 {
      EnterRejections(st, o, id);
    }
    if r.rejections != [] {
      assert r.rejections[0] in r.rejections && Tells(r.rejections, r.rejections[0].orderId);
      NeverAccepted(msg, r);
    } else {
      assert forall id :: !Tells(r.rejections, id);
    }
  }

  lemma NeverAccepted(msg: Message, r: MatchResult)
    requires r.rejections != []
    ensures forall e :: e in Translated(msg, r) ==> !e.OrderAccepted?
  {
    RanksAre(msg, r);
  }

  /** The events of one result, the book update last. */
  method TranslateResult(msg: Message, res: MatchResult, book: OrderBook) returns (out: seq<ExchangeEvent>)
    requires book.Valid()
    ensures out == Translated(msg, res) + [BookEvent(book.bids.list, book.asks.list)]
  {
    hide OrderBook.Valid, RejectionEvents, CancelEvents, TradeEvents, BookEvent;
    out := TranslateRejections(msg.clientId, res.rejections);
    var cancels := TranslateReports(res.reports);
    var trades := TranslateTrades(res.trades);
    out := out + cancels + trades;
    if msg.action.Enter? && res.rejections == [] {
      out := out + [OrderAccepted(msg.orderId, msg.clientId, msg.price, msg.quantity, msg.side, msg.kind)];
    }
    var update := TopOfBook(book);
    out := out + [update];
  }

  method TranslateRejections(clientId: nat, rs: seq<Rejection>) returns (out: seq<ExchangeEvent>)
    ensures out == RejectionEvents(clientId, rs)
  {
    out := [];
    for i := 0 to |rs|
      invariant out == RejectionEvents(clientId, rs[..i])
    {
      assert rs[..i + 1][..i] == rs[..i];
      out := out + [OrderRejected(rs[i].orderId, clientId, rs[i].reason)];
    }
    assert rs[..|rs|] == rs;
  }

  method TranslateReports(rs: seq<Report>) returns (out: seq<ExchangeEvent>)
    ensures out == CancelEvents(rs)
  {
    out := [];
    for i := 0 to |rs|
      invariant out == CancelEvents(rs[..i])
    {
      assert rs[..i + 1][..i] == rs[..i];
      if rs[i].status.Cancelled? {
        out := out + [OrderCanceled(rs[i].orderId, rs[i].remainingQty)];
      }
    }
    assert rs[..|rs|] == rs;
  }

  method TranslateTrades(ts: seq<Trade>) returns (out: seq<ExchangeEvent>)
    ensures out == TradeEvents(ts)
  {
    out := [];
    for i := 0 to |ts|
      invariant out == TradeEvents(ts[..i])
    {
      var t := ts[i];
      assert ts[..i + 1][..i] == ts[..i];
      var buyer := if t.aggressorSide.Buy? then t.aggressorId else t.passiveId;
      var seller := if t.aggressorSide.Buy? then t.passiveId else t.aggressorId;
      out := out + [TradeExecuted(buyer, seller, t.price, t.quantity)];
    }
    assert ts[..|ts|] == ts;
  }

  /** The book update: best prices, spread and number of levels. */
  method TopOfBook(book: OrderBook) returns (update: ExchangeEvent)
    requires book.Valid()
    ensures update == BookEvent(book.bids.list, book.asks.list)
  {
    var bid := book.BestBidLevel();
    var ask := book.BestAskLevel();
    var bestBid := if bid == null then 0 else bid.price;
    var bestAsk := if ask == null then 0 else ask.price;
    var spread := if bid == null || ask == null then 0 else ask.price - bid.price;
    LevelCount(book.bids);
    LevelCount(book.asks);
    update := BookUpdated(bestBid, bestAsk, spread, |book.bids.levels|, |book.asks.levels|);
  }

  /** One level per price. */
  lemma LevelCount(side: BookSide)
    requires side.Valid()
    ensures |side.levels| == |Prices(side.list)|
  {
    forall p | p in side.levels ensures p in Prices(side.list) {
      IdsAtAbsent(side.list, p);
    }
    assert side.levels.Keys == Prices(side.list);
  }

  // ---- the manager ------------------------------------------------------------

  class ExchangeManager {
    const engines: seq<MatchingEngine>
    const index: map<string, nat>

    /** What a message asks of its engine. */
    function EventOf(msg: Message, now: Timestamp): Event {
      if msg.action.Withdrawal? then CancelOrder(msg.orderId, msg.timestamp)
      else
        NewOrder(Order(msg.orderId, msg.side, msg.kind, msg.price, msg.stopPrice, msg.quantity, msg.quantity,
                       msg.peakQty, 0,
                       if msg.timestamp != 0 then msg.timestamp else now, New))
    }

    /** A withdrawal cancels the order of that id. Any other message enters an order with
        what it says, whose quantity is all still open and which is stamped with the
        time of the message, or with the present if it has none. */
    lemma EventOfMessage(msg: Message, now: Timestamp)
      ensures match EventOf(msg, now)
        case CancelOrder(id, timestamp) => msg.action.Withdrawal? && id == msg.orderId && timestamp == msg.timestamp
        case NewOrder(o) =>
          && msg.action.Enter?
          && o.id == msg.orderId && o.side == msg.side && o.kind == msg.kind && o.status == OrderStatus.New
          && o.price == msg.price && o.stopPrice == msg.stopPrice
          && o.quantity == o.origQty == msg.quantity && o.peakQty == msg.peakQty && o.reserveQty == 0
          && (if msg.timestamp == 0 then o.timestamp == now else o.timestamp == msg.timestamp)
        case _ => false
    {
    }

    /** The engine that trades the symbol of a message. */
    function EngineOf(msg: Message): MatchingEngine?
      requires forall s :: s in index ==> index[s] < |engines|
    {
      if msg.symbol in index then engines[index[msg.symbol]] else null
    }

    /** With an engine of its own for each symbol, two messages go to the same engine
        exactly when they are for the same symbol, and to none when it is unknown. */
    lemma RoutedBySymbol(m: Message, m': Message)
      requires forall s :: s in index ==> index[s] < |engines|
      requires forall s, s' :: s in index && s' in index && s != s' ==> engines[index[s]] != engines[index[s']]
      ensures EngineOf(m) == null <==> m.symbol !in index
      ensures EngineOf(m) != null ==> (EngineOf(m) == EngineOf(m') <==> m.symbol == m'.symbol)
    {
    }

    /** Routes a message to its engine. The engine answers as the reference matcher
        does; any other engine, whichever `other` is, stays as it was; a message for
        an unknown symbol does nothing. */
    method Process(msg: Message, now: Timestamp, ghost other: MatchingEngine) returns (events: seq<ExchangeEvent>)
      requires forall s :: s in index ==> index[s] < |engines|
      requires var engine := EngineOf(msg);
        engine != null ==>
          && engine.Valid() && UniqueIds(engine.St())
          && WellFormed(engine.St(), EventOf(msg, now)) && engine.Serves(EventOf(msg, now))
          && other.Valid() && Apart(engine, other)
      modifies var engine := EngineOf(msg);
        if engine != null then {engine, engine.book, engine.book.bids, engine.book.asks} + engine.book.Levels() else {}
      ensures EngineOf(msg) == null ==> events == []
      ensures var engine := EngineOf(msg);
        engine != null ==>
          && engine.Valid() && UniqueIds(engine.St()) && other.Valid() && Apart(engine, other)
          && other.St() == old(other.St())
          && var (st, res) := Matcher.Submit(old(EngineOf(msg).St()), EventOf(msg, now));
             engine.St() == st && events == Translated(msg, res) + [BookEvent(st.bids, st.asks)]
    {
      hide IdsOk, BookSide.Valid, UniqueIds, WellFormed, Matcher.Submit, Translated, BookEvent, OrderBook.Haunted;
      if msg.symbol !in index {
        return [];
      }
      var engine := engines[index[msg.symbol]];
      var res := SubmitBeside(engine, other, EventOf(msg, now));
      events := TranslateResult(msg, res, engine.book);
    }
  }
}
