/** Saving an engine to a file of typed records and loading it back. */
module Snapshots {
  import opened Orders
  import opened Ladder
  import opened PriceLevels
  import opened BookSides
  import opened OrderBooks
  import opened Matcher
  import opened Census
  import opened Everywhere
  import opened Clearance
  import opened MatchingEngines
  import opened Replays

  const MAGIC: nat := 0x4C4F4201

  datatype Record =
    | Magic(magic: nat)
    | Sequence(sequence: nat)
    | LastPrice(price: Price)
    | Count(count: nat)
    | Saved(order: Order)

  // ---- level by level ---------------------------------------------------------

  /** The orders of one price, oldest first. */
  function At(s: seq<Order>, p: Price): seq<Order> {
    if s == [] then []
    else if s[0].price == p then [s[0]] + At(s[1..], p)
    else At(s[1..], p)
  }

  function Without(s: seq<Order>, p: Price): seq<Order> {
    if s == [] then []
    else if s[0].price == p then Without(s[1..], p)
    else [s[0]] + Without(s[1..], p)
  }

  /** The orders that a listing shows: those not marked by a tombstone of their id. */
  ghost function Shown(s: seq<Order>, marked: set<OrderId>): seq<Order> {
    if s == [] then []
    else if s[0].id in marked then Shown(s[1..], marked)
    else [s[0]] + Shown(s[1..], marked)
  }

  function Ids(s: seq<Order>): (ids: seq<OrderId>)
    ensures |ids| == |s|
  {
    if s == [] then [] else [s[0].id] + Ids(s[1..])
  }

  function Records(s: seq<Order>): (r: seq<Record>)
    ensures |r| == |s| && forall i :: 0 <= i < |s| ==> r[i] == Saved(s[i])
  {
    seq(|s|, i requires 0 <= i < |s| => Saved(s[i]))
  }

  lemma {:induction false} AtIds(s: seq<Order>, p: Price)
    ensures Ids(At(s, p)) == IdsAt(s, p)
  {
    if s != [] {
      AtIds(s[1..], p);
    }
  }

  lemma {:induction false} AtMembers(s: seq<Order>, p: Price)
    ensures forall o :: o in At(s, p) <==> o in s && o.price == p
  {
    if s != [] {
      AtMembers(s[1..], p);
      assert s == [s[0]] + s[1..];
    }
  }

  lemma {:induction false} WithoutMembers(s: seq<Order>, p: Price)
    ensures forall o :: o in Without(s, p) <==> o in s && o.price != p
  {
    if s != [] {
      WithoutMembers(s[1..], p);
      assert s == [s[0]] + s[1..];
    }
  }

  lemma {:induction false} AtWithout(s: seq<Order>, p: Price, q: Price)
    requires p != q
    ensures At(Without(s, p), q) == At(s, q)
  {
    if s != [] {
      AtWithout(s[1..], p, q);
    }
  }

  lemma {:induction false} AtNone(s: seq<Order>, p: Price)
    requires forall o :: o in s ==> o.price != p
    ensures At(s, p) == [] && Without(s, p) == s
  {
    if s != [] {
      AtNone(s[1..], p);
    }
  }

  /** In a sorted list the best price comes in one block. */
  lemma {:induction false} BestBlock(side: Side, s: seq<Order>, p: Price)
    requires Sorted(side, s) && (forall o :: o in s ==> !Better(side, o.price, p))
    ensures s == At(s, p) + Without(s, p) && Sorted(side, Without(s, p))
  {
    hide At, Without, Sorted;
    BlockEmpty(p);
    if s != [] {
      SortedTail(side, s);
      assert s[0] in s;
      if s[0].price == p {
        BlockStep(s, p);
        BestBlock(side, s[1..], p);
        assert s == [s[0]] + s[1..];
      } else {
        NoneBehind(side, s, p);
        AtNone(s, p);
      }
    }
  }

  lemma BlockStep(s: seq<Order>, p: Price)
    requires s != [] && s[0].price == p
    ensures At(s, p) == [s[0]] + At(s[1..], p) && Without(s, p) == Without(s[1..], p)
  {
  }

  lemma BlockEmpty(p: Price)
    ensures At([], p) == [] && Without([], p) == []
  {
  }

  lemma NoneBehind(side: Side, s: seq<Order>, p: Price)
    requires Sorted(side, s) && s != [] && s[0].price != p && !Better(side, s[0].price, p)
    ensures forall o :: o in s ==> o.price != p
  {
  }

  lemma ShownStep(s: seq<Order>, marked: set<OrderId>)
    ensures s == [] ==> Shown(s, marked) == []
    ensures s != [] ==> Shown(s, marked) == if s[0].id in marked then Shown(s[1..], marked)
              else [s[0]] + Shown(s[1..], marked)
  {
  }

  lemma {:induction false} ShownConcat(s: seq<Order>, t: seq<Order>, marked: set<OrderId>)
    ensures Shown(s + t, marked) == Shown(s, marked) + Shown(t, marked)
  {
    hide Shown;
    ShownStep(s, marked);
    ShownStep(s + t, marked);
    if s == [] {
      assert s + t == t;
    } else {
      ShownConcat(s[1..], t, marked);
      assert (s + t)[0] == s[0] && (s + t)[1..] == s[1..] + t;
    }
  }

  lemma {:induction false} ShownAll(s: seq<Order>, marked: set<OrderId>)
    requires forall o :: o in s ==> o.id !in marked
    ensures Shown(s, marked) == s
  {
    if s != [] {
      ShownAll(s[1..], marked);
    }
  }

  /** Filtering a queue by its tombstones lists the live orders that bear none. */
  lemma {:induction false} UnmarkedShown(queue: seq<OrderId>, cancelled: set<OrderId>, marked: set<OrderId>,
                                         s: seq<Order>)
    requires Ids(s) == Live(queue, cancelled) && cancelled <= marked
    ensures Unmarked(queue, marked) == Ids(Shown(s, marked))
  {
    if queue != [] {
      if queue[0] in cancelled {
        UnmarkedShown(queue[1..], cancelled - {queue[0]}, marked, s);
      } else {
        assert Ids(s)[1..] == Ids(s[1..]);
        UnmarkedShown(queue[1..], cancelled, marked, s[1..]);
      }
    }
  }

  /** Is the order on a level that bears a tombstone of its id? */
  predicate Marked(o: Order, marks: map<Price, set<OrderId>>) {
    o.price in marks && o.id in marks[o.price]
  }

  /** The orders that the listings of their levels show. */
  function Visible(s: seq<Order>, marks: map<Price, set<OrderId>>): seq<Order> {
    if s == [] then []
    else if Marked(s[0], marks) then Visible(s[1..], marks)
    else [s[0]] + Visible(s[1..], marks)
  }

  lemma {:induction false} VisibleBlock(s: seq<Order>, p: Price, marks: map<Price, set<OrderId>>)
    requires p in marks && forall o :: o in s ==> o.price == p
    ensures Visible(s, marks) == Shown(s, marks[p])
  {
    if s != [] {
      VisibleBlock(s[1..], p, marks);
    }
  }

  lemma VisibleStep(s: seq<Order>, marks: map<Price, set<OrderId>>)
    ensures s == [] ==> Visible(s, marks) == []
    ensures s != [] ==> Visible(s, marks) == if Marked(s[0], marks) then Visible(s[1..], marks)
              else [s[0]] + Visible(s[1..], marks)
  {
  }

  lemma {:induction false} VisibleConcat(s: seq<Order>, t: seq<Order>, marks: map<Price, set<OrderId>>)
    ensures Visible(s + t, marks) == Visible(s, marks) + Visible(t, marks)
  {
    hide Visible, Marked;
    VisibleStep(s, marks);
    VisibleStep(s + t, marks);
    if s == [] {
      assert s + t == t;
    } else {
      VisibleConcat(s[1..], t, marks);
      assert (s + t)[0] == s[0] && (s + t)[1..] == s[1..] + t;
    }
  }

  /** Everything is shown exactly when nothing is marked. */
  lemma {:induction false} VisibleAllIff(s: seq<Order>, marks: map<Price, set<OrderId>>)
    ensures |Visible(s, marks)| <= |s|
    ensures Visible(s, marks) == s <==> forall o :: o in s ==> !Marked(o, marks)
    ensures |Visible(s, marks)| == |s| <==> Visible(s, marks) == s
    ensures forall o :: o in Visible(s, marks) <==> o in s && !Marked(o, marks)
  {
    if s != [] {
      VisibleAllIff(s[1..], marks);
      assert s == [s[0]] + s[1..];
    }
  }

  ghost function Marks(side: BookSide): map<Price, set<OrderId>>
    reads side, side.levels.Values
  {
    map p | p in side.levels :: side.levels[p].cancelled
  }

  lemma {:induction false} IdsAre(s: seq<Order>, i: nat)
    requires i < |s|
    ensures Ids(s)[i] == s[i].id
  {
    if i > 0 {
      IdsAre(s[1..], i - 1);
    }
  }

  /** Writes the orders of one level, as its listing names them. */
  method WriteLevel(book: OrderBook, level: PriceLevel, ghost block: seq<Order>) returns (records: seq<Record>)
    requires book.Valid() && Ids(block) == level.Ids()
    requires forall o :: o in block ==> o.id in book.idMap && book.idMap[o.id] == o
    ensures records == Records(Shown(block, level.cancelled))
  {
    hide Ids, Unmarked, Shown, Live, OrderBook.Valid;
    var ids := level.OrderIds();
    ghost var shown := Shown(block, level.cancelled);
    UnmarkedShown(level.queue, level.cancelled, level.cancelled, block);
    ShownMembers(block, level.cancelled);
    records := [];
    for i := 0 to |ids|
      invariant ids == Ids(shown) && records == Records(shown[..i])
    {
      IdsAre(shown, i);
      assert shown[i] in shown;
      var found := book.FindOrder(ids[i]);
      if found.Some? {
        records := records + [Saved(found.value)];
      }
      assert shown[..i + 1] == shown[..i] + [shown[i]];
    }
    assert shown[..|ids|] == shown;
  }

  lemma {:induction false} ShownMembers(s: seq<Order>, marked: set<OrderId>)
    ensures forall o :: o in Shown(s, marked) ==> o in s
  {
    if s != [] {
      ShownMembers(s[1..], marked);
    }
  }

  /** Writes one side, level by level from the best price. */
  method WriteSide(book: OrderBook, side: Side) returns (records: seq<Record>)
    requires book.Valid()
    ensures records == Records(Visible(book.SideOf(side).list, Marks(book.SideOf(side))))
  {
    hide Visible, Shown, At, Without, Ids, Marks, Records, OrderBook.Valid, BookSide.Valid, Sorted, Better;
    var s := if side.Buy? then book.bids else book.asks;
    SideFacts(book, side);
    NoRecords();
    ghost var list, marks := s.list, Marks(s);
    ghost var rest := list;
    var left := s.levels.Keys;
    ghost var shown: seq<Order> := [];
    records := [];
    while left != {}
      invariant left <= s.levels.Keys && Unwritten(side, list, rest, left)
      invariant shown + Visible(rest, marks) == Visible(list, marks)
      invariant records == Records(shown)
      decreases left
    {
      LevelsHaveOrders(s, left, rest);
      var p :| p in left && forall q :: q in left ==> !Better(side, q, p);
      MarksAre(s, p);
      ghost var block := At(rest, p);
      NextBlock(side, list, rest, left, p, marks);
      KnownBlock(book, side, p);
      var written := WriteLevel(book, s.levels[p], block);
      RecordsConcat(shown, Shown(block, marks[p]));
      Regroup(shown, Shown(block, marks[p]), Visible(Without(rest, p), marks));
      records := records + written;
      shown := shown + Shown(block, marks[p]);
      rest := Without(rest, p);
      left := left - {p};
    }
    NoMembers(rest);
    NothingVisible(marks);
    assert shown + [] == shown;
  }

  /** `rest` is what remains of the list at the prices still left to write. */
  ghost predicate Unwritten(side: Side, list: seq<Order>, rest: seq<Order>, left: set<Price>) {
    && Sorted(side, rest)
    && (forall o :: o in rest ==> o in list && o.price in left)
    && (forall p :: p in left ==> At(rest, p) == At(list, p))
  }

  lemma MarksAre(s: BookSide, p: Price)
    requires p in s.levels
    ensures p in Marks(s) && Marks(s)[p] == s.levels[p].cancelled
  {
  }

  lemma Regroup<T>(a: seq<T>, b: seq<T>, c: seq<T>)
    ensures (a + b) + c == a + (b + c)
  {
  }

  lemma NoMembers(s: seq<Order>)
    ensures s == [] <==> forall o :: o !in s
  {
    if s != [] {
      assert s[0] in s;
    }
  }

  lemma NothingVisible(marks: map<Price, set<OrderId>>)
    ensures Visible([], marks) == []
  {
  }

  /** What is left to write splits into the best price's orders and the others. */
  lemma NextBlock(side: Side, list: seq<Order>, rest: seq<Order>, left: set<Price>, p: Price, marks: map<Price,
                  set<OrderId>>)
    requires Unwritten(side, list, rest, left)
    requires p in left && p in marks && forall q :: q in left ==> !Better(side, q, p)
    ensures At(rest, p) == At(list, p) && Unwritten(side, list, Without(rest, p), left - {p})
    ensures Visible(rest, marks) == Shown(At(rest, p), marks[p]) + Visible(Without(rest, p), marks)
  {
    hide Visible, Shown, At, Without, Sorted;
    AtMembers(rest, p);
    WithoutMembers(rest, p);
    BestBlock(side, rest, p);
    VisibleConcat(At(rest, p), Without(rest, p), marks);
    VisibleBlock(At(rest, p), p, marks);
    forall q | q in left && q != p ensures At(Without(rest, p), q) == At(list, q) {
      AtWithout(rest, p, q);
    }
  }

  lemma SideFacts(book: OrderBook, side: Side)
    requires book.Valid()
    ensures var s := book.SideOf(side);
      s.Valid() && s.side == side && Unwritten(side, s.list, s.list, s.levels.Keys)
  {
  }

  lemma KnownBlock(book: OrderBook, side: Side, p: Price)
    requires book.Valid() && p in book.SideOf(side).levels
    ensures var s := book.SideOf(side);
      && Ids(At(s.list, p)) == s.levels[p].Ids()
      && forall o :: o in At(s.list, p) ==> o.id in book.idMap && book.idMap[o.id] == o
  {
    AtIds(book.SideOf(side).list, p);
    AtMembers(book.SideOf(side).list, p);
  }

  lemma LevelsHaveOrders(s: BookSide, left: set<Price>, rest: seq<Order>)
    requires s.Valid() && left != {} && left <= s.levels.Keys && Unwritten(s.side, s.list, rest, left)
    ensures exists p :: p in left && forall q :: q in left ==> !Better(s.side, q, p)
  {
    forall q | q in left ensures exists o :: o in rest && o.price == q {
      AtIds(s.list, q);
      AtMembers(rest, q);
      assert At(rest, q) != [];
      assert At(rest, q)[0] in At(rest, q);
    }
    var some :| some in left;
    var o :| o in rest && o.price == some;
    SortedTail(s.side, rest);
    assert rest[0] in rest;
  }

  // ---- the file ---------------------------------------------------------------

  function Header(sequence: nat, last: Price): seq<Record> {
    [Magic(MAGIC), Sequence(sequence), LastPrice(last)]
  }

  function Listing(s: seq<Order>): seq<Record> {
    [Count(|s|)] + Records(s)
  }

  /** A complete file. */
  function Layout(sequence: nat, last: Price, orders: seq<Order>, stops: seq<Order>): seq<Record> {
    Header(sequence, last) + Listing(orders) + Listing(stops)
  }

  /** The orders the level listings show, bids first. */
  ghost function Shows(book: OrderBook): seq<Order>
    reads book, book.bids, book.asks, book.bids.levels.Values, book.asks.levels.Values
  {
    Visible(book.bids.list, Marks(book.bids)) + Visible(book.asks.list, Marks(book.asks))
  }

  /** What is saved: the orders that are listed, under the count of all orders. */
  ghost function FileOf(book: OrderBook, pendingStops: seq<Order>, sequence: nat): seq<Record>
    reads book, book.bids, book.asks, book.bids.levels.Values, book.asks.levels.Values
  {
    Header(sequence, book.lastTradePrice) + [Count(|book.idMap|)] + Records(Shows(book)) + Listing(pendingStops)
  }

  /** The lists after placing the orders in turn on an empty book. */
  function Placed(orders: seq<Order>): State {
    if orders == [] then EMPTY_STATE else Place(Placed(orders[..|orders| - 1]), orders[|orders| - 1])
  }

  ghost predicate DistinctSaved(file: seq<Record>) {
    forall i, j :: 0 <= i < j < |file| && file[i].Saved? && file[j].Saved? ==> file[i].order.id != file[j].order.id
  }

  class SnapshotManager {
    var file: seq<Record>

    constructor ()
      ensures file == []
    {
      file := [];
    }

    method Save(book: OrderBook, pendingStops: seq<Order>, sequence: nat)
      requires book.Valid()
      modifies this
      ensures file == FileOf(book, pendingStops, sequence)
    {
      hide OrderBook.Valid, Marks, Visible, Records, FileOf;
      file := [Magic(MAGIC), Sequence(sequence), LastPrice(book.lastTradePrice), Count(|book.idMap|)];
      var bids := WriteSide(book, Buy);
      var asks := WriteSide(book, Sell);
      file := file + bids + asks + [Count(|pendingStops|)];
      ghost var start := file;
      NoRecords();
      for i := 0 to |pendingStops|
        invariant file == start + Records(pendingStops[..i])
      {
        RecordsAppend(pendingStops[..i], pendingStops[i]);
        assert pendingStops[..i + 1] == pendingStops[..i] + [pendingStops[i]];
        file := file + [Saved(pendingStops[i])];
      }
      assert pendingStops[..|pendingStops|] == pendingStops;
      FileParts(book, pendingStops, sequence, bids, asks);
    }

    /** Loads a file into an empty book. It succeeds exactly on files that begin
        like a complete one, and then holds the orders placed in the file's order.
        The ghost arguments stand for any complete file this one may be. */
    method Load(book: OrderBook, ghost sequence0: nat, ghost last0: Price, ghost orders0: seq<Order>,
                ghost stops0: seq<Order>)
      returns (ok: bool, pendingStops: seq<Order>, sequence: nat, orders: seq<Order>)
      requires book.Valid() && book.idMap == map[] && book.bids.list == [] && book.asks.list == []
      requires DistinctSaved(file)
      modifies book, book.bids, book.asks, book.Levels()
      ensures book.Valid() && fresh(book.Levels() - old(book.Levels())) && book.Graves() == old(book.Graves())
      ensures file == [] || file[0] != Magic(MAGIC) ==> !ok && book.idMap == map[]
      ensures ok ==> Layout(sequence, book.lastTradePrice, orders, pendingStops) <= file
      ensures ok ==> book.bids.list == Placed(orders).bids && book.asks.list == Placed(orders).asks
      ensures file == Layout(sequence0, last0, orders0, stops0) ==>
                && ok && orders == orders0 && pendingStops == stops0
                && sequence == sequence0 && book.lastTradePrice == last0
    {
      hide IdsOk, BookSide.Valid, Placed, Insert, Layout;
      ok, pendingStops, sequence, orders := false, [], 0, [];
      ghost var whole := file == Layout(sequence0, last0, orders0, stops0);
      LayoutParts(sequence0, last0, orders0, stops0);
      if |file| < 4 || file[0] != Magic(MAGIC) || !file[1].Sequence? || !file[2].LastPrice? || !file[3].Count? {
        return;
      }
      sequence := file[1].sequence;
      book.lastTradePrice := file[2].price;
      var n := file[3].count;
      orders := LoadOrders(book, n);
      var pos := 4 + |orders|;
      if whole {
        SameRecords(file, 4, orders, orders0);
      }
      if |orders| < n || pos >= |file| || !file[pos].Count? {
        return;
      }
      var m := file[pos].count;
      pendingStops := ReadStops(pos + 1, m);
      if whole {
        SameRecords(file, pos + 1, pendingStops, stops0);
      }
      ok := |pendingStops| == m;
      if ok {
        LayoutIs(file, sequence, book.lastTradePrice, orders, pendingStops);
      }
    }

    /** Reads up to `n` orders and inserts each into the book. */
    method LoadOrders(book: OrderBook, n: nat) returns (orders: seq<Order>)
      requires book.Valid() && book.idMap == map[] && book.bids.list == [] && book.asks.list == []
      requires DistinctSaved(file) && |file| >= 4
      modifies book, book.bids, book.asks, book.Levels()
      ensures book.Valid() && fresh(book.Levels() - old(book.Levels())) && book.Graves() == old(book.Graves())
      ensures book.lastTradePrice == old(book.lastTradePrice)
      ensures book.bids.list == Placed(orders).bids && book.asks.list == Placed(orders).asks
      ensures |orders| <= n && 4 + |orders| <= |file| && file[4..4 + |orders|] == Records(orders)
      ensures |orders| == n || 4 + |orders| == |file| || !file[4 + |orders|].Saved?
    {
      hide OrderBook.Valid, Insert, OrderBook.Haunted, BookSide.Buried, DistinctSaved, Records, Placed;
      orders := [];
      NothingPlaced();
      NoRecords();
      while |orders| < n && 4 + |orders| < |file| && file[4 + |orders|].Saved?
        invariant book.Valid() && fresh(book.Levels() - old(book.Levels())) && book.Graves() == old(book.Graves())
        invariant book.lastTradePrice == old(book.lastTradePrice)
        invariant book.bids.list == Placed(orders).bids && book.asks.list == Placed(orders).asks
        invariant forall id :: id in book.idMap ==> exists o :: o in orders && o.id == id
        invariant |orders| <= n && 4 + |orders| <= |file| && file[4..4 + |orders|] == Records(orders)
        decreases n - |orders|
      {
        var o := file[4 + |orders|].order;
        ReadOne(file, orders, o);
        book.InsertOrder(o);
        orders := orders + [o];
      }
    }

    /** Reads up to `n` orders from `pos` on. */
    method ReadStops(pos: nat, n: nat) returns (stops: seq<Order>)
      requires pos <= |file|
      ensures |stops| <= n && pos + |stops| <= |file| && file[pos..pos + |stops|] == Records(stops)
      ensures |stops| == n || pos + |stops| == |file| || !file[pos + |stops|].Saved?
    {
      stops := [];
      while |stops| < n && pos + |stops| < |file| && file[pos + |stops|].Saved?
        invariant |stops| <= n && pos + |stops| <= |file| && file[pos..pos + |stops|] == Records(stops)
        decreases n - |stops|
      {
        var k := |stops|;
        assert file[pos..pos + k + 1] == file[pos..pos + k] + [file[pos + k]];
        assert Records(stops + [file[pos + k].order]) == Records(stops) + [file[pos + k]];
        stops := stops + [file[pos + k].order];
      }
    }
  }

  lemma NothingPlaced()
    ensures Placed([]) == EMPTY_STATE
  {
  }

  lemma NoRecords()
    ensures Records([]) == []
  {
  }

  lemma RecordsConcat(s: seq<Order>, t: seq<Order>)
    ensures Records(s + t) == Records(s) + Records(t)
  {
  }

  lemma FileParts(book: OrderBook, pendingStops: seq<Order>, sequence: nat, bids: seq<Record>, asks: seq<Record>)
    requires bids == Records(Visible(book.bids.list, Marks(book.bids)))
    requires asks == Records(Visible(book.asks.list, Marks(book.asks)))
    ensures [Magic(MAGIC), Sequence(sequence), LastPrice(book.lastTradePrice), Count(|book.idMap|)] + bids + asks
            + [Count(|pendingStops|)] + Records(pendingStops) == FileOf(book, pendingStops, sequence)
  {
  }

  lemma RecordsAppend(orders: seq<Order>, o: Order)
    ensures Records(orders + [o]) == Records(orders) + [Saved(o)]
  {
  }

  lemma PlacedAppend(orders: seq<Order>, o: Order)
    ensures Placed(orders + [o]) == Place(Placed(orders), o)
  {
  }

  /** No id is read twice. */
  lemma NotReadBefore(file: seq<Record>, orders: seq<Order>, x: Order)
    requires var k := |orders|; 4 + k < |file| && file[4..4 + k] == Records(orders) && file[4 + k].Saved?
    requires DistinctSaved(file) && x in orders
    ensures x.id != file[4 + |orders|].order.id
  {
  }

  lemma SliceGrows<T>(s: seq<T>, i: nat, j: nat)
    requires i <= j < |s|
    ensures s[i..j + 1] == s[i..j] + [s[j]]
  {
  }

  /** One more order read from the file, of an id not read before. */
  lemma ReadOne(file: seq<Record>, orders: seq<Order>, o: Order)
    requires var k := |orders|; 4 + k < |file| && file[4..4 + k] == Records(orders) && file[4 + k] == Saved(o)
    requires DistinctSaved(file)
    ensures file[4..4 + |orders| + 1] == Records(orders + [o])
    ensures forall x :: x in orders ==> x.id != o.id
    ensures var st := Placed(orders + [o]); st == Place(Placed(orders), o)
  {
    hide Records, Placed, Place, DistinctSaved;
    forall x | x in orders ensures x.id != o.id {
      NotReadBefore(file, orders, x);
    }
    RecordsAppend(orders, o);
    PlacedAppend(orders, o);
    SliceGrows(file, 4, 4 + |orders|);
  }

  lemma LayoutParts(sequence: nat, last: Price, orders: seq<Order>, stops: seq<Order>)
    ensures var f := Layout(sequence, last, orders, stops);
      && |f| == 5 + |orders| + |stops|
      && f[0] == Magic(MAGIC) && f[1] == Sequence(sequence) && f[2] == LastPrice(last) && f[3] == Count(|orders|)
      && (forall i :: 0 <= i < |orders| ==> f[4 + i] == Saved(orders[i]))
      && f[4 + |orders|] == Count(|stops|)
      && (forall i :: 0 <= i < |stops| ==> f[5 + |orders| + i] == Saved(stops[i]))
  {
  }

  /** Reading stops short of the records that are there only at their end. */
  lemma SameRecords(file: seq<Record>, pos: nat, read: seq<Order>, there: seq<Order>)
    requires pos + |read| <= |file| && file[pos..pos + |read|] == Records(read) && |read| <= |there|
    requires pos + |there| <= |file| && forall i :: pos <= i < pos + |there| ==> file[i] == Saved(there[i - pos])
    requires |read| == |there| || pos + |read| == |file| || !file[pos + |read|].Saved?
    ensures read == there
  {
  }

  lemma LayoutIs(file: seq<Record>, sequence: nat, last: Price, orders: seq<Order>, stops: seq<Order>)
    requires var n := |orders|; var m := |stops|;
      && |file| >= 5 + n + m
      && file[0] == Magic(MAGIC) && file[1] == Sequence(sequence) && file[2] == LastPrice(last) && file[3] == Count(n)
      && file[4..4 + n] == Records(orders) && file[4 + n] == Count(m) && file[5 + n..5 + n + m] == Records(stops)
    ensures Layout(sequence, last, orders, stops) <= file
  {
  }

  // ---- there and back ---------------------------------------------------------

  lemma InsertLast(side: Side, s: seq<Order>, o: Order)
    requires Sorted(side, s + [o])
    ensures Insert(side, s, o) == s + [o]
  {
    if s != [] {
      var t := s + [o];
      assert t[0] == s[0] && t[|s|] == o;
      assert t[1..] == s[1..] + [o];
      SortedTail(side, t);
      InsertLast(side, s[1..], o);
    }
  }

  /** Placing the orders of a good book in listing order rebuilds it. */
  lemma {:induction false} PlacedRebuilds(bids: seq<Order>, asks: seq<Order>)
    requires Sorted(Buy, bids) && Sorted(Sell, asks)
    requires (forall o :: o in bids ==> o.side == Buy) && (forall o :: o in asks ==> o.side == Sell)
    ensures Placed(bids + asks).bids == bids && Placed(bids + asks).asks == asks
    decreases |bids| + |asks|
  {
    var all := bids + asks;
    if asks != [] {
      var n := |asks| - 1;
      assert all[..|all| - 1] == bids + asks[..n] && all[|all| - 1] == asks[n];
      assert asks == asks[..n] + [asks[n]];
      PlacedRebuilds(bids, asks[..n]);
      InsertLast(Sell, asks[..n], asks[n]);
    } else if bids != [] {
      var n := |bids| - 1;
      assert all[..|all| - 1] == bids[..n] + [] && all[|all| - 1] == bids[n];
      assert bids == bids[..n] + [bids[n]];
      PlacedRebuilds(bids[..n], []);
      InsertLast(Buy, bids[..n], bids[n]);
    }
  }

  lemma {:induction false} DistinctIdsCount(s: seq<Order>)
    requires Distinct(s)
    ensures |set o | o in s :: o.id| == |s|
  {
    var ids := set o | o in s :: o.id;
    if s == [] {
      assert ids == {};
    } else {
      var n := |s| - 1;
      DistinctIdsCount(s[..n]);
      var front := set o | o in s[..n] :: o.id;
      assert s == s[..n] + [s[n]];
      assert ids == front + {s[n].id};
      assert s[n].id !in front;
    }
  }

  /** The count in the file is that of all orders. */
  lemma IdMapCount(book: OrderBook)
    requires book.Valid()
    ensures |book.idMap| == |book.bids.list| + |book.asks.list|
  {
    var bids, asks := book.bids.list, book.asks.list;
    var bidIds, askIds := set o | o in bids :: o.id, set o | o in asks :: o.id;
    DistinctIdsCount(bids);
    DistinctIdsCount(asks);
    assert book.idMap.Keys == bidIds + askIds;
    assert bidIds * askIds == {};
    assert |book.idMap| == |book.idMap.Keys|;
  }

  /** The file is complete exactly when no order on the book is haunted. */
  lemma CompleteIff(book: OrderBook, pendingStops: seq<Order>, sequence: nat)
    requires book.Valid()
    ensures (forall id :: !book.Haunted(id)) <==>
            FileOf(book, pendingStops, sequence)
            == Layout(sequence, book.lastTradePrice, book.bids.list + book.asks.list, pendingStops)
  {
    hide OrderBook.Valid, OrderBook.Haunted, Records, Listing, Header, Layout, FileOf, Visible, Marks, Shows, Marked;
    ShowsAllIff(book);
    IdMapCount(book);
    FileSize(book, pendingStops, sequence);
    if Shows(book) == book.bids.list + book.asks.list {
      FileWhole(book, pendingStops, sequence);
    }
  }

  /** All orders are shown exactly when none is haunted; otherwise fewer are. */
  lemma ShowsAllIff(book: OrderBook)
    requires book.Valid()
    ensures (forall id :: !book.Haunted(id)) <==> Shows(book) == book.bids.list + book.asks.list
    ensures |Shows(book)| <= |book.bids.list| + |book.asks.list|
    ensures |Shows(book)| == |book.bids.list| + |book.asks.list| ==> Shows(book) == book.bids.list + book.asks.list
  {
    hide OrderBook.Valid, OrderBook.Haunted, Visible, Marks, Marked;
    VisibleAllIff(book.bids.list, Marks(book.bids));
    VisibleAllIff(book.asks.list, Marks(book.asks));
    MarkedIsHaunted(book);
    SameHalves(Visible(book.bids.list, Marks(book.bids)), Visible(book.asks.list, Marks(book.asks)),
               book.bids.list, book.asks.list);
  }

  lemma SameHalves<T>(a: seq<T>, b: seq<T>, c: seq<T>, d: seq<T>)
    requires |a| <= |c| && |b| <= |d|
    ensures a + b == c + d <==> |a| == |c| && |b| == |d| && a == c && b == d
  {
    if a + b == c + d {
      assert |a + b| == |c + d|;
      assert a == (a + b)[..|a|] && b == (a + b)[|a|..];
      assert c == (c + d)[..|c|] && d == (c + d)[|c|..];
    }
  }

  lemma FileSize(book: OrderBook, pendingStops: seq<Order>, sequence: nat)
    ensures |FileOf(book, pendingStops, sequence)| == 5 + |Shows(book)| + |pendingStops|
    ensures var orders := book.bids.list + book.asks.list;
      |Layout(sequence, book.lastTradePrice, orders, pendingStops)| ==
        5 + |book.bids.list| + |book.asks.list| + |pendingStops|
  {
  }

  lemma FileWhole(book: OrderBook, pendingStops: seq<Order>, sequence: nat)
    requires Shows(book) == book.bids.list + book.asks.list && |book.idMap| == |Shows(book)|
    ensures FileOf(book, pendingStops, sequence) == Layout(sequence, book.lastTradePrice, Shows(book), pendingStops)
  {
  }

  lemma MarkedIsHaunted(book: OrderBook)
    requires book.Valid()
    ensures (forall id :: !book.Haunted(id)) <==>
            && (forall o :: o in book.bids.list ==> !Marked(o, Marks(book.bids)))
            && (forall o :: o in book.asks.list ==> !Marked(o, Marks(book.asks)))
  {
    forall o | o in book.bids.list ensures Marked(o, Marks(book.bids)) <==> book.Haunted(o.id) {
    }
    forall o | o in book.asks.list ensures Marked(o, Marks(book.asks)) <==> book.Haunted(o.id) {
    }
  }

  lemma {:induction false} CountedDistinct(s: seq<Order>)
    requires forall id :: Sum(s, IdIs(id)) <= 1
    ensures Distinct(s)
  {
    if s != [] {
      forall id ensures Sum(s[1..], IdIs(id)) <= 1 {
        assert Sum(s, IdIs(id)) >= Sum(s[1..], IdIs(id));
      }
      CountedDistinct(s[1..]);
      assert Sum(s, IdIs(s[0].id)) <= 1;
      SumZero(s[1..], s[0].id);
      DistinctCons(s[0], s[1..]);
      assert s == [s[0]] + s[1..];
    }
  }

  lemma StateDistinct(st: State)
    requires UniqueIds(st)
    ensures Distinct(st.bids + st.asks + st.stops)
  {
    hide Distinct;
    forall id ensures Sum(st.bids + st.asks + st.stops, IdIs(id)) <= 1 {
      SumConcat(st.bids, st.asks, IdIs(id));
      SumConcat(st.bids + st.asks, st.stops, IdIs(id));
      assert StateSum(st, IdIs(id)) <= 1;
    }
    CountedDistinct(st.bids + st.asks + st.stops);
  }

  /** Where the order of a record in a complete file comes from. */
  lemma SavedOrder(sequence: nat, last: Price, orders: seq<Order>, stops: seq<Order>, i: nat)
    requires var f := Layout(sequence, last, orders, stops); i < |f| && f[i].Saved?
    ensures var k := if i < 4 + |orders| then i - 4 else i - 5;
      0 <= k < |orders + stops| && i != 4 + |orders| &&
        Layout(sequence, last, orders, stops)[i].order == (orders + stops)[k]
  {
  }

  /** A file of a state with unique ids names no order twice. */
  lemma LayoutDistinct(st: State, sequence: nat)
    requires UniqueIds(st)
    ensures DistinctSaved(Layout(sequence, st.last, st.bids + st.asks, st.stops))
  {
    hide Layout, UniqueIds;
    StateDistinct(st);
    var f := Layout(sequence, st.last, st.bids + st.asks, st.stops);
    forall i, j | 0 <= i < j < |f| && f[i].Saved? && f[j].Saved?
      ensures f[i].order.id != f[j].order.id
    {
      SavedOrder(sequence, st.last, st.bids + st.asks, st.stops, i);
      SavedOrder(sequence, st.last, st.bids + st.asks, st.stops, j);
    }
  }

  /** Saves an engine and rebuilds it in an empty one: the copy stands for the same
      eager state, although it has no tombstones. */
  method SaveAndLoad(engine: MatchingEngine) returns (copy: MatchingEngine)
    requires engine.Valid() && UniqueIds(engine.St()) && forall id :: !engine.book.Haunted(id)
    ensures fresh(copy) && fresh(copy.book) && fresh(copy.book.bids) && fresh(copy.book.asks)
    ensures fresh(copy.book.Levels())
    ensures copy.Valid() && copy.St() == engine.St() && copy.sequence == engine.sequence
    ensures copy.book.Graves() == iset{} && copy.revisits == 0
    ensures Apart(engine, copy)
  {
    hide IdsOk, Placed, Layout, UniqueIds, DistinctSaved, FileOf, OrderBook.Haunted, BookSide.Valid;
    ghost var st := engine.St();
    var manager := new SnapshotManager();
    CompleteIff(engine.book, engine.pendingStops, engine.sequence);
    LayoutDistinct(st, engine.sequence);
    BookIsOrdered(engine.book);
    PlacedRebuilds(st.bids, st.asks);
    manager.Save(engine.book, engine.pendingStops, engine.sequence);
    copy := Restore(manager, st, engine.sequence);
  }

  lemma BookIsOrdered(book: OrderBook)
    requires book.Valid()
    ensures Sorted(Buy, book.bids.list) && Sorted(Sell, book.asks.list)
    ensures (forall o :: o in book.bids.list ==> o.side == Buy) && (forall o :: o in book.asks.list ==> o.side == Sell)
  {
  }

  /** Loads a complete file into a new engine. */
  method Restore(manager: SnapshotManager, ghost st: State, ghost sequence: nat) returns (copy: MatchingEngine)
    requires manager.file == Layout(sequence, st.last, st.bids + st.asks, st.stops) && DistinctSaved(manager.file)
    requires Placed(st.bids + st.asks).bids == st.bids && Placed(st.bids + st.asks).asks == st.asks
    ensures fresh(copy) && fresh(copy.book) && fresh(copy.book.bids) && fresh(copy.book.asks)
    ensures fresh(copy.book.Levels())
    ensures copy.Valid() && copy.St() == st && copy.sequence == sequence && copy.book.Graves() == iset{}
    ensures copy.revisits == 0
  {
    hide IdsOk, Placed, Layout, DistinctSaved, BookSide.Valid;
    copy := new MatchingEngine();
    var ok, stops, number, orders := manager.Load(copy.book, sequence, st.last, st.bids + st.asks, st.stops);
    copy.pendingStops := stops;
    copy.sequence := number;
  }

  /** Two engines that stand for the same eager state, whatever their tombstones and
      volumes, answer any event that both can serve alike, and stand for the same
      state again. */
  method SubmitBoth(engine: MatchingEngine, copy: MatchingEngine, e: Event) returns (r: MatchResult, r': MatchResult)
    requires engine.Valid() && copy.Valid() && Apart(engine, copy)
    requires copy.St() == engine.St() && UniqueIds(engine.St()) && WellFormed(engine.St(), e)
    requires engine.Serves(e) && copy.Serves(e)
    modifies engine, engine.book, engine.book.bids, engine.book.asks, engine.book.Levels()
    modifies copy, copy.book, copy.book.bids, copy.book.asks, copy.book.Levels()
    ensures r == r' && (engine.St(), r) == Submit(old(engine.St()), e)
    ensures engine.Valid() && copy.Valid() && Apart(engine, copy)
    ensures copy.St() == engine.St() && UniqueIds(engine.St())
    ensures engine.revisits >= old(engine.revisits) && copy.revisits >= old(copy.revisits)
    ensures old(engine.Clean()) && engine.revisits == old(engine.revisits) ==> engine.Clean()
    ensures old(copy.Clean()) && copy.revisits == old(copy.revisits) ==> copy.Clean()
    ensures forall visited ::
              old(Tracked(engine, visited) && Tracked(copy, visited) && NoReturn(engine.St(), visited, e)) ==>
              && Tracked(engine, visited + PlacesOfEvent(old(engine.St()), e))
              && Tracked(copy, visited + PlacesOfEvent(old(engine.St()), e))
    ensures fresh(engine.book.Levels() - old(engine.book.Levels()))
    ensures fresh(copy.book.Levels() - old(copy.book.Levels()))
  {
    hide UniqueIds, WellFormed, Submit, OrderBook.Valid, OrderBook.Levels, OrderBook.Haunted, MatchingEngine.Serves,
         MatchingEngine.Clean, MatchingEngine.St, Apart, Tracked, NoReturn, PlacesOfEvent;
    ApartBoth(engine, copy);
    label first:
    r := SubmitBeside(engine, copy, e);
    label second:
    ApartBoth(engine, copy);
    r' := SubmitBeside(copy, engine, e);
    ApartBoth(copy, engine);
    forall level | level in copy.book.Levels() && level !in old(copy.book.Levels()) ensures fresh(level) {
      assert fresh@second(level);
    }
  }

  lemma ApartBoth(e: MatchingEngine, f: MatchingEngine)
    ensures Apart(e, f) <==> Apart(f, e)
  {
  }

  /** Without tombstones every order is clear of them. */
  lemma CleanWithout(st: State, graves: iset<Grave>)
    requires AllState(st, Clear(graves))
    ensures AllState(st, Clear(iset{}))
  {
    StateClearFewer(st, graves, iset{});
  }

  /** Two engines of one eager state give the same results for every run of well-formed
      events: to its end, or to the first event at which one of them is to take a
      haunted order off its book. */
  method PlayBoth(engine: MatchingEngine, copy: MatchingEngine, es: seq<Event>, ghost visited: iset<Grave>)
    returns (original: seq<MatchResult>, resumed: seq<MatchResult>)
    requires engine.Valid() && copy.Valid() && Apart(engine, copy)
    requires copy.St() == engine.St() && UniqueIds(engine.St()) && WellFormedRun(engine.St(), es)
    modifies engine, engine.book, engine.book.bids, engine.book.asks, engine.book.Levels()
    modifies copy, copy.book, copy.book.bids, copy.book.asks, copy.book.Levels()
    ensures (forall e :: e in es ==> AdmissibleEvent(e)) && |original| <= |es|
    ensures original == resumed == Play(old(engine.St()), es[..|original|]).1
    ensures |original| < |es| ==> !engine.Serves(es[|original|]) || !copy.Serves(es[|original|])
    ensures old(engine.Clean() && copy.Clean()) ==>
              (engine.revisits, copy.revisits) == old((engine.revisits, copy.revisits)) ==>
                |original| == |es|
    ensures old(Tracked(engine, visited) && Tracked(copy, visited)) && NoReturnRun(old(engine.St()), visited, es) ==>
              |original| == |es|
  {
    hide *;
    ghost var st0, l0 := engine.St(), engine.Spent();
    ghost var tracked := Tracked(engine, visited) && Tracked(copy, visited) && NoReturnRun(st0, visited, es);
    ghost var seen := visited;
    RunAdmissible(st0, es);
    NothingPlayed(st0, l0);
    original, resumed := [], [];
    assert es[0..] == es && es[..0] == [];
    var i := 0;
    while i < |es|
      invariant 0 <= i <= |es| && |original| == i && resumed == original
      invariant engine.Valid() && copy.Valid() && Apart(engine, copy) && UniqueIds(engine.St())
      invariant copy.St() == engine.St()
      invariant fresh(engine.book.Levels() - old(engine.book.Levels()))
      invariant fresh(copy.book.Levels() - old(copy.book.Levels()))
      invariant WellFormedRun(engine.St(), es[i..])
      invariant (engine.St(), original) == Play(st0, es[..i])
      invariant engine.revisits >= old(engine.revisits) && copy.revisits >= old(copy.revisits)
      invariant old(engine.Clean()) && engine.revisits == old(engine.revisits) ==> engine.Clean()
      invariant old(copy.Clean()) && copy.revisits == old(copy.revisits) ==> copy.Clean()
      invariant tracked ==> Tracked(engine, seen) && Tracked(copy, seen) && NoReturnRun(engine.St(), seen, es[i..])
    {
      assert es[..i + 1] == es[..i] + [es[i]];
      PlayMore(st0, l0, es[..i], es[i]);
      label both:
      ghost var levels, levels' := engine.book.Levels(), copy.book.Levels();
      ghost var places := PlacesOfEvent(engine.St(), es[i]);
      var ok, r, r' := BothNext(engine, copy, es, i, seen);
      if !ok {
        return;
      }
      forall level | level in engine.book.Levels() && level !in levels ensures fresh(level) {
        assert fresh@both(level);
      }
      forall level | level in copy.book.Levels() && level !in levels' ensures fresh(level) {
        assert fresh@both(level);
      }
      original, resumed := original + [r], resumed + [r'];
      i, seen := i + 1, seen + places;
    }
    assert es[..|es|] == es;
  }

  /** The next event of such a run, if both engines can carry it out. */
  method BothNext(engine: MatchingEngine, copy: MatchingEngine, es: seq<Event>, i: nat, ghost seen: iset<Grave>)
    returns (ok: bool, r: MatchResult, r': MatchResult)
    requires engine.Valid() && copy.Valid() && Apart(engine, copy) && i < |es|
    requires copy.St() == engine.St() && UniqueIds(engine.St()) && WellFormedRun(engine.St(), es[i..])
    modifies engine, engine.book, engine.book.bids, engine.book.asks, engine.book.Levels()
    modifies copy, copy.book, copy.book.bids, copy.book.asks, copy.book.Levels()
    ensures !ok ==> !engine.Serves(es[i]) || !copy.Serves(es[i])
    ensures old(engine.Clean() && copy.Clean()) ==> ok
    ensures AdmissibleEvent(es[i])
    ensures ok ==> r == r' && (engine.St(), r) == Submit(old(engine.St()), es[i])
    ensures ok ==> engine.Valid() && copy.Valid() && Apart(engine, copy) && copy.St() == engine.St()
    ensures ok ==> UniqueIds(engine.St()) && WellFormedRun(engine.St(), es[i + 1..])
    ensures engine.revisits >= old(engine.revisits) && copy.revisits >= old(copy.revisits)
    ensures ok && old(engine.Clean()) && engine.revisits == old(engine.revisits) ==> engine.Clean()
    ensures ok && old(copy.Clean()) && copy.revisits == old(copy.revisits) ==> copy.Clean()
    ensures old(Tracked(engine, seen) && Tracked(copy, seen) && NoReturnRun(engine.St(), seen, es[i..])) ==>
              var seen' := seen + PlacesOfEvent(old(engine.St()), es[i]);
              ok && Tracked(engine, seen') && Tracked(copy, seen') && NoReturnRun(engine.St(), seen', es[i + 1..])
    ensures ok ==> fresh(engine.book.Levels() - old(engine.book.Levels()))
    ensures ok ==> fresh(copy.book.Levels() - old(copy.book.Levels()))
  {
    hide *;
    NextEvent(engine.St(), es, i);
    TrackedIff(engine, seen);
    TrackedIff(copy, seen);
    r, r' := EMPTY_RESULT, EMPTY_RESULT;
    ok := BothCanServe(engine, copy, es[i]);
    if ok {
      label next:
      r, r' := SubmitBoth(engine, copy, es[i]);
      forall level | level in engine.book.Levels() && level !in old(engine.book.Levels()) ensures fresh(level) {
        assert fresh@next(level);
      }
      forall level | level in copy.book.Levels() && level !in old(copy.book.Levels()) ensures fresh(level) {
        assert fresh@next(level);
      }
    }
  }

  /** Continuing from a snapshot gives the same results as never stopping, for every
      later run of well-formed events: to its end, or to the first event at which one
      of the two engines is to take a haunted order off its book. If the engine was
      clean, that does not come unless some event brings an id bound for a level that
      still holds a tombstone of it, in one engine or the other, which takes an id that
      comes back to where it was. */
  method Continue(engine: MatchingEngine, es: seq<Event>, ghost visited: iset<Grave>)
    returns (copy: MatchingEngine, original: seq<MatchResult>, resumed: seq<MatchResult>)
    requires engine.Valid() && UniqueIds(engine.St()) && WellFormedRun(engine.St(), es)
    requires forall id :: !engine.book.Haunted(id)
    modifies engine, engine.book, engine.book.bids, engine.book.asks, engine.book.Levels()
    ensures (forall e :: e in es ==> AdmissibleEvent(e)) && |original| <= |es|
    ensures original == resumed == Play(old(engine.St()), es[..|original|]).1
    ensures |original| < |es| ==> !engine.Serves(es[|original|]) || !copy.Serves(es[|original|])
    ensures old(engine.Clean()) && engine.revisits == old(engine.revisits) && copy.revisits == 0 ==> |original| == |es|
    ensures old(Tracked(engine, visited)) && NoReturnRun(old(engine.St()), visited, es) ==> |original| == |es|
  {
    hide *;
    copy := SaveAndLoad(engine);
    TrackedIff(engine, visited);
    if engine.Clean() {
      CopyIsClean(engine, copy, visited);
    }
    original, resumed := PlayBoth(engine, copy, es, visited);
  }

  lemma CopyIsClean(engine: MatchingEngine, copy: MatchingEngine, visited: iset<Grave>)
    requires copy.St() == engine.St() && copy.book.Graves() == iset{} && engine.Clean()
    ensures copy.Clean() && (Tracked(engine, visited) ==> Tracked(copy, visited))
  {
    CleanWithout(engine.St(), engine.book.Graves());
  }

  /** Can both engines carry the event out? Clean ones can. */
  method BothCanServe(engine: MatchingEngine, copy: MatchingEngine, e: Event) returns (ok: bool)
    requires engine.Valid() && copy.Valid()
    ensures ok <==> engine.Serves(e) && copy.Serves(e)
    ensures engine.Clean() && copy.Clean() ==> ok
  {
    hide MatchingEngine.Valid, MatchingEngine.Serves, MatchingEngine.Clean;
    if engine.Clean() && copy.Clean() {
      engine.CleanServes(e);
      copy.CleanServes(e);
    }
    ok := engine.CanServe(e);
    if ok {
      ok := copy.CanServe(e);
    }
  }
}
