/** The displayed volume of price levels, against the orders that rest there. A
    fill that uses an order up leaves its quantity in the volume of the level: by
    the time the order is taken off, it has no quantity left to subtract. */
module Volumes {
  import opened Orders
  import opened Ladder

  function QtyAt(p: Price): Order -> nat {
    (o: Order) => if o.price == p then o.quantity else 0
  }

  /** What really rests at a price. */
  function LiveQty(s: seq<Order>, p: Price): nat {
    Sum(s, QtyAt(p))
  }

  /** The volume of every level is what rests there plus what was spent there by
      fills that used an order up, since the level was opened. */
  ghost predicate Balanced(volumes: map<Price, Quantity>, s: seq<Order>, spent: map<Price, Quantity>) {
    && spent.Keys == volumes.Keys
    && forall p :: p in volumes ==> volumes[p] == LiveQty(s, p) + spent[p]
  }

  /** The price has an entry, with nothing spent if it had none. */
  function Opened(m: map<Price, Quantity>, p: Price): map<Price, Quantity> {
    if p in m then m else m[p := 0]
  }

  /** The price has an entry only if an order still rests at it. */
  function Kept(m: map<Price, Quantity>, p: Price, s: seq<Order>): map<Price, Quantity> {
    if exists o :: o in s && o.price == p then m else m - {p}
  }

  function Charged(m: map<Price, Quantity>, p: Price, q: Quantity): map<Price, Quantity> {
    m[p := (if p in m then m[p] else 0) + q]
  }

  /** What was charged before is taken back. */
  function Refunded(m: map<Price, Quantity>, p: Price, q: Quantity): map<Price, Quantity> {
    if p in m then m[p := if m[p] >= q then m[p] - q else 0] else m
  }

  lemma ChargedAndRefunded(m: map<Price, Quantity>, p: Price, q: Quantity)
    requires p in m
    ensures Refunded(Charged(m, p, q), p, q) == m
  {
  }

  lemma {:induction false} NothingRests(s: seq<Order>, p: Price)
    requires forall o :: o in s ==> o.price != p
    ensures LiveQty(s, p) == 0
  {
    if s != [] {
      NothingRests(s[1..], p);
    }
  }

  lemma {:induction false} LiveQtyUpdate(s: seq<Order>, was: Order, o: Order, p: Price)
    requires Distinct(s) && was in s && was.id == o.id
    ensures LiveQty(Update(s, o), p) + QtyAt(p)(was) == LiveQty(s, p) + QtyAt(p)(o)
  {
    assert s == [s[0]] + s[1..];
    if s[0].id == o.id {
      assert s[0] == was;
    } else {
      LiveQtyUpdate(s[1..], was, o, p);
    }
  }

  /** A level opens with nothing spent. */
  lemma BalancedOpen(volumes: map<Price, Quantity>, s: seq<Order>, spent: map<Price, Quantity>, p: Price)
    requires Balanced(volumes, s, spent) && forall o :: o in s ==> o.price != p
    ensures Balanced(volumes[p := 0], s, spent[p := 0])
  {
    NothingRests(s, p);
  }

  lemma BalancedInsert(side: Side, volumes: map<Price, Quantity>, s: seq<Order>, spent: map<Price, Quantity>, o: Order)
    requires Balanced(volumes, s, spent) && o.price in volumes
    ensures Balanced(volumes[o.price := volumes[o.price] + o.quantity], Insert(side, s, o), spent)
  {
    hide Insert;
    forall p ensures LiveQty(Insert(side, s, o), p) == LiveQty(s, p) + QtyAt(p)(o) {
      SumInsert(side, s, o, QtyAt(p));
    }
  }

  /** The subtraction never clamps. */
  lemma BalancedRemove(volumes: map<Price, Quantity>, s: seq<Order>, spent: map<Price, Quantity>, o: Order)
    requires Balanced(volumes, s, spent) && Distinct(s) && o in s && o.price in volumes
    ensures volumes[o.price] >= o.quantity
    ensures Balanced(volumes[o.price := volumes[o.price] - o.quantity], Remove(s, o.id), spent)
  {
    hide Remove;
    forall p ensures LiveQty(Remove(s, o.id), p) + QtyAt(p)(o) == LiveQty(s, p) {
      SumRemove(s, o, QtyAt(p));
    }
    assert LiveQty(s, o.price) >= QtyAt(o.price)(o);
  }

  lemma BalancedClose(volumes: map<Price, Quantity>, s: seq<Order>, spent: map<Price, Quantity>, p: Price)
    requires Balanced(volumes, s, spent)
    ensures Balanced(volumes - {p}, s, spent - {p})
  {
  }

  /** Quantity taken off an order is at first still in the volume. */
  lemma BalancedAmend(volumes: map<Price, Quantity>, s: seq<Order>, spent: map<Price, Quantity>, was: Order, o: Order)
    requires Balanced(volumes, s, spent) && Distinct(s) && was in s && was.id == o.id
    requires o.price == was.price && o.price in volumes && o.quantity <= was.quantity
    ensures Balanced(volumes, Update(s, o), spent[o.price := spent[o.price] + was.quantity - o.quantity])
  {
    hide Update;
    forall p ensures LiveQty(Update(s, o), p) + QtyAt(p)(was) == LiveQty(s, p) + QtyAt(p)(o) {
      LiveQtyUpdate(s, was, o, p);
    }
  }

  /** The subtraction never clamps. */
  lemma BalancedReduce(volumes: map<Price, Quantity>, s: seq<Order>, spent: map<Price, Quantity>, p: Price,
                       delta: Quantity)
    requires Balanced(volumes, s, spent) && p in volumes && delta <= spent[p]
    ensures volumes[p] >= delta
    ensures Balanced(volumes[p := volumes[p] - delta], s, spent[p := spent[p] - delta])
  {
  }
}
