/** What fills that use an order up leave in the volumes of levels, as an account the
    reference machine keeps: one entry per price at which something rests. */
module Spending {
  import opened Orders
  import opened Ladder
  import opened Volumes
  import opened Matcher

  datatype Ledger = Ledger(bids: map<Price, Quantity>, asks: map<Price, Quantity>)

  const EMPTY_LEDGER := Ledger(map[], map[])

  function LedgerOf(l: Ledger, side: Side): map<Price, Quantity> {
    if side.Buy? then l.bids else l.asks
  }

  function WithLedger(l: Ledger, side: Side, m: map<Price, Quantity>): Ledger {
    if side.Buy? then l.(bids := m) else l.(asks := m)
  }

  /** Nothing of the order, not even a reserve, is left after a fill of `q`. */
  predicate UsedUp(p: Order, q: Quantity) {
    p.quantity == q && !(p.IsIceberg() && p.reserveQty > 0)
  }

  /** After a fill of `q` of the first order of a side, which leaves `s` there. */
  function FillSpends(m: map<Price, Quantity>, best: Order, q: Quantity, s: seq<Order>): map<Price, Quantity> {
    if UsedUp(best, q) then Kept(Charged(m, best.price, q), best.price, s) else m
  }

  function StepSpends(c: Config, l: Ledger): Ledger {
    match c.stack
    case Idle => l
    case Push(Matching(a), below) =>
      if CanFill(c.st, a) then
        var s := OnSide(c.st, Opp(a.side));
        var q := FillQty(c.st, a);
        WithLedger(l, Opp(a.side), FillSpends(LedgerOf(l, Opp(a.side)), s[0], q, AfterFill(Opp(a.side), s, q)))
      else if Rests(a) then
        WithLedger(l, a.side, Opened(LedgerOf(l, a.side), a.price))
      else l
    case Push(Evaluating(_, _), _) => l
  }

  ghost function RunSpends(c: Config, l: Ledger): Ledger
    decreases Steps(c)
  {
    if c.stack.Idle? then l else RunSpends(Step(c), StepSpends(c, l))
  }

  /** A step adds to the account of a level only when it is a fill that leaves nothing
      of the first order there, neither in its slice nor in a reserve, and then adds
      the quantity of that fill. A level that opens has nothing on its account, and an
      account is closed only when nothing rests at its price any more. */
  lemma StepSpent(c: Config, l: Ledger, side: Side, p: Price)
    ensures var (m, m') := (LedgerOf(l, side), LedgerOf(StepSpends(c, l), side));
      var before := if p in m then m[p] else 0;
      && (p in m' ==>
            m'[p] ==
            if !(c.stack.Push? && c.stack.top.Matching? && CanFill(c.st, c.stack.top.order)) then before
            else
              var a := c.stack.top.order;
              var best := OnSide(c.st, Opp(a.side))[0];
              var usedUp := best.quantity <= a.quantity && (best.peakQty == 0 || best.reserveQty == 0);
              if side != a.side && best.price == p && usedUp then before + best.quantity else before)
      && (p in m && p !in m' ==> forall o :: o in OnSide(Step(c).st, side) ==> o.price != p)
  {
  }

  /** A cancel or a modify adds to no account; a level that it closes and opens again
      starts with nothing. */
  lemma RequestsSpendNothing(st: State, l: Ledger, e: Event, side: Side, p: Price)
    requires e.CancelOrder? || e.ModifyOrder?
    ensures var (m, m') := (LedgerOf(l, side), LedgerOf(SubmitSpends(st, l, e), side));
      p in m' ==> m'[p] == 0 || (p in m && m'[p] == m[p])
  {
  }

  lemma RunSpendsStep(c: Config, l: Ledger)
    requires c.stack.Push?
    ensures RunSpends(c, l) == RunSpends(Step(c), StepSpends(c, l))
  {
  }

  lemma NothingMoreSpent(c: Config, l: Ledger)
    requires c.stack.Idle?
    ensures RunSpends(c, l) == l
  {
  }

  // ---- events -----------------------------------------------------------------

  ghost function EnterSpends(st: State, l: Ledger, o: Order): Ledger
    requires Admissible(o)
  {
    RunSpends(Launch(Config(st, Idle, EMPTY_RESULT), o), l)
  }

  /** A cancel subtracts all that the order shows, so it leaves nothing behind. */
  function WithdrawSpends(st: State, l: Ledger, o: Order): Ledger {
    WithLedger(l, o.side, Kept(LedgerOf(l, o.side), o.price, Remove(OnSide(st, o.side), o.id)))
  }

  function PlaceSpends(l: Ledger, o: Order): Ledger {
    WithLedger(l, o.side, Opened(LedgerOf(l, o.side), o.price))
  }

  ghost function SubmitSpends(st: State, l: Ledger, e: Event): Ledger
    requires AdmissibleEvent(e)
  {
    match e
    case NewOrder(o) => EnterSpends(st, l, o)
    case CancelOrder(id, _) =>
      if Evicts(st, e) then WithdrawSpends(st, l, Lookup(st, id).value) else l
    case ModifyOrder(id, price, quantity, timestamp) =>
      if Evicts(st, e) then
        PlaceSpends(WithdrawSpends(st, l, Lookup(st, id).value),
          Modified(Lookup(st, id).value, price, quantity, timestamp))
      else l
    case ReplaceOrder(id, o) =>
      if Evicts(st, e) then EnterSpends(Withdraw(st, id), WithdrawSpends(st, l, Lookup(st, id).value), o) else l
  }

  ghost function PlaySpends(st: State, l: Ledger, es: seq<Event>): Ledger
    requires forall e :: e in es ==> AdmissibleEvent(e)
    decreases |es|
  {
    if es == [] then l else PlaySpends(Submit(st, es[0]).0, SubmitSpends(st, l, es[0]), es[1..])
  }
}
