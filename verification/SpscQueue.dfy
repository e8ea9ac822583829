/** The single-producer single-consumer ring: sequentially as a class, and as two
    threads whose atomic loads, writes and stores interleave in any order. */
module SpscQueues {
  // ---- masked indices ---------------------------------------------------------

  function Pow2(k: nat): (p: nat)
    ensures p > 0
  {
    if k == 0 then 1 else 2 * Pow2(k - 1)
  }

  /** Bitwise conjunction of natural numbers. */
  function And(a: nat, b: nat): nat {
    if a == 0 || b == 0 then 0
    else (a % 2) * (b % 2) + 2 * And(a / 2, b / 2)
  }

  /** With a capacity that is a power of two, masking is taking the remainder. */
  lemma {:induction false} MaskIsRemainder(x: nat, k: nat)
    ensures And(x, Pow2(k) - 1) == x % Pow2(k)
  {
    hide And, Pow2;
    PowerDoubles(k);
    AndNothing(x);
    if k == 0 {
      RemainderIs(x, 1, x, 0);
    } else if x == 0 {
      RemainderIs(0, Pow2(k), 0, 0);
    } else {
      var half := Pow2(k - 1);
      AndOdd(x, half - 1);
      MaskIsRemainder(x / 2, k - 1);
      RemainderOfDouble(x, half);
    }
  }

  lemma PowerDoubles(k: nat)
    ensures Pow2(k) == if k == 0 then 1 else 2 * Pow2(k - 1)
  {
  }

  lemma AndNothing(x: nat)
    ensures And(x, 0) == 0 && forall m: nat :: And(0, m) == 0
  {
  }

  lemma AndOdd(x: nat, m: nat)
    requires x > 0
    ensures And(x, 2 * m + 1) == x % 2 + 2 * And(x / 2, m)
  {
  }

  lemma RemainderOfDouble(x: nat, half: nat)
    requires half > 0
    ensures x % (2 * half) == 2 * ((x / 2) % half) + x % 2
  {
    var q, r := Divide(x / 2, half);
    DoubleProduct(q, half);
    RemainderIs(x, 2 * half, q, 2 * r + x % 2);
  }

  lemma DoubleProduct(q: nat, half: nat)
    ensures q * (2 * half) == 2 * (q * half)
  {
  }

  lemma Divide(x: nat, n: nat) returns (q: nat, r: nat)
    requires n > 0
    ensures x == q * n + r && r < n && r == x % n
  {
    q, r := x / n, x % n;
  }

  lemma {:induction false} ProductGap(a: nat, b: nat, n: nat)
    ensures a > b ==> a * n >= b * n + n
  {
    if a > b {
      ProductSum(a - 1, 1, n);
      ProductGap(a - 1, b, n);
    }
  }

  lemma ProductSum(a: nat, b: nat, n: nat)
    ensures (a + b) * n == a * n + b * n
  {
  }

  lemma RemainderIs(x: nat, n: nat, q: nat, r: nat)
    requires n > 0 && r < n && x == q * n + r
    ensures x % n == r
  {
    var q', r' := Divide(x, n);
    ProductGap(q, q', n);
    ProductGap(q', q, n);
  }

  /** The index after `i` in a ring of `capacity` slots. */
  function Next(i: nat, capacity: nat): (n: nat)
    requires capacity > 0
    ensures n < capacity
  {
    (i + 1) % capacity
  }

  lemma NextOfSlot(x: nat, capacity: nat)
    requires capacity > 0
    ensures Next(x % capacity, capacity) == (x + 1) % capacity
  {
    ShiftedSlot(x, 1, capacity);
  }

  lemma ShiftedSlot(x: nat, i: nat, capacity: nat)
    requires capacity > 0
    ensures (x % capacity + i) % capacity == (x + i) % capacity
  {
    var q, r := Divide(x, capacity);
    var q', r' := Divide(r + i, capacity);
    ProductSum(q, q', capacity);
    RemainderIs(x + i, capacity, q + q', r');
  }

  lemma NextTurn(x: nat, capacity: nat)
    requires capacity > 0
    ensures (x + capacity) % capacity == x % capacity
  {
    var q, r := Divide(x, capacity);
    ProductSum(q, 1, capacity);
    RemainderIs(x + capacity, capacity, q + 1, r);
  }

  /** Counts less than a full turn apart use different slots. */
  lemma SlotsDiffer(x: nat, y: nat, capacity: nat)
    requires capacity > 0 && x < y < x + capacity
    ensures x % capacity != y % capacity
  {
    var q, r := Divide(x, capacity);
    var d := y - x;
    if r + d < capacity {
      RemainderIs(y, capacity, q, r + d);
    } else {
      ProductSum(q, 1, capacity);
      RemainderIs(y, capacity, q + 1, r + d - capacity);
    }
  }

  // ---- the two threads --------------------------------------------------------

  /** Where the producer is inside `push`. */
  datatype Producer<T> =
    | AtRest
    | Writing(item: T)      // saw room, will write the slot
    | Publishing(item: T)   // wrote the slot, will store the tail

  /** Where the consumer is inside `pop`. */
  datatype Consumer<T> =
    | Waiting
    | Reading               // saw an item, will read the slot
    | Releasing(item: T)    // read the slot, will store the head

  /** The shared memory, where each thread is, and what each call achieved so far. */
  datatype Ring<T> = Ring(
    buffer: seq<T>,
    head: nat,
    tail: nat,
    producer: Producer<T>,
    consumer: Consumer<T>,
    accepted: seq<T>,
    popped: seq<T>)

  /** One atomic action of either thread. */
  datatype Action<T> =
    | PushLoad(item: T)
    | PushWrite
    | PushStore
    | PopLoad
    | PopRead
    | PopStore

  predicate InBounds<T>(r: Ring<T>) {
    |r.buffer| > 1 && r.head < |r.buffer| && r.tail < |r.buffer|
  }

  predicate Full<T>(r: Ring<T>)
    requires InBounds(r)
  {
    Next(r.tail, |r.buffer|) == r.head
  }

  /** An action of a thread that is not at that point changes nothing. */
  function Act<T>(r: Ring<T>, action: Action<T>): (r': Ring<T>)
    requires InBounds(r)
    ensures InBounds(r')
  {
    match action
    case PushLoad(item) =>
      if r.producer.AtRest? && !Full(r) then r.(producer := Writing(item)) else r
    case PushWrite =>
      if r.producer.Writing? then
        r.(buffer := r.buffer[r.tail := r.producer.item], producer := Publishing(r.producer.item))
      else r
    case PushStore =>
      if r.producer.Publishing? then
        r.(tail := Next(r.tail, |r.buffer|), producer := AtRest, accepted := r.accepted + [r.producer.item])
      else r
    case PopLoad =>
      if r.consumer.Waiting? && r.head != r.tail then r.(consumer := Reading) else r
    case PopRead =>
      if r.consumer.Reading? then r.(consumer := Releasing(r.buffer[r.head])) else r
    case PopStore =>
      if r.consumer.Releasing? then
        r.(head := Next(r.head, |r.buffer|), consumer := Waiting, popped := r.popped + [r.consumer.item])
      else r
  }

  function Fresh<T>(buffer: seq<T>): Ring<T> {
    Ring(buffer, 0, 0, AtRest, Waiting, [], [])
  }

  /** Indices are the counts of finished calls, modulo the capacity; the slots
      between them hold what was accepted and not yet popped; a thread in
      mid-call still has the room, or the item, that it saw. */
  ghost predicate Sound<T>(r: Ring<T>) {
    && |r.buffer| > 1
    && r.head == |r.popped| % |r.buffer| && r.tail == |r.accepted| % |r.buffer|
    && |r.popped| <= |r.accepted| < |r.popped| + |r.buffer|
    && r.popped == r.accepted[..|r.popped|]
    && (forall i :: |r.popped| <= i < |r.accepted| ==> r.buffer[i % |r.buffer|] == r.accepted[i])
    && (!r.producer.AtRest? ==> |r.accepted| + 1 < |r.popped| + |r.buffer|)
    && (r.producer.Publishing? ==> r.buffer[r.tail] == r.producer.item)
    && (!r.consumer.Waiting? ==> |r.popped| < |r.accepted|)
    && (r.consumer.Releasing? ==> r.consumer.item == r.accepted[|r.popped|])
  }

  /** The indices tell empty from full: they meet exactly when nothing is held, and
      the tail is one short of the head exactly when all slots but one are. */
  lemma IndicesTell<T>(r: Ring<T>)
    requires Sound(r)
    ensures InBounds(r)
    ensures r.head == r.tail <==> |r.accepted| == |r.popped|
    ensures Full(r) <==> |r.accepted| - |r.popped| == |r.buffer| - 1
  {
    var h, t, n := |r.popped|, |r.accepted|, |r.buffer|;
    NextOfSlot(t, n);
    if h < t {
      SlotsDiffer(h, t, n);
    }
    if t + 1 < h + n {
      SlotsDiffer(h, t + 1, n);
    } else {
      NextTurn(h, n);
    }
  }

  /** Every action of either thread, at any moment, keeps the ring sound. */
  lemma ActKeepsSound<T>(r: Ring<T>, action: Action<T>)
    requires Sound(r) && InBounds(r)
    ensures Sound(Act(r, action)) && InBounds(Act(r, action))
  {
    IndicesTell(r);
    var h, t, n := |r.popped|, |r.accepted|, |r.buffer|;
    match action {
      case PushWrite =>
        forall i | h <= i < t && r.producer.Writing?
          ensures i % n != t % n
        {
          SlotsDiffer(i, t, n);
        }
      case PushStore =>
        NextOfSlot(t, n);
      case PopStore =>
        NextOfSlot(h, n);
      case _ =>
    }
  }

  /** The ring after a sequence of actions, interleaved in any way. */
  function Interleave<T>(r: Ring<T>, actions: seq<Action<T>>): (r': Ring<T>)
    requires InBounds(r)
    ensures InBounds(r') && |r'.buffer| == |r.buffer|
    decreases |actions|
  {
    if actions == [] then r else Interleave(Act(r, actions[0]), actions[1..])
  }

  lemma {:induction false} InterleaveSound<T>(r: Ring<T>, actions: seq<Action<T>>)
    requires InBounds(r) && Sound(r)
    ensures Sound(Interleave(r, actions))
    decreases |actions|
  {
    hide Sound;
    if actions != [] {
      ActKeepsSound(r, actions[0]);
      InterleaveSound(Act(r, actions[0]), actions[1..]);
    }
  }

  /** For every interleaving from an empty ring: what was popped is a prefix of what
      was accepted, and fewer items than slots are held. */
  lemma Linearizable<T>(buffer: seq<T>, actions: seq<Action<T>>)
    requires |buffer| > 1
    ensures var r := Interleave(Fresh(buffer), actions);
      && |r.popped| <= |r.accepted| && r.popped == r.accepted[..|r.popped|]
      && |r.accepted| - |r.popped| <= |buffer| - 1
  {
    assert 0 % |buffer| == 0 by { RemainderIs(0, |buffer|, 0, 0); }
    InterleaveSound(Fresh(buffer), actions);
  }

  /** The producer never writes the slot that the consumer has seen and not yet
      released. */
  lemma SlotsExclusive<T>(r: Ring<T>)
    requires Sound(r) && !r.producer.AtRest? && !r.consumer.Waiting?
    ensures r.head != r.tail
  {
    SlotsDiffer(|r.popped|, |r.accepted|, |r.buffer|);
  }

  /** A push is refused exactly when, as it looks at the head, all slots but one are
      held; a pop is refused exactly when, as it looks at the tail, nothing is. */
  lemma RefusedOnlyFullOrEmpty<T>(r: Ring<T>, item: T)
    requires Sound(r) && InBounds(r)
    ensures r.producer.AtRest? ==>
              (Act(r, PushLoad(item)) == r <==> |r.accepted| - |r.popped| == |r.buffer| - 1)
    ensures r.consumer.Waiting? ==>
              (Act(r, PopLoad) == r <==> |r.accepted| == |r.popped|)
  {
    IndicesTell(r);
  }

  predicate ByProducer<T>(action: Action<T>) { action.PushLoad? || action.PushWrite? || action.PushStore? }

  predicate ByConsumer<T>(action: Action<T>) { !ByProducer(action) }

  /** The consumer leaves the producer's side of the ring alone. */
  lemma {:induction false} ConsumerAlone<T>(r: Ring<T>, actions: seq<Action<T>>)
    requires InBounds(r) && forall action :: action in actions ==> ByConsumer(action)
    ensures var r' := Interleave(r, actions);
      r'.producer == r.producer && r'.accepted == r.accepted && r'.tail == r.tail && r'.buffer == r.buffer
    decreases |actions|
  {
    if actions != [] {
      assert actions[0] in actions && forall action :: action in actions[1..] ==> action in actions;
      ConsumerAlone(Act(r, actions[0]), actions[1..]);
    }
  }

  /** The producer leaves the consumer's side alone; what it accepts comes last. */
  lemma {:induction false} ProducerAlone<T>(r: Ring<T>, actions: seq<Action<T>>)
    requires InBounds(r) && forall action :: action in actions ==> ByProducer(action)
    ensures var r' := Interleave(r, actions);
      r'.consumer == r.consumer && r'.popped == r.popped && r'.head == r.head && r.accepted <= r'.accepted
    decreases |actions|
  {
    if actions != [] {
      assert actions[0] in actions && forall action :: action in actions[1..] ==> action in actions;
      ProducerAlone(Act(r, actions[0]), actions[1..]);
    }
  }

  /** A push that saw room completes with its item, whatever the consumer does before
      the slot is written and between that and the store of the tail. */
  lemma PushCompletes<T>(r: Ring<T>, before: seq<Action<T>>, after: seq<Action<T>>)
    requires InBounds(r) && r.producer.Writing?
    requires (forall action :: action in before ==> ByConsumer(action))
    requires (forall action :: action in after ==> ByConsumer(action))
    ensures var r' := Act(Interleave(Act(Interleave(r, before), PushWrite), after), PushStore);
      r'.accepted == r.accepted + [r.producer.item] && r'.producer.AtRest?
  {
    hide Interleave;
    ConsumerAlone(r, before);
    ConsumerAlone(Act(Interleave(r, before), PushWrite), after);
  }

  /** A pop that saw an item returns the oldest one held then, whatever the producer
      does before the slot is read and between that and the store of the head. */
  lemma PopCompletes<T>(r: Ring<T>, before: seq<Action<T>>, after: seq<Action<T>>)
    requires InBounds(r) && Sound(r) && r.consumer.Reading?
    requires (forall action :: action in before ==> ByProducer(action))
    requires (forall action :: action in after ==> ByProducer(action))
    ensures var r' := Act(Interleave(Act(Interleave(r, before), PopRead), after), PopStore);
      r'.popped == r.popped + [r.accepted[|r.popped|]] && r'.consumer.Waiting?
  {
    hide Interleave;
    var r1 := Interleave(r, before);
    ProducerAlone(r, before);
    InterleaveSound(r, before);
    ActKeepsSound(r1, PopRead);
    ProducerAlone(Act(r1, PopRead), after);
  }

  // ---- one thread at a time ---------------------------------------------------

  function Slot(i: nat, capacity: nat): (n: nat)
    requires capacity > 0
    ensures n < capacity
  {
    i % capacity
  }

  function Item<T>(buffer: seq<T>, head: nat, i: nat): T
    requires |buffer| > 0
  {
    buffer[Slot(head + i, |buffer|)]
  }

  /** The items held, oldest first. */
  function Held<T>(buffer: seq<T>, head: nat, count: nat): (held: seq<T>)
    requires |buffer| > 0
    ensures |held| == count && forall i :: 0 <= i < count ==> held[i] == Item(buffer, head, i)
  {
    seq(count, i requires 0 <= i => Item(buffer, head, i))
  }

  lemma ItemKept<T>(buffer: seq<T>, head: nat, count: nat, item: T, i: nat)
    requires count < |buffer| && i <= count
    ensures Item(buffer[Slot(head + count, |buffer|) := item], head, i) == if i < count then Item(buffer, head, i)
              else item
  {
    if i < count {
      SlotsDiffer(head + i, head + count, |buffer|);
    }
  }

  lemma HeldPush<T>(buffer: seq<T>, head: nat, count: nat, item: T)
    requires count < |buffer|
    ensures Held(buffer[Slot(head + count, |buffer|) := item], head, count + 1) == Held(buffer, head, count) + [item]
  {
    hide Slot, Item, Held;
    var after := buffer[Slot(head + count, |buffer|) := item];
    forall i | 0 <= i <= count
      ensures Item(after, head, i) == if i < count then Item(buffer, head, i) else item
    {
      ItemKept(buffer, head, count, item, i);
    }
  }

  lemma ItemShifted<T>(buffer: seq<T>, head: nat, i: nat)
    requires head < |buffer|
    ensures Item(buffer, Next(head, |buffer|), i) == Item(buffer, head, i + 1)
  {
    ShiftedSlot(head + 1, i, |buffer|);
  }

  lemma HeldPop<T>(buffer: seq<T>, head: nat, count: nat)
    requires head < |buffer| && 0 < count
    ensures Held(buffer, head, count) == [buffer[head]] + Held(buffer, Next(head, |buffer|), count - 1)
  {
    hide Slot, Item, Held, Next;
    FirstItem(buffer, head);
    forall i | 0 <= i < count - 1
      ensures Item(buffer, Next(head, |buffer|), i) == Item(buffer, head, i + 1)
    {
      ItemShifted(buffer, head, i);
    }
  }

  lemma FirstItem<T>(buffer: seq<T>, head: nat)
    requires head < |buffer|
    ensures Item(buffer, head, 0) == buffer[head]
  {
  }

  class SpscQueue<T(0)> {
    const buffer: array<T>
    var head: nat
    var tail: nat
    // how many items are held
    ghost var count: nat

    ghost predicate Valid()
      reads this, buffer
    {
      && buffer.Length > 1 && head < buffer.Length && count < buffer.Length
      && tail == Slot(head + count, buffer.Length)
    }

    ghost function Contents(): seq<T>
      requires Valid()
      reads this, buffer
    {
      Held(buffer[..], head, count)
    }

    constructor (capacity: nat)
      requires capacity > 1
      ensures Valid() && Contents() == [] && buffer.Length == capacity && fresh(buffer)
    {
      buffer := new T[capacity];
      head, tail, count := 0, 0, 0;
      new;
      RemainderIs(0, capacity, 0, 0);
    }

    method Push(item: T) returns (ok: bool)
      requires Valid()
      modifies this`tail, this`count, buffer
      ensures Valid()
      ensures ok <==> |old(Contents())| < buffer.Length - 1
      ensures Contents() == if ok then old(Contents()) + [item] else old(Contents())
    {
      hide Slot, Next, Held;
      var nextTail := Next(tail, buffer.Length);
      TailMeetsHead(head, count, buffer.Length);
      if nextTail == head {
        return false;
      }
      HeldPush(buffer[..], head, count, item);
      TailAdvances(head, count, buffer.Length);
      buffer[tail] := item;
      tail := nextTail;
      count := count + 1;
      ok := true;
    }

    method Pop() returns (ok: bool, item: T)
      requires Valid()
      modifies this`head, this`count
      ensures Valid()
      ensures ok <==> old(Contents()) != []
      ensures ok ==> old(Contents()) == [item] + Contents()
      ensures !ok ==> Contents() == []
    {
      hide Slot, Next, Held;
      item := buffer[head];
      HeadMeetsTail(head, count, buffer.Length);
      if head == tail {
        return false, item;
      }
      HeldPop(buffer[..], head, count);
      HeadAdvances(head, count, buffer.Length);
      head := Next(head, buffer.Length);
      count := count - 1;
      ok := true;
    }
  }

  lemma TailAdvances(head: nat, count: nat, capacity: nat)
    requires capacity > 0
    ensures Next(Slot(head + count, capacity), capacity) == Slot(head + (count + 1), capacity)
  {
    NextOfSlot(head + count, capacity);
  }

  lemma HeadAdvances(head: nat, count: nat, capacity: nat)
    requires capacity > 0 && 0 < count
    ensures Slot(head + count, capacity) == Slot(Next(head, capacity) + (count - 1), capacity)
  {
    ShiftedSlot(head + 1, count - 1, capacity);
  }

  lemma TailMeetsHead(head: nat, count: nat, capacity: nat)
    requires head < capacity && count < capacity
    ensures Next(Slot(head + count, capacity), capacity) == head <==> count == capacity - 1
  {
    NextOfSlot(head + count, capacity);
    RemainderIs(head, capacity, 0, head);
    if count == capacity - 1 {
      NextTurn(head, capacity);
    } else {
      SlotsDiffer(head, head + count + 1, capacity);
    }
  }

  lemma HeadMeetsTail(head: nat, count: nat, capacity: nat)
    requires head < capacity && count < capacity
    ensures Slot(head + count, capacity) == head <==> count == 0
  {
  }
}
