/** The event dispatcher: a ring between the exchange thread and the publisher
    thread, a drop counter, and a shutdown that drains the ring. */
module Dispatchers {
  import opened SpscQueues

  /** Where the publisher thread is. `last` marks the drain after the stop flag. */
  datatype Publisher<T> =
    | Checking
    | Polling(last: bool)
    | Taking(last: bool)
    | Holding(last: bool)
    | Sending(event: T, last: bool)
    | Done

  datatype Dispatcher<T> = Dispatcher(
    ring: Ring<T>,
    running: bool,
    joined: bool,      // the exchange thread has ended
    publisher: Publisher<T>,
    drops: nat,
    offered: nat,      // calls of enqueue that have returned
    sent: seq<T>)

  datatype Move<T> =
    | Enqueue(event: T)
    | WriteSlot
    | StoreTail
    | JoinExchange
    | Stop
    | Publish

  /** The exchange thread calls `enqueue` until it ends; `stop` comes after that;
      the publisher goes on by itself. */
  function Go<T>(d: Dispatcher<T>, move: Move<T>): (d': Dispatcher<T>)
    requires InBounds(d.ring)
    ensures InBounds(d'.ring)
  {
    match move
    case Enqueue(event) =>
      if d.joined || !d.ring.producer.AtRest? then d
      else if Full(d.ring) then d.(drops := d.drops + 1, offered := d.offered + 1)
      else d.(ring := Act(d.ring, PushLoad(event)))
    case WriteSlot => d.(ring := Act(d.ring, PushWrite))
    case StoreTail =>
      if d.ring.producer.Publishing? then d.(ring := Act(d.ring, PushStore), offered := d.offered + 1) else d
    case JoinExchange => if d.ring.producer.AtRest? then d.(joined := true) else d
    case Stop => if d.joined then d.(running := false) else d
    case Publish => PublisherStep(d)
  }

  function PublisherStep<T>(d: Dispatcher<T>): (d': Dispatcher<T>)
    requires InBounds(d.ring)
    ensures InBounds(d'.ring)
  {
    match d.publisher
    case Checking => d.(publisher := Polling(!d.running))
    case Polling(last) =>
      if d.ring.head == d.ring.tail then d.(publisher := if last then Done else Checking)
      else d.(ring := Act(d.ring, PopLoad), publisher := Taking(last))
    case Taking(last) => d.(ring := Act(d.ring, PopRead), publisher := Holding(last))
    case Holding(last) =>
      if d.ring.consumer.Releasing? then
        d.(ring := Act(d.ring, PopStore), publisher := Sending(d.ring.consumer.item, last))
      else d
    case Sending(event, last) =>
      d.(sent := d.sent + [event], publisher := if last then Polling(true) else Checking)
    case Done => d
  }

  function Started<T>(buffer: seq<T>): Dispatcher<T> {
    Dispatcher(SpscQueues.Fresh(buffer), true, false, Checking, 0, 0, [])
  }

  ghost predicate InDrain<T>(p: Publisher<T>) {
    match p
    case Checking => false
    case Polling(last) => last
    case Taking(last) => last
    case Holding(last) => last
    case Sending(_, last) => last
    case Done => true
  }

  ghost predicate Consistent<T>(d: Dispatcher<T>) {
    && Sound(d.ring) && InBounds(d.ring)
    && d.offered == |d.ring.accepted| + d.drops
    && (!d.running ==> d.joined) && (d.joined ==> d.ring.producer.AtRest?)
    && (InDrain(d.publisher) ==> !d.running)
    && (d.publisher.Taking? <==> d.ring.consumer.Reading?)
    && (d.publisher.Holding? <==> d.ring.consumer.Releasing?)
    && d.ring.popped == (if d.publisher.Sending? then d.sent + [d.publisher.event] else d.sent)
    && (d.publisher.Done? ==> |d.ring.popped| == |d.ring.accepted|)
  }

  lemma GoConsistent<T>(d: Dispatcher<T>, move: Move<T>)
    requires Consistent(d)
    ensures Consistent(Go(d, move))
  {
    hide Sound, PublisherStep;
    match move {
      case Enqueue(event) => ActKeepsSound(d.ring, PushLoad(event));
      case WriteSlot => ActKeepsSound(d.ring, PushWrite);
      case StoreTail => ActKeepsSound(d.ring, PushStore);
      case JoinExchange =>
      case Stop =>
      case Publish => PublishConsistent(d);
    }
  }

  lemma PublishConsistent<T>(d: Dispatcher<T>)
    requires Consistent(d)
    ensures Consistent(PublisherStep(d))
  {
    IndicesTell(d.ring);
    ActKeepsSound(d.ring, PopLoad);
    ActKeepsSound(d.ring, PopRead);
    ActKeepsSound(d.ring, PopStore);
  }

  function Moves<T>(d: Dispatcher<T>, moves: seq<Move<T>>): Dispatcher<T>
    requires InBounds(d.ring)
    decreases |moves|
  {
    if moves == [] then d else Moves(Go(d, moves[0]), moves[1..])
  }

  lemma {:induction false} MovesConsistent<T>(d: Dispatcher<T>, moves: seq<Move<T>>)
    requires Consistent(d)
    ensures Consistent(Moves(d, moves))
    decreases |moves|
  {
    if moves != [] {
      GoConsistent(d, moves[0]);
      MovesConsistent(Go(d, moves[0]), moves[1..]);
    }
  }

  /** For every interleaving: what was sent is a prefix of what was accepted, in
      order; and when the publisher has ended, everything accepted was sent exactly
      once, so that drops and sent events add up to all offered. */
  lemma NothingAcceptedIsLost<T>(buffer: seq<T>, moves: seq<Move<T>>)
    requires |buffer| > 1
    ensures var d := Moves(Started(buffer), moves);
      && d.sent <= d.ring.accepted
      && (d.publisher.Done? ==> d.sent == d.ring.accepted && d.drops + |d.sent| == d.offered)
  {
    RemainderIs(0, |buffer|, 0, 0);
    MovesConsistent(Started(buffer), moves);
  }

  /** An event that the exchange thread hands over is dropped exactly when the ring
      holds as many events as it has slots but one; otherwise it goes into the ring. */
  lemma DroppedOnlyWhenFull<T>(d: Dispatcher<T>, event: T)
    requires Consistent(d) && !d.joined && d.ring.producer.AtRest?
    ensures var d' := Go(d, Enqueue(event)); var r := d.ring;
      if |r.accepted| - |r.popped| == |r.buffer| - 1
      then d' == d.(drops := d.drops + 1, offered := d.offered + 1)
      else d' == d.(ring := r.(producer := Writing(event)))
  {
    IndicesTell(d.ring);
  }

  /** The exchange thread calls `enqueue` only between two calls, and until it ends. */
  predicate Hands<T>(d: Dispatcher<T>, move: Move<T>) {
    move.Enqueue? && !d.joined && d.ring.producer.AtRest?
  }

  /** The events that the exchange thread hands over in the course of the moves. */
  function HandedOver<T>(d: Dispatcher<T>, moves: seq<Move<T>>): seq<T>
    requires InBounds(d.ring)
    decreases |moves|
  {
    if moves == [] then []
    else if Hands(d, moves[0]) then
      [moves[0].event] + HandedOver(Go(d, moves[0]), moves[1..])
    else HandedOver(Go(d, moves[0]), moves[1..])
  }

  /** What got into the ring, or is on its way there. */
  ghost function TakenIn<T>(r: Ring<T>): seq<T> {
    match r.producer
    case AtRest => r.accepted
    case Writing(item) => r.accepted + [item]
    case Publishing(item) => r.accepted + [item]
  }

  /** Of the events handed over, all are taken in, in order, but for the dropped ones;
      and none is dropped unless more are handed over than fit into the ring. */
  lemma {:induction false} HandedOverIsKept<T>(d: Dispatcher<T>, moves: seq<Move<T>>)
    requires Consistent(d)
    ensures var d', es := Moves(d, moves), HandedOver(d, moves);
      && |d'.ring.buffer| == |d.ring.buffer| && d'.drops >= d.drops
      && |TakenIn(d'.ring)| + d'.drops == |TakenIn(d.ring)| + d.drops + |es|
      && (d'.drops == d.drops ==> TakenIn(d'.ring) == TakenIn(d.ring) + es)
      && (|TakenIn(d.ring)| + |es| < |d.ring.buffer| ==> d'.drops == d.drops)
    decreases |moves|
  {
    hide Consistent, PublisherStep;
    if moves != [] {
      GoTakesIn(d, moves[0]);
      GoConsistent(d, moves[0]);
      HandedOverIsKept(Go(d, moves[0]), moves[1..]);
      var es := HandedOver(Go(d, moves[0]), moves[1..]);
      assert HandedOver(d, moves) == (if Hands(d, moves[0]) then [moves[0].event] else []) + es;
      assert Moves(d, moves) == Moves(Go(d, moves[0]), moves[1..]);
      if Hands(d, moves[0]) {
        assert TakenIn(d.ring) + [moves[0].event] + es == TakenIn(d.ring) + ([moves[0].event] + es);
      }
    }
  }

  lemma GoTakesIn<T>(d: Dispatcher<T>, move: Move<T>)
    requires Consistent(d)
    ensures InBounds(d.ring)
    ensures var d' := Go(d, move);
      && |d'.ring.buffer| == |d.ring.buffer|
      && (if Hands(d, move) then
            || (d'.drops == d.drops && TakenIn(d'.ring) == TakenIn(d.ring) + [move.event])
            || (&& d'.drops == d.drops + 1 && TakenIn(d'.ring) == TakenIn(d.ring)
                && |TakenIn(d.ring)| >= |d.ring.buffer| - 1)
          else d'.drops == d.drops && TakenIn(d'.ring) == TakenIn(d.ring))
  {
    IndicesTell(d.ring);
  }

  /** From the start: with no more events than fit into the ring nothing is dropped,
      and whenever nothing was, the publisher in the end has sent exactly the events
      handed over. */
  lemma SentIsHandedOver<T>(buffer: seq<T>, moves: seq<Move<T>>)
    requires |buffer| > 1
    ensures var d, es := Moves(Started(buffer), moves), HandedOver(Started(buffer), moves);
      && (|es| < |buffer| ==> d.drops == 0)
      && (d.publisher.Done? && d.drops == 0 ==> d.sent == es)
      && (d.publisher.Done? ==> |d.sent| + d.drops == |es|)
  {
    var start := Started(buffer);
    RemainderIs(0, |buffer|, 0, 0);
    MovesConsistent(start, moves);
    HandedOverIsKept(start, moves);
    assert TakenIn(start.ring) == [] && [] + HandedOver(start, moves) == HandedOver(start, moves);
  }

  /** What the publisher has left to do once the stop flag is up. */
  ghost function Remaining<T>(d: Dispatcher<T>): int {
    4 * (|d.ring.accepted| - |d.ring.popped|)
    + match d.publisher
      case Checking => 2
      case Polling(last) => if last then 1 else 3
      case Taking(last) => if last then 0 else 2
      case Holding(last) => if last then -1 else 1
      case Sending(_, last) => if last then 2 else 4
      case Done => 0
  }

  /** How far the publisher is from having sent all that is in the ring. */
  ghost function Backlog<T>(d: Dispatcher<T>): nat
    requires Consistent(d)
  {
    5 * (|d.ring.accepted| - |d.ring.popped|)
    + match d.publisher
      case Checking => 3
      case Polling(_) => 2
      case Taking(_) => 1
      case Holding(_) => 0
      case Sending(_, _) => 4
      case Done => 0
  }

  /** The publisher keeps sending, with or without the stop flag: as long as an accepted
      event is unsent each of its steps brings it closer to having sent them all. */
  lemma PublisherProgresses<T>(d: Dispatcher<T>)
    requires Consistent(d) && |d.sent| < |d.ring.accepted|
    ensures Consistent(Go(d, Publish)) && Backlog(Go(d, Publish)) < Backlog(d)
  {
    IndicesTell(d.ring);
    GoConsistent(d, Publish);
  }

  /** After the stop flag the publisher ends: each of its steps brings it closer, and
      no other move takes it back. */
  lemma StopReturns<T>(d: Dispatcher<T>, move: Move<T>)
    requires Consistent(d) && !d.running
    ensures Remaining(d) >= 0 && !Go(d, move).running
    ensures !d.publisher.Done? && move == Publish ==> Remaining(Go(d, move)) < Remaining(d)
    ensures move != Publish ==> Remaining(Go(d, move)) <= Remaining(d)
  {
    IndicesTell(d.ring);
  }
}
