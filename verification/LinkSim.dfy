// The delivery of delayed packets in link_sim.c, on top of MinQueue.
module LinkSim {
  import opened Packets
  import opened MinQueue

  datatype Time = Time(sec: int, usec: int)
  // A queued packet: expiration date, direction and contents.
  datatype Slot = Slot(ts: Time, direction: int, buf: seq<byte>)

  // What one attempt to write a packet out gives: success, an error that
  // allows another try later, or any other error.
  datatype SendResult = Sent | TryLater | Failed

  datatype Outcome<T> = Outcome(sent: seq<T>, rest: seq<T>, ok: bool)

  // timeval_cmp: left is strictly later than right.
  predicate Later(left: Time, right: Time) {
    if left.sec == right.sec then left.usec > right.usec else left.sec > right.sec
  }

  predicate SlotLater(a: Slot, b: Slot) {
    Later(a.ts, b.ts)
  }

  lemma SlotOrder()
    ensures StrictWeakOrder(SlotLater)
  {
  }

  // Send while the earliest entry is due. sent are the entries written out so
  // far; write gives the result of each successive attempt.
  function Deliver<T>(greater: (T, T) -> bool, due: T -> bool, write: nat -> SendResult,
                      sent: seq<T>, h: seq<T>): Outcome<T>
    decreases |h|
  {
    if h == [] || !due(h[0]) then Outcome(sent, h, true)
    else
      match write(|sent|)
      case TryLater => Outcome(sent, h, true)
      case Failed => Outcome(sent, h, false)
      case Sent => Deliver(greater, due, write, sent + [h[0]], Popped(greater, h))
  }

  // Nothing in s comes after anything in t.
  ghost predicate Precede<T>(greater: (T, T) -> bool, s: seq<T>, t: seq<T>) {
    forall i, j | 0 <= i < |s| && 0 <= j < |t| :: !greater(s[i], t[j])
  }

  ghost predicate AllDue<T>(due: T -> bool, s: seq<T>) {
    forall i | 0 <= i < |s| :: due(s[i])
  }

  ghost predicate NoneDue<T>(due: T -> bool, s: seq<T>) {
    forall i | 0 <= i < |s| :: !due(s[i])
  }

  lemma PrecedePart<T>(greater: (T, T) -> bool, s: seq<T>, h: seq<T>, part: seq<T>)
    requires Precede(greater, s, h) && multiset(part) <= multiset(h)
    ensures Precede(greater, s, part)
  {
    forall i, j | 0 <= i < |s| && 0 <= j < |part| ensures !greater(s[i], part[j]) {
      assert part[j] in multiset(part);
      assert part[j] in multiset(h);
    }
  }

  // What is sent was due and comes out in order; what stays is still a heap,
  // none of it earlier than anything sent; nothing is lost or invented.
  lemma {:induction false} DeliverInOrder<T(!new)>(greater: (T, T) -> bool, due: T -> bool, write: nat -> SendResult,
                                                   sent: seq<T>, h: seq<T>)
    requires StrictWeakOrder(greater) && Heap(greater, h)
    requires SortedBy(greater, sent) && AllDue(due, sent) && Precede(greater, sent, h)
    ensures var o := Deliver(greater, due, write, sent, h);
            && multiset(o.sent) + multiset(o.rest) == multiset(sent) + multiset(h)
            && Heap(greater, o.rest)
            && SortedBy(greater, o.sent) && AllDue(due, o.sent) && Precede(greater, o.sent, o.rest)
    decreases |h|
  {
    if h != [] && due(h[0]) && write(|sent|).Sent? {
      PopCorrect(greater, h);
      hide StrictWeakOrder, Heap, Popped;
      var popped := Popped(greater, h);
      PrecedePart(greater, sent, h, popped);
      MinimalOfPart(greater, h, popped, h[0]);
      SendFirst(greater, due, sent, h, popped);
      hide SortedBy, AllDue, Precede, Minimal;
      DeliverInOrder(greater, due, write, sent + [h[0]], popped);
    }
  }

  // Moving the first entry from the queue to what is sent keeps the order.
  lemma SendFirst<T(!new)>(greater: (T, T) -> bool, due: T -> bool, sent: seq<T>, h: seq<T>, rest: seq<T>)
    requires h != [] && due(h[0]) && SortedBy(greater, sent) && AllDue(due, sent)
    requires Precede(greater, sent, h) && Precede(greater, sent, rest) && Minimal(greater, rest, h[0])
    ensures SortedBy(greater, sent + [h[0]]) && AllDue(due, sent + [h[0]]) && Precede(greater, sent + [h[0]], rest)
    ensures multiset(sent + [h[0]]) == multiset(sent) + multiset{h[0]}
  {
  }

  // Every attempt but the last one succeeded; delivering stops when nothing is due
  // any more, or at the first attempt that does not succeed.
  lemma {:induction false} DeliverStops<T(!new)>(greater: (T, T) -> bool, due: T -> bool, write: nat -> SendResult,
                                                 sent: seq<T>, h: seq<T>)
    requires StrictWeakOrder(greater) && Heap(greater, h)
    requires forall a, b :: !due(a) && !greater(a, b) ==> !due(b)
    ensures var o := Deliver(greater, due, write, sent, h);
            && |sent| <= |o.sent| && (forall n: nat | |sent| <= n < |o.sent| :: write(n) == Sent)
            && (NoneDue(due, o.rest) ==> o.ok)
            && (!NoneDue(due, o.rest) ==> write(|o.sent|) == if o.ok then TryLater else Failed)
    decreases |h|
  {
    if h != [] {
      PopCorrect(greater, h);
      if due(h[0]) && write(|sent|).Sent? {
        hide StrictWeakOrder, Heap, Popped;
        DeliverStops(greater, due, write, sent + [h[0]], Popped(greater, h));
      }
    }
  }

  // --- what is due and in order, by the seconds and microseconds -----------------------

  // What was written out had expired and left in the order of expiry, nothing that
  // stays expires earlier than what left, and nothing is lost.
  ghost predicate OutInOrder(before: seq<Slot>, clock: Time, sent: seq<Slot>, rest: seq<Slot>) {
    && multiset(sent) + multiset(rest) == multiset(before)
    && (forall i | 0 <= i < |sent| ::
          sent[i].ts.sec < clock.sec || (sent[i].ts.sec == clock.sec && sent[i].ts.usec < clock.usec))
    && (forall i, j | 0 <= i < j < |sent| ::
          sent[i].ts.sec < sent[j].ts.sec || (sent[i].ts.sec == sent[j].ts.sec && sent[i].ts.usec <= sent[j].ts.usec))
    && (forall i, j | 0 <= i < |sent| && 0 <= j < |rest| ::
          sent[i].ts.sec < rest[j].ts.sec || (sent[i].ts.sec == rest[j].ts.sec && sent[i].ts.usec <= rest[j].ts.usec))
  }

  // No slot that stays has expired.
  ghost predicate NoneExpired(clock: Time, rest: seq<Slot>) {
    forall j | 0 <= j < |rest| ::
      clock.sec < rest[j].ts.sec || (clock.sec == rest[j].ts.sec && clock.usec <= rest[j].ts.usec)
  }

  // Every slot that left was written out at its attempt. The result is an error
  // exactly when an expired slot stays because the next attempt failed for good;
  // it stays without an error when that attempt may be made again.
  ghost predicate StoppedBy(clock: Time, write: nat -> SendResult, ok: bool, sent: seq<Slot>, rest: seq<Slot>) {
    && (forall n: nat | n < |sent| :: write(n) == Sent)
    && (NoneExpired(clock, rest) ==> ok)
    && (!NoneExpired(clock, rest) ==> write(|sent|) == if ok then TryLater else Failed)
  }

  ghost predicate WellDelivered(before: seq<Slot>, clock: Time, write: nat -> SendResult,
                                ok: bool, sent: seq<Slot>, rest: seq<Slot>) {
    OutInOrder(before, clock, sent, rest) && StoppedBy(clock, write, ok, sent, rest)
  }

  // The delivery from any heap, for every pattern of send errors.
  lemma DeliverDelayedCorrect(h: seq<Slot>, clock: Time, write: nat -> SendResult)
    requires Heap(SlotLater, h)
    ensures var o := Deliver(SlotLater, (s: Slot) => Later(clock, s.ts), write, [], h);
            Heap(SlotLater, o.rest) && WellDelivered(h, clock, write, o.ok, o.sent, o.rest)
  {
    var due := (s: Slot) => Later(clock, s.ts);
    SlotOrder();
    DeliverInOrder(SlotLater, due, write, [], h);
    DeliverStops(SlotLater, due, write, [], h);
    hide StrictWeakOrder, Heap, Deliver;
    var o := Deliver(SlotLater, due, write, [], h);
    SentInOrder(h, clock, o.sent, o.rest);
    assert NoneDue(due, o.rest) <==> NoneExpired(clock, o.rest);
    hide OutInOrder, NoneExpired, NoneDue;
  }

  lemma SentInOrder(h: seq<Slot>, clock: Time, sent: seq<Slot>, rest: seq<Slot>)
    requires multiset(sent) + multiset(rest) == multiset([]) + multiset(h)
    requires SortedBy(SlotLater, sent) && Precede(SlotLater, sent, rest)
    requires AllDue((s: Slot) => Later(clock, s.ts), sent)
    ensures OutInOrder(h, clock, sent, rest)
  {
    var due := (s: Slot) => Later(clock, s.ts);
    assert forall i | 0 <= i < |sent| :: due(sent[i]);
    assert forall i, j | 0 <= i < j < |sent| :: !SlotLater(sent[i], sent[j]);
    assert forall i, j | 0 <= i < |sent| && 0 <= j < |rest| :: !SlotLater(sent[i], rest[j]);
  }

  // In microseconds, when those of each date are below a million: without errors
  // exactly the slots dated below the clock leave, earliest first.
  lemma DeliveredByMicroseconds(before: seq<Slot>, clock: Time, write: nat -> SendResult,
                                ok: bool, sent: seq<Slot>, rest: seq<Slot>)
    requires WellDelivered(before, clock, write, ok, sent, rest) && 0 <= clock.usec < 1000000
    requires forall s | s in before :: 0 <= s.ts.usec < 1000000
    ensures forall s | s in sent :: s.ts.sec * 1000000 + s.ts.usec < clock.sec * 1000000 + clock.usec
    ensures forall i, j | 0 <= i < j < |sent| ::
              sent[i].ts.sec * 1000000 + sent[i].ts.usec <= sent[j].ts.sec * 1000000 + sent[j].ts.usec
    ensures (forall n :: write(n) == Sent) ==>
              ok && forall s | s in rest :: s.ts.sec * 1000000 + s.ts.usec >= clock.sec * 1000000 + clock.usec
  {
    forall s | s in sent || s in rest ensures s in before {
      assert s in multiset(sent) + multiset(rest);
    }
    assert forall i | 0 <= i < |sent| :: sent[i] in before;
  }

  // --- the queue of the simulator ---------------------------------------------------

  // What the queue of delayed packets always is: ordered by expiration date.
  ghost predicate Ready(queue: MinQueue<Slot>)
    reads queue, queue.e
  {
    queue.Valid() && queue.greater == SlotLater && Heap(SlotLater, queue.Contents())
  }

  // Queueing a packet; without memory the queue stays as it was.
  method Enqueue(queue: MinQueue<Slot>, slot: Slot, memory: bool) returns (ok: bool)
    requires Ready(queue)
    modifies queue, queue.e
    ensures Ready(queue) && (queue.e == old(queue.e) || fresh(queue.e))
    ensures ok == (memory || old(queue.size) < old(queue.e.Length))
    ensures multiset(queue.Contents()) == multiset(old(queue.Contents())) + (if ok then multiset{slot} else multiset{})
  {
    hide Heap, StrictWeakOrder, Pushed;
    SlotOrder();
    PushCorrect(SlotLater, queue.Contents(), slot);
    var status, _ := queue.Push(slot, memory);
    ok := status == 0;
  }

  // deliver_delayed_pkt as written; sent is what it wrote out, in order.
  method DeliverDelayedPkt(queue: MinQueue<Slot>, clock: Time, write: nat -> SendResult)
    returns (ok: bool, sent: seq<Slot>)
    requires queue.Valid()
    modifies queue`size, queue.e
    ensures queue.Valid()
    ensures var due := (s: Slot) => Later(clock, s.ts);
            Outcome(sent, queue.Contents(), ok) == Deliver(queue.greater, due, write, [], old(queue.Contents()))
    ensures old(Ready(queue)) ==>
              Ready(queue) && WellDelivered(old(queue.Contents()), clock, write, ok, sent, queue.Contents())
  {
    sent := [];
    ghost var due := (s: Slot) => Later(clock, s.ts);
    if Ready(queue) {
      DeliverDelayedCorrect(queue.Contents(), clock, write);
    }
    hide Heap, WellDelivered, Popped;
    var p := queue.Peek();
    while p.Some? && Later(clock, p.value.ts)
      invariant queue.Valid()
      invariant p == if queue.size == 0 then None else Some(queue.Contents()[0])
      invariant Deliver(queue.greater, due, write, sent, queue.Contents())
             == Deliver(queue.greater, due, write, [], old(queue.Contents()))
      decreases queue.size
    {
      match write(|sent|) {
        case TryLater => return true, sent;
        case Failed => return false, sent;
        case Sent =>
      }
      sent := sent + [p.value];
      var _ := queue.Pop();
      p := queue.Peek();
    }
    ok := true;
  }

  lemma EmptyHeap()
    ensures Heap(SlotLater, [])
  {
  }

  // In which order the packets were queued does not matter.
  lemma DeliveredAlike(before: seq<Slot>, slots: seq<Slot>, clock: Time, write: nat -> SendResult,
                       ok: bool, sent: seq<Slot>, rest: seq<Slot>)
    requires WellDelivered(before, clock, write, ok, sent, rest) && multiset(before) == multiset(slots)
    ensures WellDelivered(slots, clock, write, ok, sent, rest)
  {
    hide StoppedBy;
  }

  // One after the other.
  method EnqueueAll(queue: MinQueue<Slot>, slots: seq<Slot>)
    requires Ready(queue) && queue.Contents() == []
    modifies queue, queue.e
    ensures Ready(queue) && (queue.e == old(queue.e) || fresh(queue.e))
    ensures multiset(queue.Contents()) == multiset(slots)
  {
    hide Heap, StrictWeakOrder;
    for i := 0 to |slots|
      invariant Ready(queue) && (queue.e == old(queue.e) || fresh(queue.e))
      invariant multiset(queue.Contents()) == multiset(slots[..i])
    {
      assert slots[..i + 1] == slots[..i] + [slots[i]];
      var _ := Enqueue(queue, slots[i], true);
    }
    assert slots[..|slots|] == slots;
  }

  // Delaying packets one after the other and then delivering what is due.
  method DelayAndDeliver(slots: seq<Slot>, clock: Time, write: nat -> SendResult)
    returns (ok: bool, sent: seq<Slot>, queue: MinQueue<Slot>)
    ensures fresh(queue) && Ready(queue) && WellDelivered(slots, clock, write, ok, sent, queue.Contents())
  {
    hide Heap, WellDelivered, StrictWeakOrder;
    queue := new MinQueue(SlotLater);
    EmptyHeap();
    EnqueueAll(queue, slots);
    ghost var before := queue.Contents();
    ok, sent := DeliverDelayedPkt(queue, clock, write);
    DeliveredAlike(before, slots, clock, write, ok, sent, queue.Contents());
  }
}
