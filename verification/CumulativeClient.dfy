// The receiver of tools/groupe_42/srtp_io.py and the Window class of
// tools/groupe_61/client.py: both answer with cumulative ACKs only.
module CumulativeClient {
  import opened SeqNums
  import opened Packets

  datatype Receiver = Receiver(
    expected: nat,
    buffer: map<nat, Chunk>,
    output: seq<Chunk>,
    done: bool)

  function NewReceiver(): Receiver {
    Receiver(0, map[], [], false)
  }

  // in_window
  predicate InWindow(ar: Arith, num: nat, base: nat, size: nat) {
    0 <= Dist(ar, num, base) < size
  }

  // The state after writing one buffered chunk.
  function WriteOne(ar: Arith, r: Receiver): Receiver
    requires r.expected in r.buffer
  {
    r.(output := r.output + [r.buffer[r.expected]], buffer := r.buffer - {r.expected},
       expected := Add(ar, r.expected, 1))
  }

  // Write what is buffered in order, starting at the expected number.
  function Flush(ar: Arith, r: Receiver): Receiver
    decreases |r.buffer|
  {
    if r.expected !in r.buffer then r
    else
      ShrinkBuffer(r.buffer, r.expected);
      Flush(ar, WriteOne(ar, r))
  }

  lemma FlushOnce(ar: Arith, r: Receiver)
    requires r.expected in r.buffer
    ensures Flush(ar, r) == Flush(ar, WriteOne(ar, r)) && |WriteOne(ar, r).buffer| < |r.buffer|
  {
    ShrinkBuffer(r.buffer, r.expected);
  }

  lemma FlushStops(ar: Arith, r: Receiver)
    requires r.expected !in r.buffer
    ensures Flush(ar, r) == r
  {
  }

  lemma ShrinkBuffer(m: map<nat, Chunk>, k: nat)
    requires k in m
    ensures |m - {k}| == |m| - 1
  {
    assert m.Keys == (m - {k}).Keys + {k};
    assert |m.Keys| == |m| && |(m - {k}).Keys| == |m - {k}|;
  }

  // --- tools/groupe_42 ---------------------------------------------------------

  // The room left in the buffer, within what the six-bit field holds.
  function Free(size: nat, r: Receiver): int {
    var room := size - |r.buffer|;
    if room < 0 then 0 else if room > 63 then 63 else room
  }

  // W, or 0 for the mode without a buffer.
  function BufferSize(windowSize: int): nat {
    if windowSize <= 0 then 0 else if windowSize < 63 then windowSize else 63
  }

  function Answer(size: nat, r: Receiver): Ack {
    Ack(r.expected, Free(size, r), {})
  }

  // A DATA packet with a payload. A receiver of size 0 keeps no buffer.
  function Take(ar: Arith, size: nat, r: Receiver, d: Data): Receiver {
    if size == 0 then
      if d.num == r.expected then r.(output := r.output + [d.payload], expected := Add(ar, r.expected, 1)) else r
    else if !InWindow(ar, d.num, r.expected, size) then r
    else if d.num == r.expected then
      Flush(ar, r.(output := r.output + [d.payload], expected := Add(ar, r.expected, 1)))
    else if d.num !in r.buffer && |r.buffer| < size then r.(buffer := r.buffer[d.num := d.payload])
    else r
  }

  // Any DATA packet; each is answered with one ACK.
  function OnData(ar: Arith, size: nat, r: Receiver, d: Data): (Receiver, Ack) {
    if d.payload == [] then
      (if d.num == r.expected then r.(done := true) else r, Answer(size, r))
    else
      var r1 := Take(ar, size, r, d);
      (r1, Answer(size, r1))
  }

  function OnDatas(ar: Arith, size: nat, r: Receiver, ds: seq<Data>): Receiver
    decreases |ds|
  {
    if ds == [] || r.done then r else OnDatas(ar, size, OnData(ar, size, r, ds[0]).0, ds[1..])
  }

  // The ACKs sent on the way.
  function Answers(ar: Arith, size: nat, r: Receiver, ds: seq<Data>): seq<Ack>
    decreases |ds|
  {
    if ds == [] || r.done then []
    else
      var (r1, ack) := OnData(ar, size, r, ds[0]);
      [ack] + Answers(ar, size, r1, ds[1..])
  }

  // The body of the receive loop of recv_file for a DATA packet with payload.
  method TakeData(size: nat, r: Receiver, d: Data) returns (t: Receiver)
    ensures t == Take(Wrapping, size, r, d)
    ensures Fits(size, r, d) ==> TakenAs(size, r, d, t)
    ensures size == 0 && Counting(r) ==>
              Counting(t) && t.output == if d.num == |r.output| % 2048 then r.output + [d.payload] else r.output
  {
    if Fits(size, r, d) {
      TakeOutcome(size, r, d);
    }
    hide Flush, TakenAs, Fits;
    if size == 0 {
      if d.num == r.expected {
        return r.(output := r.output + [d.payload], expected := (r.expected + 1) % MODULUS);
      }
      return r;
    }
    if (d.num - r.expected) % MODULUS >= size {
      return r;
    }
    var expected: nat, buffer: map<nat, Chunk>, outfile := r.expected, r.buffer, r.output;
    if d.num == expected {
      outfile := outfile + [d.payload];
      expected := (expected + 1) % MODULUS;
      while expected in buffer
        invariant Flush(Wrapping, Receiver(expected, buffer, outfile, r.done)) == Take(Wrapping, size, r, d)
        decreases |buffer|
      {
        FlushOnce(Wrapping, Receiver(expected, buffer, outfile, r.done));
        outfile := outfile + [buffer[expected]];
        buffer := buffer - {expected};
        expected := (expected + 1) % MODULUS;
      }
      FlushStops(Wrapping, Receiver(expected, buffer, outfile, r.done));
    } else if d.num !in buffer && |buffer| < size {
      buffer := buffer[d.num := d.payload];
    }
    t := Receiver(expected, buffer, outfile, r.done);
  }

  // Each packet up to the end of the file is answered with the number expected
  // after it and the room left after it.
  ghost predicate Answered(size: nat, packets: seq<Data>, acks: seq<Ack>) {
    && |acks| <= |packets|
    && forall i | 0 <= i < |acks| ::
         var t := OnDatas(Wrapping, size, NewReceiver(), packets[..i + 1]);
         && acks[i].num == t.expected && acks[i].sacks == {} && 0 <= acks[i].window <= 63
         && (|t.buffer| <= size && size - |t.buffer| <= 63 ==> acks[i].window == size - |t.buffer|)
  }

  // recv_file as written, fed with a stream of decoded DATA packets.
  method RecvFile(windowSize: int, packets: seq<Data>) returns (r: Receiver, acks: seq<Ack>)
    ensures var size := if windowSize <= 0 then 0 else if windowSize >= 63 then 63 else windowSize;
            && r == OnDatas(Wrapping, size, NewReceiver(), packets)
            && acks == Answers(Wrapping, size, NewReceiver(), packets)
            && Answered(size, packets, acks) && (|acks| == |packets| || r.done)
  {
    AnswersFollow(BufferSize(windowSize), packets);
    hide OnDatas, Answers, Take, Answered;
    StartReceiving(BufferSize(windowSize), packets);
    var size: nat := 0;
    if windowSize > 0 {
      size := if windowSize < 63 then windowSize else 63;
    }
    r, acks := NewReceiver(), [];
    var i := 0;
    while i < |packets| && !r.done
      invariant i <= |packets|
      invariant OnDatas(Wrapping, size, r, packets[i..]) == OnDatas(Wrapping, size, NewReceiver(), packets)
      invariant acks + Answers(Wrapping, size, r, packets[i..]) == Answers(Wrapping, size, NewReceiver(), packets)
    {
      var d := packets[i];
      OneMore(size, r, packets, i);
      ghost var (r1, ack) := OnData(Wrapping, size, r, d);
      if d.payload != [] {
        r := TakeData(size, r, d);
      } else if d.num == r.expected {
        r := r.(done := true);
      }
      assert r == r1 && Answer(size, r) == ack;
      acks := acks + [Answer(size, r)];
      i := i + 1;
    }
    StopReceiving(size, r, packets[i..]);
    assert acks + [] == acks;
  }

  lemma AnswersFollow(size: nat, packets: seq<Data>)
    ensures var acks := Answers(Wrapping, size, NewReceiver(), packets);
            Answered(size, packets, acks)
            && (|acks| == |packets| || OnDatas(Wrapping, size, NewReceiver(), packets).done)
  {
    AnswersFrom(size, NewReceiver(), packets);
  }

  lemma {:induction false} AnswersFrom(size: nat, r: Receiver, ds: seq<Data>)
    ensures var acks := Answers(Wrapping, size, r, ds);
            && |acks| <= |ds| && (|acks| == |ds| || OnDatas(Wrapping, size, r, ds).done)
            && forall i | 0 <= i < |acks| :: acks[i] == Answer(size, OnDatas(Wrapping, size, r, ds[..i + 1]))
    decreases |ds|
  {
    hide OnData, Answer;
    if ds != [] && !r.done {
      var (r1, ack) := OnData(Wrapping, size, r, ds[0]);
      AnswerIsLast(size, r, ds[0]);
      AnswersFrom(size, r1, ds[1..]);
      var acks := Answers(Wrapping, size, r, ds);
      forall i | 0 <= i < |acks| ensures acks[i] == Answer(size, OnDatas(Wrapping, size, r, ds[..i + 1])) {
        assert ds[..i + 1][0] == ds[0] && ds[..i + 1][1..] == ds[1..][..i];
        assert OnDatas(Wrapping, size, r, ds[..i + 1]) == OnDatas(Wrapping, size, r1, ds[1..][..i]);
      }
    }
  }

  lemma AnswerIsLast(size: nat, r: Receiver, d: Data)
    ensures OnData(Wrapping, size, r, d).1 == Answer(size, OnData(Wrapping, size, r, d).0)
  {
    hide Take;
  }

  lemma StartReceiving(size: nat, packets: seq<Data>)
    ensures packets[0..] == packets
    ensures [] + Answers(Wrapping, size, NewReceiver(), packets) == Answers(Wrapping, size, NewReceiver(), packets)
  {
  }

  lemma StopReceiving(size: nat, r: Receiver, rest: seq<Data>)
    requires rest == [] || r.done
    ensures OnDatas(Wrapping, size, r, rest) == r && Answers(Wrapping, size, r, rest) == []
  {
  }

  lemma OneMore(size: nat, r: Receiver, packets: seq<Data>, i: nat)
    requires i < |packets| && !r.done
    ensures var (r1, ack) := OnData(Wrapping, size, r, packets[i]);
            && OnDatas(Wrapping, size, r, packets[i..]) == OnDatas(Wrapping, size, r1, packets[i + 1..])
            && forall before: seq<Ack> :: before + Answers(Wrapping, size, r, packets[i..])
                 == before + [ack] + Answers(Wrapping, size, r1, packets[i + 1..])
  {
    hide OnData;
    assert packets[i..][0] == packets[i] && packets[i..][1..] == packets[i + 1..];
  }

  // --- tools/groupe_61 ---------------------------------------------------------

  // in_window: the range test, split where the window crosses 2048.
  predicate InRange(size: nat, base: nat, num: nat) {
    if base + size < MODULUS then base <= num < base + size
    else base <= num < MODULUS || 0 <= num < (base + size) % MODULUS
  }

  // One of the size numbers below base.
  predicate Seen(size: nat, base: nat, num: nat) {
    exists i | 1 <= i <= size :: num == Below(base, i)
  }

  // Write what is stored in order; an empty payload ends the file.
  function Write(r: Receiver): Receiver
    decreases |r.buffer|
  {
    if r.expected !in r.buffer then r
    else
      ShrinkBuffer(r.buffer, r.expected);
      var chunk := r.buffer[r.expected];
      var r1 := r.(buffer := r.buffer - {r.expected}, expected := Add(Wrapping, r.expected, 1));
      if chunk == [] then r1.(done := true) else Write(r1.(output := r.output + [chunk]))
  }

  // The new state, and whether to acknowledge.
  function Store(size: nat, r: Receiver, d: Data): (Receiver, bool) {
    if Seen(size, r.expected, d.num) then (r, true)
    else if !InRange(size, r.expected, d.num) || d.num in r.buffer then (r, false)
    else
      var r1 := r.(buffer := r.buffer[d.num := d.payload]);
      (if d.num == r.expected then Write(r1) else r1, true)
  }

  // The client stops at the end of the file, so no method is called after it.
  class Window {
    const windowSize: nat
    var packets: map<nat, Chunk>
    var baseSeqnum: nat
    var written: seq<Chunk>
    var fileWritten: bool

    ghost function State(): Receiver
      reads this
    {
      Receiver(baseSeqnum, packets, written, fileWritten)
    }

    constructor (windowSize: nat)
      ensures State() == NewReceiver() && this.windowSize == windowSize
    {
      this.windowSize := windowSize;
      packets, baseSeqnum, written, fileWritten := map[], 0, [], false;
    }

    // is_already_received
    method IsAlreadyReceived(num: nat) returns (r: bool)
      ensures r == Seen(windowSize, baseSeqnum, num)
    {
      for i := 1 to windowSize + 1
        invariant forall j | 1 <= j < i :: num != Below(baseSeqnum, j)
      {
        if num == Below(baseSeqnum, i) {
          return true;
        }
      }
      return false;
    }

    // write_packets
    method WritePackets()
      requires !fileWritten
      modifies this`packets, this`baseSeqnum, this`written, this`fileWritten
      ensures State() == Write(old(State()))
    {
      while baseSeqnum in packets
        invariant !fileWritten && Write(State()) == Write(old(State()))
        decreases |packets|
      {
        ShrinkBuffer(packets, baseSeqnum);
        var payload := packets[baseSeqnum];
        packets := packets - {baseSeqnum};
        if |payload| == 0 {
          fileWritten := true;
        } else {
          written := written + [payload];
        }
        baseSeqnum := (baseSeqnum + 1) % MODULUS;
        if fileWritten {
          break;
        }
      }
    }

    // add_packet
    method AddPacket(d: Data) returns (answer: bool)
      requires !fileWritten
      modifies this`packets, this`baseSeqnum, this`written, this`fileWritten
      ensures (State(), answer) == Store(windowSize, old(State()), d)
      ensures Fits(windowSize, old(State()), d) ==> State() == Take(Wrapping, windowSize, old(State()), d)
      ensures Tidy(windowSize, old(State())) && d.num < 2048 ==>
                && TakenAs(windowSize, old(State()), d, State())
                && (answer <==> State() != old(State()) || 1 <= (old(baseSeqnum) - d.num) % 2048 <= windowSize)
      ensures fileWritten ==> answer
    {
      if Fits(windowSize, State(), d) {
        StoreIsTake(windowSize, State(), d);
      }
      if Tidy(windowSize, State()) && d.num < 2048 {
        StoreOutcome(windowSize, State(), d);
      }
      hide Write, Seen, InRange, Take, Fits, Tidy, TakenAs;
      var seen := IsAlreadyReceived(d.num);
      if seen {
        return true;
      }
      if !InRange(windowSize, baseSeqnum, d.num) {
        return false;
      }
      if d.num in packets {
        return false;
      }
      packets := packets[d.num := d.payload];
      if d.num == baseSeqnum {
        WritePackets();
      }
      return true;
    }
  }

  // The number i below base.
  function Below(base: nat, i: nat): nat {
    (base - i) % MODULUS
  }

  // --- what both maintain --------------------------------------------------------

  // Buffered keys lie strictly inside the window, so there is always room.
  ghost predicate Coherent(size: nat, r: Receiver) {
    && !r.done && r.expected < MODULUS
    && (forall k | k in r.buffer :: k < MODULUS && 0 < Dist(Wrapping, k, r.expected) < size && r.buffer[k] != [])
  }

  lemma TakeKeepsCoherent(size: nat, r: Receiver, d: Data)
    requires Coherent(size, r) && 0 < size < HALF_TURN && d.payload != [] && d.num < MODULUS
    ensures Coherent(size, Take(Wrapping, size, r, d))
  {
    if InWindow(Wrapping, d.num, r.expected, size) && d.num == r.expected {
      var r1 := r.(output := r.output + [d.payload], expected := Add(Wrapping, r.expected, 1));
      forall k | k in r.buffer ensures Dist(Wrapping, k, r1.expected) < size - 1 {
        DistNext(k, r.expected);
      }
      hide Flush;
      FlushKeepsCoherent(size, r1);
    } else {
      hide Flush;
    }
  }

  // As Coherent, but the expected number itself may be buffered.
  ghost predicate Flushable(size: nat, r: Receiver) {
    && !r.done && r.expected < MODULUS
    && (forall k | k in r.buffer :: k < MODULUS && Dist(Wrapping, k, r.expected) < size - 1 && r.buffer[k] != [])
  }

  lemma {:induction false} FlushKeepsCoherent(size: nat, r: Receiver)
    requires Flushable(size, r) && 0 < size < HALF_TURN
    ensures Coherent(size, Flush(Wrapping, r))
    decreases |r.buffer|
  {
    if r.expected in r.buffer {
      ShrinkBuffer(r.buffer, r.expected);
      var r1 := r.(output := r.output + [r.buffer[r.expected]],
                   buffer := r.buffer - {r.expected},
                   expected := Add(Wrapping, r.expected, 1));
      forall k | k in r1.buffer ensures Dist(Wrapping, k, r1.expected) < size - 1 {
        DistNext(k, r.expected);
      }
      assert Flush(Wrapping, r) == Flush(Wrapping, r1);
      hide Flush;
      FlushKeepsCoherent(size, r1);
    } else {
      forall k | k in r.buffer ensures 0 < Dist(Wrapping, k, r.expected) {
        DistNext(k, r.expected);
      }
    }
  }

  // While no empty payload is stored, both write alike.
  lemma {:induction false} WriteIsFlush(r: Receiver)
    requires !r.done && forall k | k in r.buffer :: r.buffer[k] != []
    ensures Write(r) == Flush(Wrapping, r)
    decreases |r.buffer|
  {
    if r.expected in r.buffer {
      ShrinkBuffer(r.buffer, r.expected);
      WriteIsFlush(r.(output := r.output + [r.buffer[r.expected]],
                      buffer := r.buffer - {r.expected}, expected := Add(Wrapping, r.expected, 1)));
    }
  }

  // Storing the expected packet and writing it is the same as writing it directly.
  lemma FlushStored(r: Receiver, d: Data)
    requires d.num == r.expected && d.num !in r.buffer
    ensures Flush(Wrapping, r.(buffer := r.buffer[d.num := d.payload]))
         == Flush(Wrapping, r.(output := r.output + [d.payload], expected := Add(Wrapping, r.expected, 1)))
  {
    assert r.buffer[d.num := d.payload] - {d.num} == r.buffer;
  }

  // The keys stored lie strictly inside the window; an end-of-file packet that came
  // early may be among them.
  ghost predicate Tidy(size: nat, r: Receiver) {
    && !r.done && r.expected < 2048 && 0 < size < HALF_TURN
    && forall k | k in r.buffer :: k < 2048 && 0 < (k - r.expected) % 2048 < size
  }

  // What was written at place j is the chunk stored under the number as far on.
  ghost predicate WroteAt(r: Receiver, t: Receiver, j: nat)
    requires |r.output| <= j < |t.output|
  {
    var k := (r.expected + (j - |r.output|)) % 2048;
    k in r.buffer && r.buffer[k] != [] && t.output[j] == r.buffer[k]
  }

  // From r to t the chunks stored from the expected number on were written ...
  ghost predicate WroteInOrder(r: Receiver, t: Receiver) {
    r.output <= t.output && forall j | |r.output| <= j < |t.output| :: WroteAt(r, t, j)
  }

  // ... up to the first number that is missing, or the first empty payload, which
  // ends the file; what was written is no longer stored.
  ghost predicate StoppedAfter(r: Receiver, t: Receiver, n: nat) {
    var gone := if t.done then n + 1 else n;
    StopsAt(r, t, (r.expected + n) % 2048) && t.expected == (r.expected + gone) % 2048 && LeftAfter(r, t, gone)
  }

  ghost predicate StopsAt(r: Receiver, t: Receiver, stop: nat) {
    if stop in r.buffer then t.done && r.buffer[stop] == [] else !t.done
  }

  ghost predicate LeftAfter(r: Receiver, t: Receiver, gone: nat) {
    && (forall k :: k in t.buffer <==> k in r.buffer && (k - r.expected) % 2048 >= gone)
    && (forall k | k in t.buffer :: t.buffer[k] == r.buffer[k])
  }

  ghost predicate WroteRun(r: Receiver, t: Receiver) {
    WroteInOrder(r, t) && StoppedAfter(r, t, |t.output| - |r.output|)
  }

  // What becomes of a packet in a state the receiver can reach.
  ghost predicate TakenAs(size: nat, r: Receiver, d: Data, t: Receiver) {
    var ahead := (d.num - r.expected) % 2048;
    if ahead >= size || d.num in r.buffer then t == r
    else if ahead > 0 then t == r.(buffer := r.buffer[d.num := d.payload])
    else WroteRun(r.(buffer := r.buffer[d.num := d.payload]), t)
  }

  // Nothing stored is as far as reach ahead.
  ghost predicate Within(r: Receiver, reach: nat) {
    r.expected < 2048 && !r.done && forall k | k in r.buffer :: k < 2048 && Dist(Wrapping, k, r.expected) < reach
  }

  lemma WriteStops(r: Receiver, reach: nat)
    requires Within(r, reach) && reach <= HALF_TURN
    ensures r.expected !in r.buffer ==> Write(r) == r && WroteRun(r, r)
  {
    assert (r.expected + 0) % 2048 == r.expected;
  }

  // Writing the end of the file.
  lemma WriteEnds(r: Receiver, reach: nat)
    requires Within(r, reach) && reach <= HALF_TURN && r.expected in r.buffer && r.buffer[r.expected] == []
    ensures WroteRun(r, Write(r)) && Write(r).done && Write(r).output == r.output
  {
    var t := Write(r);
    assert (r.expected + 0) % 2048 == r.expected;
    assert t == r.(buffer := r.buffer - {r.expected}, expected := (r.expected + 1) % 2048, done := true);
    assert forall k | k in r.buffer :: (k - r.expected) % 2048 == 0 <==> k == r.expected;
  }

  function OneWritten(r: Receiver): Receiver
    requires r.expected in r.buffer
  {
    r.(output := r.output + [r.buffer[r.expected]], buffer := r.buffer - {r.expected},
       expected := (r.expected + 1) % 2048)
  }

  lemma WithinNext(r: Receiver, reach: nat)
    requires Within(r, reach) && 0 < reach <= HALF_TURN && r.expected in r.buffer
    ensures Within(OneWritten(r), reach - 1)
    ensures forall k | k in r.buffer && k != r.expected ::
              Dist(Wrapping, k, OneWritten(r).expected) == Dist(Wrapping, k, r.expected) - 1 >= 0
  {
    hide Dist;
    forall k | k in r.buffer && k != r.expected
      ensures Dist(Wrapping, k, OneWritten(r).expected) == Dist(Wrapping, k, r.expected) - 1 >= 0
    {
      DistNext(k, r.expected);
    }
  }

  lemma PrefixThrough<T>(a: seq<T>, b: seq<T>, c: seq<T>)
    requires a <= b <= c
    ensures a <= c
  {
    assert forall i | 0 <= i < |a| :: a[i] == b[i] == c[i];
  }

  lemma PlaceInLonger(r: Receiver, t: Receiver, j: nat)
    requires r.expected < 2048 && r.expected in r.buffer && r.buffer[r.expected] != []
    requires WroteInOrder(OneWritten(r), t) && |r.output| <= j < |t.output|
    ensures WroteAt(r, t, j)
  {
    var m := OneWritten(r);
    if j == |r.output| {
      assert m.output[j] == t.output[j];
      assert (r.expected + 0) % 2048 == r.expected;
    } else {
      assert WroteAt(m, t, j);
      assert j - |m.output| == j - |r.output| - 1;
      NextPlace(r.expected, j - |r.output|);
    }
  }

  lemma OutputLonger(r: Receiver, t: Receiver)
    requires r.expected < 2048 && r.expected in r.buffer && r.buffer[r.expected] != []
    requires WroteInOrder(OneWritten(r), t)
    ensures WroteInOrder(r, t)
  {
    hide WroteAt;
    PrefixThrough(r.output, OneWritten(r).output, t.output);
    forall j | |r.output| <= j < |t.output| ensures WroteAt(r, t, j) {
      PlaceInLonger(r, t, j);
    }
  }

  lemma LeftLater(r: Receiver, t: Receiver, gone: nat, reach: nat)
    requires Within(r, reach) && 0 < reach <= HALF_TURN && r.expected in r.buffer
    requires LeftAfter(OneWritten(r), t, gone)
    ensures LeftAfter(r, t, gone + 1)
  {
    WithinNext(r, reach);
    assert (r.expected - r.expected) % 2048 == 0;
  }

  lemma StopsLater(r: Receiver, t: Receiver, n: nat, reach: nat)
    requires Within(r, reach) && 0 < reach <= HALF_TURN && r.expected in r.buffer && n <= reach
    requires StoppedAfter(OneWritten(r), t, n)
    ensures StoppedAfter(r, t, n + 1)
  {
    hide LeftAfter, StopsAt;
    LeftLater(r, t, if t.done then n + 1 else n, reach);
    NextPlace(r.expected, n + 1);
    NextPlace(r.expected, n + 2);
    NotBack(r.expected, n + 1);
    SameStop(r, t, (r.expected + (n + 1)) % 2048);
  }

  lemma SameStop(r: Receiver, t: Receiver, stop: nat)
    requires r.expected in r.buffer && stop != r.expected
    ensures StopsAt(OneWritten(r), t, stop) <==> StopsAt(r, t, stop)
  {
  }

  lemma NotBack(base: nat, i: nat)
    requires base < 2048 && 0 < i < 2048
    ensures (base + i) % 2048 != base
  {
  }

  lemma OutputGrows(r: Receiver, t: Receiver)
    requires WroteInOrder(r, t)
    ensures |r.output| <= |t.output|
  {
  }

  // One chunk more at the front of a run.
  lemma RunLonger(r: Receiver, t: Receiver, reach: nat)
    requires Within(r, reach) && 0 < reach <= HALF_TURN && r.expected in r.buffer && r.buffer[r.expected] != []
    requires WroteRun(OneWritten(r), t)
    ensures WroteRun(r, t)
  {
    hide WroteInOrder, StoppedAfter;
    OutputLonger(r, t);
    WithinNext(r, reach);
    RunIsShort(OneWritten(r), t, reach);
    OutputGrows(OneWritten(r), t);
    StopsLater(r, t, |t.output| - |r.output| - 1, reach);
  }

  lemma FarPlace(base: nat, i: nat)
    requires base < 2048 && i < 2048
    ensures ((base + i) % 2048 - base) % 2048 == i
  {
  }

  lemma PlaceStored(r: Receiver, t: Receiver, i: nat)
    requires WroteInOrder(r, t) && i < |t.output| - |r.output|
    ensures (r.expected + i) % 2048 in r.buffer
  {
    assert WroteAt(r, t, |r.output| + i);
    assert |r.output| + i - |r.output| == i;
  }

  // A run ends within reach.
  lemma RunIsShort(r: Receiver, t: Receiver, reach: nat)
    requires r.expected < 2048 && reach <= HALF_TURN && WroteInOrder(r, t)
    requires forall k | k in r.buffer :: k < 2048 && Dist(Wrapping, k, r.expected) < reach
    ensures |t.output| - |r.output| <= reach
  {
    hide WroteInOrder;
    if |t.output| - |r.output| > reach {
      FarPlace(r.expected, reach);
      PlaceStored(r, t, reach);
    }
  }

  lemma {:induction false} WriteOutcome(r: Receiver, reach: nat)
    requires Within(r, reach) && 0 < reach <= HALF_TURN
    ensures WroteRun(r, Write(r))
    decreases |r.buffer|
  {
    hide WroteRun;
    WriteStops(r, reach);
    if r.expected in r.buffer {
      if r.buffer[r.expected] == [] {
        WriteEnds(r, reach);
      } else {
        ShrinkBuffer(r.buffer, r.expected);
        WithinNext(r, reach);
        assert Write(r) == Write(OneWritten(r));
        if reach > 1 {
          WriteOutcome(OneWritten(r), reach - 1);
        } else {
          WriteStops(OneWritten(r), 0);
        }
        RunLonger(r, Write(r), reach);
      }
    }
  }

  // groupe_61's Window on any packet, the end of the file included: its state, and
  // that it answers exactly when the state changed or the number is one of the
  // windowSize below base.
  lemma StoreOutcome(size: nat, r: Receiver, d: Data)
    requires Tidy(size, r) && d.num < 2048
    ensures var (t, answer) := Store(size, r, d);
            && TakenAs(size, r, d, t)
            && (answer <==> t != r || 1 <= (r.expected - d.num) % 2048 <= size)
  {
    hide Write, Seen, InRange, InWindow, WroteRun;
    SeenIsBehind(r.expected, size, d.num);
    RangeIsDistance(r.expected, size, d.num);
    WindowTest(size, r.expected, d.num);
    if Seen(size, r.expected, d.num) {
      SeenIsOutside(r.expected, size, d.num);
    } else if d.num == r.expected {
      var stored := r.(buffer := r.buffer[d.num := d.payload]);
      WriteOutcome(stored, size);
      SomethingWritten(stored, Write(stored));
    }
  }

  lemma WindowTest(size: nat, base: nat, num: nat)
    ensures InWindow(Wrapping, num, base, size) <==> (num - base) % 2048 < size
  {
  }

  lemma SomethingWritten(r: Receiver, t: Receiver)
    requires r.expected < 2048 && !r.done && r.expected in r.buffer && WroteRun(r, t)
    ensures t.done || |t.output| > |r.output|
  {
    if |t.output| == |r.output| {
      assert (r.expected + 0) % 2048 == r.expected;
    }
  }

  // The states it reaches stay tidy until the file ends.
  lemma StoreKeepsTidy(size: nat, r: Receiver, d: Data)
    requires Tidy(size, r) && d.num < 2048
    ensures !Store(size, r, d).0.done ==> Tidy(size, Store(size, r, d).0)
  {
    hide Store, WroteRun;
    StoreOutcome(size, r, d);
    if (d.num - r.expected) % 2048 < size {
      StoredWithin(size, r, d);
    }
    if d.num == r.expected && !Store(size, r, d).0.done {
      RunKeepsTidy(size, r.(buffer := r.buffer[d.num := d.payload]), Store(size, r, d).0);
    }
  }

  lemma StoredWithin(size: nat, r: Receiver, d: Data)
    requires Tidy(size, r) && d.num < 2048 && (d.num - r.expected) % 2048 < size
    ensures var t := r.(buffer := r.buffer[d.num := d.payload]);
            if d.num == r.expected then Within(t, size) else Tidy(size, t)
  {
  }

  lemma RunKeepsTidy(size: nat, r: Receiver, t: Receiver)
    requires Within(r, size) && 0 < size < HALF_TURN && WroteRun(r, t) && !t.done
    ensures Tidy(size, t)
  {
    RunIsShort(r, t, size);
    hide WroteInOrder;
    var n := |t.output| - |r.output|;
    LeftIsInside(size, r, t, n);
    hide LeftAfter;
  }

  lemma LeftIsInside(size: nat, r: Receiver, t: Receiver, n: nat)
    requires Within(r, size) && LeftAfter(r, t, n) && t.expected == (r.expected + n) % 2048
    requires t.expected !in t.buffer
    ensures forall k | k in t.buffer :: k < 2048 && 0 < (k - t.expected) % 2048 < size
  {
    forall k | k in t.buffer ensures k < 2048 && 0 < (k - t.expected) % 2048 < size {
      KeyLeft(size, r, t, n, k);
      hide Within, LeftAfter;
      FartherOn(k, r.expected, n);
    }
  }

  lemma KeyLeft(size: nat, r: Receiver, t: Receiver, n: nat, k: nat)
    requires Within(r, size) && LeftAfter(r, t, n) && k in t.buffer
    ensures r.expected < 2048 && k < 2048 && n <= (k - r.expected) % 2048 < size
  {
  }

  lemma FartherOn(k: nat, base: nat, n: nat)
    requires k < 2048 && base < 2048 && n <= (k - base) % 2048 && k != (base + n) % 2048
    ensures 0 < (k - (base + n) % 2048) % 2048 == (k - base) % 2048 - n
  {
  }

  // groupe_42's receiver on a packet with payload.
  lemma TakeOutcome(size: nat, r: Receiver, d: Data)
    requires Fits(size, r, d)
    ensures TakenAs(size, r, d, Take(Wrapping, size, r, d)) && !Take(Wrapping, size, r, d).done
  {
    StoreIsTake(size, r, d);
    StoreOutcome(size, r, d);
    TakeKeepsCoherent(size, r, d);
    hide Take, Store, TakenAs;
  }

  // Without a buffer: the number expected is the count of chunks written.
  ghost predicate Counting(r: Receiver) {
    r.expected == |r.output| % 2048
  }

  // On every stream a packet is written exactly when its number is that count, and
  // each answer carries the new count and no room.
  lemma {:induction false} NoBufferCounts(r: Receiver, ds: seq<Data>)
    requires Counting(r) && r.buffer == map[]
    ensures var t := OnDatas(Wrapping, 0, r, ds);
            && Counting(t) && t.buffer == map[] && r.output <= t.output
            && (ds != [] && !r.done && ds[0].payload != [] ==>
                  var written := if ds[0].num == |r.output| % 2048 then r.output + [ds[0].payload] else r.output;
                  && OnData(Wrapping, 0, r, ds[0]).0 == r.(output := written, expected := |written| % 2048)
                  && Answers(Wrapping, 0, r, ds)[0] == Ack(|written| % 2048, 0, {}))
    decreases |ds|
  {
    if ds != [] && !r.done {
      NoBufferCounts(OnData(Wrapping, 0, r, ds[0]).0, ds[1..]);
    }
  }

  // A packet with payload for a receiver in a state it can reach.
  ghost predicate Fits(size: nat, r: Receiver, d: Data) {
    Coherent(size, r) && 0 < size < HALF_TURN && d.payload != [] && d.num < MODULUS
  }

  // On a packet with payload groupe_61's Window does what groupe_42 does. It
  // answers exactly the packets it keeps and those just below the window, while
  // groupe_42 answers every packet.
  lemma StoreIsTake(size: nat, r: Receiver, d: Data)
    requires Fits(size, r, d)
    ensures Store(size, r, d).0 == Take(Wrapping, size, r, d)
    ensures Store(size, r, d).1 <==>
              Take(Wrapping, size, r, d) != r || 1 <= Dist(Wrapping, r.expected, d.num) <= size
  {
    hide Flush, Write, Seen, InRange, InWindow, Dist;
    SeenIsBehind(r.expected, size, d.num);
    RangeIsDistance(r.expected, size, d.num);
    NextIsMissing(size, r);
    if Seen(size, r.expected, d.num) {
      SeenIsOutside(r.expected, size, d.num);
    } else {
      RoomLeft(size, r);
      if d.num == r.expected {
        WriteIsFlush(r.(buffer := r.buffer[d.num := d.payload]));
        FlushStored(r, d);
        FlushWrites(Wrapping, r.(output := r.output + [d.payload], expected := Add(Wrapping, r.expected, 1)));
      }
    }
  }

  lemma {:induction false} FlushWrites(ar: Arith, r: Receiver)
    ensures |Flush(ar, r).output| >= |r.output|
    decreases |r.buffer|
  {
    if r.expected in r.buffer {
      ShrinkBuffer(r.buffer, r.expected);
      FlushWrites(ar, r.(output := r.output + [r.buffer[r.expected]],
                         buffer := r.buffer - {r.expected}, expected := Add(ar, r.expected, 1)));
    }
  }

  lemma SeenIsBehind(base: nat, size: nat, num: nat)
    requires base < MODULUS && num < MODULUS && size < HALF_TURN
    ensures Seen(size, base, num) <==> 1 <= Dist(Wrapping, base, num) <= size
  {
    var back := Dist(Wrapping, base, num);
    assert num == Below(base, back);
    if Seen(size, base, num) {
      var i :| 1 <= i <= size && num == Below(base, i);
      assert back == i;
    }
  }

  // The end-of-file packet: when it is the expected one both receivers end with
  // the output they had; when it comes early they differ exactly if groupe_61
  // stores it, which groupe_42 never does.
  lemma EndIsAlike(size: nat, r: Receiver, d: Data)
    requires Coherent(size, r) && 0 < size < HALF_TURN && d.payload == [] && d.num < MODULUS
    ensures var (a, b) := (OnData(Wrapping, size, r, d).0, Store(size, r, d).0);
            if d.num == r.expected then a.done && b.done && a.output == b.output == r.output
            else a == b <==> !InWindow(Wrapping, d.num, r.expected, size) || d.num in r.buffer
  {
    RangeIsDistance(r.expected, size, d.num);
    NextIsMissing(size, r);
    if Seen(size, r.expected, d.num) {
      SeenIsOutside(r.expected, size, d.num);
    }
    hide Seen, InRange, InWindow;
    var stored := r.(buffer := r.buffer[d.num := d.payload]);
    assert d.num in stored.buffer;
  }

  lemma NextIsMissing(size: nat, r: Receiver)
    requires Coherent(size, r)
    ensures r.expected !in r.buffer
  {
  }

  lemma RoomLeft(size: nat, r: Receiver)
    requires Coherent(size, r) && 0 < size < HALF_TURN
    ensures |r.buffer| < size && 1 <= size - |r.buffer|
  {
    var inside := Passed(Wrapping, Add(Wrapping, r.expected, 1), size - 1);
    forall k | k in r.buffer.Keys ensures k in inside {
      DistNext(k, r.expected);
    }
    SubsetSize(r.buffer.Keys, inside);
    PassedSize(Wrapping, Add(Wrapping, r.expected, 1), size - 1);
    assert |r.buffer.Keys| == |r.buffer|;
  }

  lemma RangeIsDistance(base: nat, size: nat, num: nat)
    requires base < MODULUS && num < MODULUS && size < MODULUS
    ensures InRange(size, base, num) <==> InWindow(Wrapping, num, base, size)
  {
  }

  lemma BelowIsFar(base: nat, i: nat)
    requires base < MODULUS && 1 <= i < MODULUS
    ensures Dist(Wrapping, Below(base, i), base) == MODULUS - i
  {
    if base >= i {
      assert Below(base, i) == base - i;
    } else {
      assert Below(base, i) == base - i + MODULUS;
    }
  }

  lemma SeenIsOutside(base: nat, size: nat, num: nat)
    requires base < MODULUS && num < MODULUS && size < HALF_TURN && Seen(size, base, num)
    ensures !InWindow(Wrapping, num, base, size)
  {
    hide Below, Dist;
    var i :| 1 <= i <= size && num == Below(base, i);
    BelowIsFar(base, i);
  }

  // On every stream of DATA packets with payload, groupe_42's receiver keeps
  // its buffer strictly inside the window and always advertises room.
  lemma {:induction false} BufferStaysInside(size: nat, r: Receiver, ds: seq<Data>)
    requires Coherent(size, r) && 0 < size <= 63
    requires forall i | 0 <= i < |ds| :: ds[i].payload != [] && ds[i].num < MODULUS
    ensures Coherent(size, OnDatas(Wrapping, size, r, ds))
    ensures 1 <= Free(size, OnDatas(Wrapping, size, r, ds)) <= size
    decreases |ds|
  {
    if ds == [] {
      RoomLeft(size, r);
    } else {
      TakeKeepsCoherent(size, r, ds[0]);
      BufferStaysInside(size, OnData(Wrapping, size, r, ds[0]).0, ds[1..]);
    }
  }

  // --- the loop around groupe_61's Window ------------------------------------------

  // The states after ds; nothing is read once the file ended.
  function StoreAll(size: nat, r: Receiver, ds: seq<Data>): Receiver
    decreases |ds|
  {
    if ds == [] || r.done then r else StoreAll(size, Store(size, r, ds[0]).0, ds[1..])
  }

  // The acknowledgements on the way.
  function StoreAcks(size: nat, r: Receiver, ds: seq<Data>): seq<Ack>
    decreases |ds|
  {
    if ds == [] || r.done then []
    else
      var (t, answer) := Store(size, r, ds[0]);
      (if answer then [Ack(t.expected, size - |t.buffer|, {})] else []) + StoreAcks(size, t, ds[1..])
  }

  lemma OneMoreStored(size: nat, r: Receiver, ds: seq<Data>, i: nat)
    requires i < |ds| && !r.done
    ensures var (t, answer) := Store(size, r, ds[i]);
            && StoreAll(size, r, ds[i..]) == StoreAll(size, t, ds[i + 1..])
            && forall before: seq<Ack> :: before + StoreAcks(size, r, ds[i..])
                 == before + (if answer then [Ack(t.expected, size - |t.buffer|, {})] else [])
                    + StoreAcks(size, t, ds[i + 1..])
  {
    hide Store;
    assert ds[i..][0] == ds[i] && ds[i..][1..] == ds[i + 1..];
  }

  // The receive loop of the client on DATA packets: it leaves exactly when the file
  // is complete, and has acknowledged that.
  method ReceiveFile(size: nat, ds: seq<Data>) returns (w: Window, acks: seq<Ack>, ended: bool)
    requires 0 < size <= 63 && forall i | 0 <= i < |ds| :: ds[i].num < 2048
    ensures fresh(w) && w.State() == StoreAll(size, NewReceiver(), ds)
    ensures acks == StoreAcks(size, NewReceiver(), ds)
    ensures ended == w.fileWritten && (!ended ==> Tidy(size, w.State()))
    ensures ended ==> acks != [] && acks[|acks| - 1] == Ack(w.baseSeqnum, size - |w.packets|, {})
  {
    hide Store, StoreAll, StoreAcks, Tidy, TakenAs, Fits, Take;
    w := new Window(size);
    acks, ended := [], false;
    var i := 0;
    StartsTidy(size, ds);
    while i < |ds|
      invariant i <= |ds| && fresh(w) && w.windowSize == size && Tidy(size, w.State())
      invariant StoreAll(size, w.State(), ds[i..]) == StoreAll(size, NewReceiver(), ds)
      invariant acks + StoreAcks(size, w.State(), ds[i..]) == StoreAcks(size, NewReceiver(), ds)
    {
      TidyGoesOn(size, w.State());
      OneMoreStored(size, w.State(), ds, i);
      StoreKeepsTidy(size, w.State(), ds[i]);
      var answer := w.AddPacket(ds[i]);
      i := i + 1;
      assert acks + [] == acks;
      if answer {
        acks := acks + [Ack(w.baseSeqnum, size - |w.packets|, {})];
        if w.fileWritten {
          NothingMore(size, w.State(), ds[i..]);
          assert acks + [] == acks;
          return w, acks, true;
        }
      }
    }
    TidyGoesOn(size, w.State());
    NothingMore(size, w.State(), ds[i..]);
    assert acks + [] == acks;
  }

  lemma StartsTidy(size: nat, ds: seq<Data>)
    requires 0 < size < HALF_TURN
    ensures Tidy(size, NewReceiver()) && ds[0..] == ds
    ensures [] + StoreAcks(size, NewReceiver(), ds) == StoreAcks(size, NewReceiver(), ds)
  {
  }

  lemma TidyGoesOn(size: nat, r: Receiver)
    requires Tidy(size, r)
    ensures !r.done
  {
  }

  lemma NothingMore(size: nat, r: Receiver, rest: seq<Data>)
    requires rest == [] || r.done
    ensures StoreAll(size, r, rest) == r && StoreAcks(size, r, rest) == []
  {
  }

  // Fed with the same stream, groupe_61's Window and groupe_42's recv_file hold
  // the same expected number, buffer and output.
  method FeedWindow(size: nat, ds: seq<Data>) returns (w: Window)
    requires 0 < size <= 63
    requires forall i | 0 <= i < |ds| :: ds[i].payload != [] && ds[i].num < MODULUS
    ensures fresh(w) && w.State() == OnDatas(Wrapping, size, NewReceiver(), ds)
  {
    w := new Window(size);
    for i := 0 to |ds|
      invariant fresh(w) && w.windowSize == size && Coherent(size, w.State())
      invariant OnDatas(Wrapping, size, w.State(), ds[i..]) == OnDatas(Wrapping, size, NewReceiver(), ds)
    {
      OneMore(size, w.State(), ds, i);
      StoreIsTake(size, w.State(), ds[i]);
      TakeKeepsCoherent(size, w.State(), ds[i]);
      hide Take, Store, OnDatas, Answers, Coherent;
      var _ := w.AddPacket(ds[i]);
    }
    assert ds[|ds|..] == [];
  }
}
