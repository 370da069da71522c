// What lateness costs. The system of Reordering without any punctuality: how long
// a file may be for the network never to do harm, and what a single packet or
// acknowledgement one step past its age bound does to longer ones.
module Lateness {
  import opened SeqNums
  import opened Packets
  import opened ServerSession
  import opened CumulativeClient
  import opened LogNetwork
  import opened Reordering
  import opened PunctualRuns

  // The residue tests by age: a packet behind by t, 0 < t <= 2048, is taken for
  // a new one just when t exceeds 2048 - W, and an acknowledgement behind by t
  // moves the base just when t exceeds 1024.
  lemma AgeBoundsAreExact(num: nat, base: nat, size: nat)
    requires num < base <= num + MODULUS && size <= MODULUS
    ensures InWindow(Wrapping, num % MODULUS, base % MODULUS, size) <==> base - num > MODULUS - size
    ensures 0 <= Dist(Wrapping, num % MODULUS, base % MODULUS) < HALF_TURN <==> base - num > HALF_TURN
  {
    if base == num + MODULUS {
      assert num % MODULUS == base % MODULUS;
    } else {
      DistWraps(num, base);
    }
  }

  lemma {:induction false} RunAppend(ar: Arith, size: nat, s: State, a: seq<Event>, b: seq<Event>)
    requires Run(ar, size, s, a).Some?
    ensures Run(ar, size, s, a + b) == Run(ar, size, Run(ar, size, s, a).value, b)
    decreases |a|
  {
    hide Apply, Enabled;
    if a == [] {
      assert a + b == b;
    } else {
      assert (a + b)[0] == a[0] && (a + b)[1..] == a[1..] + b;
      RunAppend(ar, size, Apply(ar, size, s, a[0]), a[1..], b);
    }
  }

  // --- delivering a file chunk by chunk --------------------------------------------

  // The first n chunks went through one at a time and were acknowledged.
  ghost predicate Delivered(file: seq<Chunk>, size: nat, n: nat, st: State) {
    && 0 < size <= MAX_WINDOW
    && n <= |file| && st.sent == Firsts(file, n)
    && st.client == Receiver(n, map[], file[..n], false)
    && st.server == Server(n, n, map[], size, file[n..], false, false)
  }

  lemma TakeNext(file: seq<Chunk>, size: nat, n: nat)
    requires 0 < size <= MAX_WINDOW && n < |file| && file[n] != []
    ensures OnData(Unbounded, size, Receiver(n, map[], file[..n], false), Data(n, file[n]))
         == (Receiver(n + 1, map[], file[..n + 1], false), Ack(n + 1, size, {}))
  {
    assert file[..n + 1] == file[..n] + [file[n]];
  }

  lemma HearOne(s: Server, n: nat, chunk: Chunk, window: int)
    requires s.base == n && s.unacked == map[n := chunk]
    ensures OnAck(Unbounded, s, n + 1, window, {}) == s.(base := n + 1, unacked := map[], window := window)
  {
    assert Add(Unbounded, n, 0) in Passed(Unbounded, n, 1);
  }

  lemma OneChunkGoes(file: seq<Chunk>, size: nat, n: nat, st: State) returns (es: seq<Event>, t: State)
    requires Delivered(file, size, n, st) && n < |file| && file[n] != []
    ensures Leads(size, st, es, t) && Delivered(file, size, n + 1, t)
    ensures t.acks == st.acks + [Ack(n + 1, size, {})]
  {
    hide Leads, OnData, OnAck, Run, Punctual;
    var st1 := Apply(Unbounded, size, st, ServerFills);
    LeadsOne(size, st, ServerFills);
    assert st1.sent == Firsts(file, n + 1);
    assert st1.server == Server(n, n + 1, map[n := file[n]], size, file[n + 1..], false, false);
    TakeNext(file, size, n);
    var st2 := Apply(Unbounded, size, st1, DataArrives(n));
    LeadsOneMore(size, st, [ServerFills], st1, DataArrives(n));
    HearOne(st1.server, n, file[n], size);
    var e := AckArrives(|st.acks|);
    t := Apply(Unbounded, size, st2, e);
    LeadsOneMore(size, st, [ServerFills] + [DataArrives(n)], st2, e);
    es := [ServerFills] + [DataArrives(n)] + [e];
  }

  function Replies(m: nat, n: nat, size: nat): (r: seq<Ack>)
    requires m <= n
    ensures |r| == n - m && forall i | 0 <= i < n - m :: r[i] == Ack(m + 1 + i, size, {})
  {
    seq(n - m, i requires 0 <= i < n - m => Ack(m + 1 + i, size, {}))
  }

  // From m chunks to n; the acknowledgements on the way are the expected ones.
  lemma {:induction false} DeliverUpTo(file: seq<Chunk>, size: nat, m: nat, st: State, n: nat)
    returns (es: seq<Event>, t: State)
    requires Delivered(file, size, m, st) && m <= n <= |file| && forall i | 0 <= i < |file| :: file[i] != []
    ensures Leads(size, st, es, t) && Delivered(file, size, n, t)
    ensures t.acks == st.acks + Replies(m, n, size)
    decreases n - m
  {
    hide Leads, Firsts;
    if m == n {
      es, t := [], st;
      LeadsNowhere(size, st);
      assert st.acks + Replies(m, n, size) == st.acks;
    } else {
      var first, mid := OneChunkGoes(file, size, m, st);
      hide Delivered;
      var rest;
      rest, t := DeliverUpTo(file, size, m + 1, mid, n);
      LeadsOn(size, st, first, mid, rest, t);
      es := first + rest;
      assert Replies(m, n, size) == [Ack(m + 1, size, {})] + Replies(m + 1, n, size);
    }
  }

  lemma StartInOrder(file: seq<Chunk>, size: nat)
    requires 0 < size <= MAX_WINDOW
    ensures Delivered(file, size, 0, Init(file, size))
  {
    assert file[0..] == file;
  }

  // Chunk 1 overtakes chunk 0: the receiver asks for 0 although it is on its way.
  lemma StartSwapped(file: seq<Chunk>, size: nat) returns (es: seq<Event>, t: State)
    requires 2 <= size <= MAX_WINDOW && |file| >= 2 && file[0] != [] && file[1] != []
    ensures Leads(size, Init(file, size), es, t) && Delivered(file, size, 2, t)
    ensures t.acks == [Ack(0, size - 1, {}), Ack(2, size, {})]
  {
    hide Leads, OnData, OnAck, Run, Punctual;
    var s0 := Init(file, size);
    assert file[0..] == file;
    var s1 := Apply(Unbounded, size, s0, ServerFills);
    LeadsOne(size, s0, ServerFills);
    assert s1.server == Server(0, 1, map[0 := file[0]], size, file[1..], false, false);
    var s2 := Apply(Unbounded, size, s1, ServerFills);
    LeadsOneMore(size, s0, [ServerFills], s1, ServerFills);
    assert s2.server == Server(0, 2, map[0 := file[0], 1 := file[1]], size, file[2..], false, false);
    assert s2.sent == Firsts(file, 2);
    TakeSwapped(file, size);
    var s3 := Apply(Unbounded, size, s2, DataArrives(1));
    LeadsOneMore(size, s0, [ServerFills] + [ServerFills], s2, DataArrives(1));
    var s4 := Apply(Unbounded, size, s3, DataArrives(0));
    LeadsOneMore(size, s0, [ServerFills] + [ServerFills] + [DataArrives(1)], s3, DataArrives(0));
    assert s4.acks == [Ack(0, size - 1, {}), Ack(2, size, {})];
    HearTwo(s4.server, file[0], file[1], size);
    t := Apply(Unbounded, size, s4, AckArrives(1));
    LeadsOneMore(size, s0, [ServerFills] + [ServerFills] + [DataArrives(1)] + [DataArrives(0)], s4, AckArrives(1));
    es := [ServerFills] + [ServerFills] + [DataArrives(1)] + [DataArrives(0)] + [AckArrives(1)];
  }

  lemma TakeSwapped(file: seq<Chunk>, size: nat)
    requires 2 <= size <= MAX_WINDOW && |file| >= 2 && file[0] != [] && file[1] != []
    ensures var r := Receiver(0, map[1 := file[1]], [], false);
            && OnData(Unbounded, size, NewReceiver(), Data(1, file[1])) == (r, Ack(0, size - 1, {}))
            && OnData(Unbounded, size, r, Data(0, file[0])) == (Receiver(2, map[], file[..2], false), Ack(2, size, {}))
  {
    var mid := Receiver(1, map[1 := file[1]], [file[0]], false);
    var end := Receiver(2, map[], file[..2], false);
    assert [] + [file[0]] == [file[0]];
    assert file[..2] == [file[0]] + [file[1]];
    assert map[1 := file[1]] - {1} == map[];
    assert WriteOne(Unbounded, mid) == end;
    FlushOnce(Unbounded, mid);
    assert Flush(Unbounded, end) == end;
  }

  lemma HearTwo(s: Server, a: Chunk, b: Chunk, window: int)
    requires s.base == 0 && s.unacked == map[0 := a, 1 := b]
    ensures OnAck(Unbounded, s, 2, window, {}) == s.(base := 2, unacked := map[], window := window)
  {
    assert Add(Unbounded, 0, 0) in Passed(Unbounded, 0, 2) && Add(Unbounded, 0, 1) in Passed(Unbounded, 0, 2);
  }

  // --- an acknowledgement one step too late -------------------------------------------

  // Up to this many chunks no network does harm. A receiver of window 1 never
  // acknowledges 0, which makes one chunk of difference.
  function SafeLength(size: nat): nat {
    if size == 1 then HALF_TURN + 2 else HALF_TURN + 1
  }

  // All chunks but the last went through, the last was sent, and some old
  // acknowledgement is one step past the age bound.
  ghost predicate LastUnderWay(file: seq<Chunk>, size: nat, u: State, late: nat) {
    && file != [] && 0 < size <= MAX_WINDOW && late < |u.acks|
    && u.client == Receiver(|file| - 1, map[], file[..|file| - 1], false)
    && u.server == Server(|file| - 1, |file|, map[|file| - 1 := file[|file| - 1]], size, [], false, false)
    && u.server.base == u.acks[late].num + HALF_TURN + 1 && u.acks[late].window >= 1
  }

  lemma SendLast(file: seq<Chunk>, size: nat, es: seq<Event>, st: State, late: nat) returns (u: State)
    requires file != [] && Delivered(file, size, |file| - 1, st) && Leads(size, Init(file, size), es, st)
    requires late < |st.acks| && |file| - 1 == st.acks[late].num + HALF_TURN + 1 && st.acks[late].window >= 1
    ensures Leads(size, Init(file, size), es + [ServerFills], u) && LastUnderWay(file, size, u, late)
  {
    hide Leads;
    u := Apply(Unbounded, size, st, ServerFills);
    LeadsOneMore(size, Init(file, size), es, st, ServerFills);
  }

  // Such a state is reached by a punctual run.
  lemma ReachLast(file: seq<Chunk>, size: nat) returns (es: seq<Event>, late: nat, u: State)
    requires 0 < size <= MAX_WINDOW && |file| > SafeLength(size) && forall i | 0 <= i < |file| :: file[i] != []
    ensures Leads(size, Init(file, size), es, u) && LastUnderWay(file, size, u, late)
  {
    hide Leads, Delivered;
    var init, n := Init(file, size), |file| - 1;
    var run, st;
    if |file| == HALF_TURN + 2 {
      var first, two := StartSwapped(file, size);
      var rest;
      rest, st := DeliverUpTo(file, size, 2, two, n);
      LeadsOn(size, init, first, two, rest, st);
      run := first + rest;
      late := 0;
    } else {
      StartInOrder(file, size);
      run, st := DeliverUpTo(file, size, 0, init, n);
      late := n - HALF_TURN - 2;
      assert st.acks[late] == Replies(0, n, size)[late];
    }
    u := SendLast(file, size, run, st, late);
    es := run + [ServerFills];
  }

  // The server takes the old acknowledgement for a new one and forgets the chunk.
  lemma OneKeyWraps(w: map<nat, Chunk>, u: map<nat, Chunk>, k: nat)
    requires MapWraps(w, u) && u.Keys == {k}
    ensures forall q | q in w :: q == k % MODULUS
  {
    assert forall j | j in u :: j in u.Keys;
  }

  lemma TooFarAround(s: Server, num: nat, window: int)
    requires Dist(Wrapping, num, s.base) == HALF_TURN - 1 && s.base < MODULUS
    requires forall q | q in s.unacked :: q == s.base
    ensures var t := OnAck(Wrapping, s, num, window, {});
            t.unacked == map[] && t == s.(base := t.base, window := window, unacked := t.unacked)
  {
    assert Add(Wrapping, s.base, 0) in Passed(Wrapping, s.base, HALF_TURN - 1);
  }

  lemma LateAckForgets(file: seq<Chunk>, size: nat, w: State, u: State, late: nat)
    requires StateWraps(w, u) && LastUnderWay(file, size, u, late)
    ensures var s := OnAck(Wrapping, w.server, w.acks[late].num, w.acks[late].window, {});
            s.unacked == map[] && s.window >= 1 && s.unread == [] && !s.eof
  {
    DistWraps(u.acks[late].num, u.server.base);
    OneKeyWraps(w.server.unacked, u.server.unacked, u.server.base);
    hide MapWraps;
    TooFarAround(w.server, w.acks[late].num, w.acks[late].window);
  }

  lemma ThreeSteps(size: nat, s: State, a: Event, b: Event, c: Event)
    requires Enabled(Wrapping, s, a) && Enabled(Wrapping, Apply(Wrapping, size, s, a), b)
    requires Enabled(Wrapping, Apply(Wrapping, size, Apply(Wrapping, size, s, a), b), c)
    ensures Run(Wrapping, size, s, [a, b, c])
         == Some(Apply(Wrapping, size, Apply(Wrapping, size, Apply(Wrapping, size, s, a), b), c))
  {
    hide Apply, Enabled;
    assert [a, b, c][1..] == [b, c] && [b, c][1..] == [c] && [c][1..] == [];
    var s1 := Apply(Wrapping, size, s, a);
    var s2 := Apply(Wrapping, size, s1, b);
    assert Run(Wrapping, size, Apply(Wrapping, size, s2, c), []) == Some(Apply(Wrapping, size, s2, c));
    assert Run(Wrapping, size, s2, [c]) == Some(Apply(Wrapping, size, s2, c));
    assert Run(Wrapping, size, s1, [b, c]) == Run(Wrapping, size, s2, [c]);
  }

  function AfterLateAck(late: nat): seq<Event> {
    [AckArrives(late), ServerFills, ServerEnds]
  }

  lemma LateAckEnds(file: seq<Chunk>, size: nat, w: State, u: State, late: nat)
    requires StateWraps(w, u) && LastUnderWay(file, size, u, late)
    ensures Run(Wrapping, size, w, AfterLateAck(late)).Some?
    ensures var t := Run(Wrapping, size, w, AfterLateAck(late)).value;
            t.server.finSent && t.client.output == file[..|file| - 1]
  {
    hide OnAck, Run;
    LateAckForgets(file, size, w, u, late);
    ThreeSteps(size, w, AckArrives(late), ServerFills, ServerEnds);
  }

  // For every window and every file of more than SafeLength chunks: a punctual
  // run, then one acknowledgement 1025 behind, and the server sends the
  // end-of-file packet with the last chunk undelivered.
  lemma LateAckLosesAChunk(file: seq<Chunk>, size: nat) returns (es: seq<Event>, late: nat, u: State)
    requires 0 < size <= MAX_WINDOW && |file| > SafeLength(size) && forall i | 0 <= i < |file| :: file[i] != []
    ensures Leads(size, Init(file, size), es, u)
    ensures late < |u.acks| && u.server.base == u.acks[late].num + HALF_TURN + 1
    ensures Run(Wrapping, size, Init(file, size), es + AfterLateAck(late)).Some?
    ensures var t := Run(Wrapping, size, Init(file, size), es + AfterLateAck(late)).value;
            t.server.finSent && t.client.output == file[..|file| - 1]
  {
    es, late, u := ReachLast(file, size);
    hide Run, Punctual, Inv, StateWraps;
    var init := Init(file, size);
    InitOk(file, size);
    RunWraps(file, size, init, init, es);
    var w := Run(Wrapping, size, init, es).value;
    LateAckEnds(file, size, w, u, late);
    RunAppend(Wrapping, size, init, es, AfterLateAck(late));
  }

  // --- a packet one step too late --------------------------------------------------------

  // e chunks went through and the server sent k; what it keeps fits its window.
  ghost predicate Ahead(file: seq<Chunk>, size: nat, e: nat, k: nat, st: State) {
    && 0 < size <= MAX_WINDOW && e <= k <= |file| && st.sent == Firsts(file, k)
    && st.client == Receiver(e, map[], file[..e], false)
    && st.server == Server(e, k, st.server.unacked, size, file[k..], false, false)
    && |st.server.unacked| <= k - e
  }

  lemma OneMoreKept(m: map<nat, Chunk>, k: nat, v: Chunk)
    ensures |m[k := v]| <= |m| + 1
  {
    assert m[k := v].Keys == m.Keys + {k};
    assert |m.Keys| == |m| && |m[k := v].Keys| == |m[k := v]|;
  }

  lemma {:induction false} FillUpTo(file: seq<Chunk>, size: nat, e: nat, k: nat, st: State, n: nat)
    returns (es: seq<Event>, t: State)
    requires Ahead(file, size, e, k, st) && k <= n <= |file| && n - e < size
    ensures Leads(size, st, es, t) && Ahead(file, size, e, n, t)
    decreases n - k
  {
    hide Leads;
    if k == n {
      es, t := [], st;
      LeadsNowhere(size, st);
    } else {
      var mid := Apply(Unbounded, size, st, ServerFills);
      LeadsOne(size, st, ServerFills);
      OneMoreKept(st.server.unacked, k, file[k]);
      assert mid.sent == Firsts(file, k + 1);
      assert file[k..][1..] == file[k + 1..];
      hide Ahead, Firsts;
      var rest;
      rest, t := FillUpTo(file, size, e, k + 1, mid, n);
      LeadsOn(size, st, [ServerFills], mid, rest, t);
      es := [ServerFills] + rest;
    }
  }

  // Where packet 0 is exactly one step past its age bound.
  function Late(size: nat): nat
    requires size <= MAX_WINDOW
  {
    MODULUS - size + 1
  }

  lemma ReachLate(file: seq<Chunk>, size: nat) returns (es: seq<Event>, u: State)
    requires 0 < size <= MAX_WINDOW && |file| >= MODULUS && forall i | 0 <= i < |file| :: file[i] != []
    ensures Leads(size, Init(file, size), es, u) && Ahead(file, size, Late(size), MODULUS, u)
  {
    hide Leads;
    var e, init := Late(size), Init(file, size);
    StartInOrder(file, size);
    var first, mid := DeliverUpTo(file, size, 0, init, e);
    assert Ahead(file, size, e, e, mid);
    hide Ahead, Delivered;
    var rest;
    rest, u := FillUpTo(file, size, e, e, mid, MODULUS);
    LeadsOn(size, init, first, mid, rest, u);
    es := first + rest;
  }

  // The packets from k on, in order.
  function Arrivals(k: nat): seq<Event>
    requires k <= MODULUS
  {
    seq(MODULUS - k, i requires 0 <= i < MODULUS - k => DataArrives(k + i))
  }

  lemma ArrivalsFrom(k: nat)
    requires k < MODULUS
    ensures Arrivals(k) == [DataArrives(k)] + Arrivals(k + 1)
    ensures Arrivals(k)[0] == DataArrives(k) && Arrivals(k)[1..] == Arrivals(k + 1)
  {
  }

  // In the unbounded reading the late packet changes nothing and the rest is on time.
  lemma {:induction false} ArrivalsArePunctual(file: seq<Chunk>, size: nat, k: nat, u: State)
    requires 0 < size <= MAX_WINDOW && k <= MODULUS <= |file| && forall i | 0 <= i < |file| :: file[i] != []
    requires u.sent == Firsts(file, MODULUS) && u.client == Receiver(k, map[], file[..k], false)
    ensures Punctual(size, u, Arrivals(k)) && Run(Unbounded, size, u, Arrivals(k)).Some?
    decreases MODULUS - k
  {
    if k < MODULUS {
      ArrivalsFrom(k);
      TakeNext(file, size, k);
      hide OnData, Arrivals, Firsts;
      assert u.sent[k] == Data(k, file[k]);
      ArrivalsArePunctual(file, size, k + 1, Apply(Unbounded, size, u, DataArrives(k)));
    } else {
      assert Arrivals(k) == [];
    }
  }

  // The receiver holds the old packet 0 in the place of packet 2048.
  ghost predicate Poisoned(file: seq<Chunk>, k: nat, w: State) {
    && k <= MODULUS <= |file| && w.sent == Firsts(file, MODULUS)
    && w.client == Receiver(k, map[0 := file[0]], file[..k], false)
  }

  lemma PoisonStays(file: seq<Chunk>, size: nat, k: nat)
    requires 0 < size <= MAX_WINDOW && 0 < k < MODULUS - 1 < |file| && file[k] != []
    ensures OnData(Wrapping, size, Receiver(k, map[0 := file[0]], file[..k], false), Data(k, file[k])).0
         == Receiver(k + 1, map[0 := file[0]], file[..k + 1], false)
  {
    assert file[..k + 1] == file[..k] + [file[k]];
    assert Add(Wrapping, k, 1) == k + 1;
  }

  lemma PoisonIsWritten(file: seq<Chunk>, size: nat)
    requires 0 < size <= MAX_WINDOW && |file| >= MODULUS && file[MODULUS - 1] != []
    ensures OnData(Wrapping, size, Receiver(MODULUS - 1, map[0 := file[0]], file[..MODULUS - 1], false),
                   Data(MODULUS - 1, file[MODULUS - 1])).0
         == Receiver(1, map[], file[..MODULUS] + [file[0]], false)
  {
    assert file[..MODULUS] == file[..MODULUS - 1] + [file[MODULUS - 1]];
    var full := Receiver(0, map[0 := file[0]], file[..MODULUS], false);
    var end := Receiver(1, map[], file[..MODULUS] + [file[0]], false);
    assert map[0 := file[0]] - {0} == map[];
    assert WriteOne(Wrapping, full) == end;
    FlushOnce(Wrapping, full);
    assert Flush(Wrapping, end) == end;
  }

  lemma {:induction false} PoisonedRuns(file: seq<Chunk>, size: nat, k: nat, w: State)
    requires 0 < size <= MAX_WINDOW && 0 < k < MODULUS && Poisoned(file, k, w)
    requires forall i | 0 <= i < |file| :: file[i] != []
    ensures Run(Wrapping, size, w, Arrivals(k)).Some?
    ensures Run(Wrapping, size, w, Arrivals(k)).value.client.output == file[..MODULUS] + [file[0]]
    decreases MODULUS - k
  {
    ArrivalsFrom(k);
    hide OnData, Arrivals, Firsts;
    var t := Apply(Wrapping, size, w, DataArrives(k));
    if k == MODULUS - 1 {
      PoisonIsWritten(file, size);
      NoArrivals();
      assert Run(Wrapping, size, t, []) == Some(t);
    } else {
      PoisonStays(file, size, k);
      PoisonedRuns(file, size, k + 1, t);
    }
  }

  lemma NoArrivals()
    ensures Arrivals(MODULUS) == []
  {
  }

  // The wrapping receiver takes the late packet for packet 2048.
  lemma LatePacketIsTaken(file: seq<Chunk>, size: nat, w: State, u: State)
    requires StateWraps(w, u) && size <= MAX_WINDOW && Ahead(file, size, Late(size), MODULUS, u) && file[0] != []
    ensures Enabled(Wrapping, w, DataArrives(0))
    ensures var t := Apply(Wrapping, size, w, DataArrives(0));
            if size == 1 then t.client.output == file[..MODULUS] + [file[0]]
            else Poisoned(file, Late(size), t)
  {
    var d := Data(0, file[0]);
    assert w.sent == Firsts(file, MODULUS);
    assert w.client.buffer == map[];
    if size == 1 {
      var end := Receiver(1, map[], file[..MODULUS] + [file[0]], false);
      assert Flush(Wrapping, end) == end;
    } else {
      assert Dist(Wrapping, 0, Late(size)) == size - 1;
    }
  }

  lemma LatePacketIgnored(file: seq<Chunk>, size: nat, u: State)
    requires size <= MAX_WINDOW && Ahead(file, size, Late(size), MODULUS, u) && file[0] != []
    ensures Enabled(Unbounded, u, DataArrives(0))
    ensures var t := Apply(Unbounded, size, u, DataArrives(0)); t.client == u.client && t.sent == u.sent
  {
  }

  // Writing chunk 0 after the first 2048 is wrong exactly when the file ends there
  // or goes on differently.
  lemma WrittenTwiceIsWrong(file: seq<Chunk>)
    requires |file| >= MODULUS
    ensures !(file[..MODULUS] + [file[0]] <= file) <==> |file| == MODULUS || file[MODULUS] != file[0]
  {
    var out := file[..MODULUS] + [file[0]];
    assert out[MODULUS] == file[0];
    if |file| > MODULUS && file[MODULUS] == file[0] {
      assert out == file[..MODULUS + 1];
    }
  }

  // For every window and every file of at least 2048 chunks: a punctual run, then
  // packet 0 one step past its age bound, then only packets on time, and the
  // receiver writes chunk 0 once more after the first 2048.
  lemma LatePacketIsWritten(file: seq<Chunk>, size: nat) returns (es: seq<Event>, more: seq<Event>, u: State)
    requires 0 < size <= MAX_WINDOW && |file| >= MODULUS && forall i | 0 <= i < |file| :: file[i] != []
    ensures Leads(size, Init(file, size), es, u) && Enabled(Unbounded, u, DataArrives(0))
    ensures u.client.expected == u.sent[0].num + (MODULUS - size) + 1
    ensures Punctual(size, Apply(Unbounded, size, u, DataArrives(0)), more)
    ensures Run(Unbounded, size, Apply(Unbounded, size, u, DataArrives(0)), more).Some?
    ensures Run(Wrapping, size, Init(file, size), es + ([DataArrives(0)] + more)).Some?
    ensures var out := Run(Wrapping, size, Init(file, size), es + ([DataArrives(0)] + more)).value.client.output;
            && out == file[..MODULUS] + [file[0]]
            && (!(out <= file) <==> |file| == MODULUS || file[MODULUS] != file[0])
  {
    WrittenTwiceIsWrong(file);
    var init := Init(file, size);
    es, u := ReachLate(file, size);
    LatePacketIgnored(file, size, u);
    InitOk(file, size);
    hide Punctual, Inv, StateWraps, Poisoned, OnData, Arrivals;
    more := if size == 1 then [] else Arrivals(Late(size));
    if size == 1 {
      NoArrivals();
      ArrivalsArePunctual(file, size, MODULUS, Apply(Unbounded, size, u, DataArrives(0)));
    } else {
      ArrivalsArePunctual(file, size, Late(size), Apply(Unbounded, size, u, DataArrives(0)));
    }
    RunWraps(file, size, init, init, es);
    var w := Run(Wrapping, size, init, es).value;
    LatePacketIsTaken(file, size, w, u);
    hide Ahead, Apply, Enabled;
    var t := Apply(Wrapping, size, w, DataArrives(0));
    assert Run(Wrapping, size, w, [DataArrives(0)] + more) == Run(Wrapping, size, t, more) by {
      assert ([DataArrives(0)] + more)[1..] == more;
    }
    if size > 1 {
      PoisonedRuns(file, size, Late(size), t);
    }
    RunAppend(Wrapping, size, init, es, [DataArrives(0)] + more);
  }

  // --- files no network can harm ---------------------------------------------------------

  // The output is right so far, and complete once the end was declared.
  predicate Sound(file: seq<Chunk>, st: State) {
    st.client.output <= file && (st.server.finSent || st.client.done ==> st.client.output == file)
  }

  ghost predicate ClientOk(file: seq<Chunk>, s: Server, r: Receiver) {
    && r.expected <= s.next <= |file| && r.output == file[..r.expected]
    && (forall k | k in r.buffer :: k < s.next && r.buffer[k] == file[k])
  }

  // With a window of 1 nothing but packet 0 can come first.
  ghost predicate OneByOne(file: seq<Chunk>, size: nat, st: State) {
    size == 1 && file != [] ==>
      && st.server.window <= 1 && (st.client.expected == 0 ==> st.server.next <= 1)
      && forall i | 0 <= i < |st.acks| :: st.acks[i].num >= 1 && st.acks[i].window <= 1
  }

  ghost predicate ShortInv(file: seq<Chunk>, size: nat, st: State) {
    && 0 < size <= MAX_WINDOW && |file| <= SafeLength(size) && (forall i | 0 <= i < |file| :: file[i] != [])
    && SessionOk(file, st.server)
    && ClientOk(file, st.server, st.client) && st.client.expected !in st.client.buffer
    && st.server.base <= st.client.expected
    && (forall k: nat | Forgotten(st.server, k) :: k < st.client.expected)
    && (st.client.done ==> st.client.expected == |file|)
    && AllTravel(file, st.server, st.sent)
    && (forall i | 0 <= i < |st.acks| :: st.acks[i].num <= st.client.expected)
    && OneByOne(file, size, st)
  }

  lemma ShortIsSound(file: seq<Chunk>, size: nat, st: State)
    requires ShortInv(file, size, st)
    ensures Sound(file, st)
  {
    hide AllTravel, OneByOne;
    assert file[..|file|] == file;
    assert st.server.finSent && st.client.expected < |file| ==> Forgotten(st.server, st.client.expected);
  }

  lemma ShortWrite(file: seq<Chunk>, s: Server, r: Receiver)
    requires ClientOk(file, s, r) && |file| < MODULUS && r.expected in r.buffer
    ensures ClientOk(file, s, WriteOne(Wrapping, r)) && WriteOne(Wrapping, r).expected == r.expected + 1
  {
    assert file[..r.expected + 1] == file[..r.expected] + [file[r.expected]];
  }

  lemma {:induction false} ShortFlush(file: seq<Chunk>, s: Server, r: Receiver)
    requires ClientOk(file, s, r) && |file| < MODULUS
    ensures var f := Flush(Wrapping, r);
            ClientOk(file, s, f) && f.expected !in f.buffer && f.expected >= r.expected && f.done == r.done
    decreases |r.buffer|
  {
    hide ClientOk;
    if r.expected in r.buffer {
      ShortWrite(file, s, r);
      FlushOnce(Wrapping, r);
      hide Flush, WriteOne;
      ShortFlush(file, s, WriteOne(Wrapping, r));
    }
  }

  // The expected packet is written, whatever the window.
  lemma ShortNext(file: seq<Chunk>, size: nat, s: Server, r: Receiver, d: Data)
    requires ClientOk(file, s, r) && |file| < MODULUS && size > 0
    requires d.num == r.expected < s.next && d.payload == file[d.num]
    ensures var t := Take(Wrapping, size, r, d);
            ClientOk(file, s, t) && t.expected !in t.buffer && t.expected > r.expected && t.done == r.done
  {
    var r1 := r.(output := r.output + [d.payload], expected := r.expected + 1);
    assert file[..r.expected + 1] == file[..r.expected] + [file[r.expected]];
    ShortFlush(file, s, r1);
    hide Flush, ClientOk;
    assert Take(Wrapping, size, r, d) == Flush(Wrapping, r1);
  }

  lemma ShortTake(file: seq<Chunk>, size: nat, s: Server, r: Receiver, d: Data)
    requires ClientOk(file, s, r) && r.expected !in r.buffer && |file| < MODULUS && size > 0
    requires d.num < s.next && d.payload == file[d.num]
    ensures var t := Take(Wrapping, size, r, d);
            && ClientOk(file, s, t) && t.expected !in t.buffer && t.expected >= r.expected && t.done == r.done
            && (d.num == r.expected ==> t.expected > r.expected)
  {
    hide Flush;
    if d.num == r.expected {
      ShortNext(file, size, s, r, d);
    }
  }

  lemma ShortOnData(file: seq<Chunk>, size: nat, s: Server, r: Receiver, d: Data)
    requires ClientOk(file, s, r) && r.expected !in r.buffer && |file| < MODULUS && size > 0 && !r.done
    requires Travels(file, s, d)
    ensures var (t, ack) := OnData(Wrapping, size, r, d);
            && ClientOk(file, s, t) && t.expected !in t.buffer && t.expected >= r.expected
            && (t.done ==> t.expected == |file|) && ack.num == t.expected && ack.window <= size
            && (d.payload != [] && d.num == r.expected ==> t.expected > r.expected)
  {
    hide Take;
    if d.payload != [] {
      ShortTake(file, size, s, r, d);
    }
  }

  lemma ShortArrival(file: seq<Chunk>, size: nat, st: State, at: nat)
    requires ShortInv(file, size, st) && Enabled(Wrapping, st, DataArrives(at))
    ensures ShortInv(file, size, Apply(Wrapping, size, st, DataArrives(at)))
  {
    var d := st.sent[at];
    FirstComesFirst(file, size, st, d);
    hide OnData, SessionOk, ClientOk, Travels;
    ShortOnData(file, size, st.server, st.client, d);
    assert st.client.expected <= |file| by {
      assert ClientOk(file, st.server, st.client);
    }
  }

  // Before anything is written, a receiver of window 1 can get nothing but chunk 0.
  lemma FirstComesFirst(file: seq<Chunk>, size: nat, st: State, d: Data)
    requires ShortInv(file, size, st) && Travels(file, st.server, d)
    ensures size == 1 && file != [] && st.client.expected == 0 ==> d.num == 0 && d.payload != []
  {
    UnwrittenIsKept(file, size, st);
  }

  lemma ShortAck(file: seq<Chunk>, size: nat, st: State, at: nat)
    requires ShortInv(file, size, st) && Enabled(Wrapping, st, AckArrives(at))
    ensures ShortInv(file, size, Apply(Wrapping, size, st, AckArrives(at)))
  {
    hide OnAck, AllTravel;
    var s, a := st.server, st.acks[at];
    assert s.base > a.num + HALF_TURN ==> s.base == |file|;
    OnAckMemory(Wrapping, file, s, a.num, a.window, {});
    OnAckKeepsSession(Wrapping, file, s, a.num, a.window, {});
    var t := OnAck(Wrapping, s, a.num, a.window, {});
    hide SessionOk;
    TravelOn(file, s, t, st.sent, []);
    assert st.sent + [] == st.sent;
  }

  lemma ClientLater(file: seq<Chunk>, s: Server, t: Server, r: Receiver)
    requires ClientOk(file, s, r) && s.next <= t.next <= |file|
    ensures ClientOk(file, t, r)
  {
  }

  lemma ShortSend(file: seq<Chunk>, size: nat, st: State, e: Event)
    requires ShortInv(file, size, st) && Sends(e) && MaySend(Wrapping, st.server, e)
    ensures ShortInv(file, size, ApplySend(Wrapping, st, e))
  {
    hide Send, AllTravel, MaySend, ClientOk;
    var s := st.server;
    SendTravels(Wrapping, file, s, e);
    SendKeepsSession(Wrapping, file, s, e);
    OneAtATime(file, size, st, e);
    hide SessionOk;
    ClientLater(file, s, Send(Wrapping, s, e).0, st.client);
    var (t, more) := Send(Wrapping, s, e);
    TravelOn(file, s, t, st.sent, more);
  }

  // While nothing is written the server keeps what it sent.
  lemma UnwrittenIsKept(file: seq<Chunk>, size: nat, st: State)
    requires ShortInv(file, size, st)
    ensures st.client.expected == 0 && st.server.next > 0 ==> |st.server.unacked| >= 1
  {
    if st.client.expected == 0 && st.server.next > 0 {
      assert !Forgotten(st.server, 0);
      assert 0 in st.server.unacked.Keys && |st.server.unacked| == |st.server.unacked.Keys|;
    }
  }

  // A window of 1 lets packet 1 leave only when packet 0 was acknowledged.
  lemma OneAtATime(file: seq<Chunk>, size: nat, st: State, e: Event)
    requires ShortInv(file, size, st) && Sends(e) && MaySend(Wrapping, st.server, e)
    ensures size == 1 && file != [] && st.client.expected == 0 ==> Send(Wrapping, st.server, e).0.next <= 1
  {
    UnwrittenIsKept(file, size, st);
  }

  lemma {:induction false} ShortRun(file: seq<Chunk>, size: nat, st: State, es: seq<Event>)
    requires ShortInv(file, size, st) && Run(Wrapping, size, st, es).Some?
    ensures ShortInv(file, size, Run(Wrapping, size, st, es).value)
    decreases |es|
  {
    hide ShortInv;
    if es != [] {
      match es[0] {
        case DataArrives(at) => ShortArrival(file, size, st, at);
        case AckArrives(at) => ShortAck(file, size, st, at);
        case _ => ShortSend(file, size, st, es[0]);
      }
      ShortRun(file, size, Apply(Wrapping, size, st, es[0]), es[1..]);
    }
  }

  // Main result: with loss, duplication and reordering of any age, every run is
  // sound if and only if the file has at most SafeLength chunks.
  lemma SafeLengthIsExact(file: seq<Chunk>, size: nat)
    requires 0 < size <= MAX_WINDOW && forall i | 0 <= i < |file| :: file[i] != []
    ensures |file| <= SafeLength(size) <==>
              forall es | Run(Wrapping, size, Init(file, size), es).Some? ::
                Sound(file, Run(Wrapping, size, Init(file, size), es).value)
  {
    hide Run, Sound, ShortInv, Leads;
    var init := Init(file, size);
    if |file| <= SafeLength(size) {
      ShortInit(file, size);
      forall es | Run(Wrapping, size, init, es).Some? ensures Sound(file, Run(Wrapping, size, init, es).value) {
        ShortRun(file, size, init, es);
        ShortIsSound(file, size, Run(Wrapping, size, init, es).value);
      }
    } else {
      var es, late, _ := LateAckLosesAChunk(file, size);
      NotSound(file, Run(Wrapping, size, init, es + AfterLateAck(late)).value);
    }
  }

  lemma ShortInit(file: seq<Chunk>, size: nat)
    requires 0 < size <= MAX_WINDOW && |file| <= SafeLength(size) && forall i | 0 <= i < |file| :: file[i] != []
    ensures ShortInv(file, size, Init(file, size))
  {
    assert file[0..] == file;
  }

  lemma NotSound(file: seq<Chunk>, st: State)
    requires file != [] && st.server.finSent && st.client.output == file[..|file| - 1]
    ensures !Sound(file, st)
  {
    assert |st.client.output| != |file|;
  }
}
