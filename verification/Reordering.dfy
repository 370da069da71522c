// src/server.py sending to groupe_42's receiver over a network that may lose,
// duplicate and reorder packets at will, as long as none arrives too late: a
// DATA packet at most 2048 - W numbers behind what the receiver expects, an
// acknowledgement at most 1024 behind the server's base.
module Reordering {
  import opened SeqNums
  import opened Packets
  import opened ServerSession
  import opened CumulativeClient
  import opened LogNetwork

  type State = LogState<Receiver, Ack>

  function Init(file: seq<Chunk>, window: int): State {
    LogState(NewServer(file, window), NewReceiver(), [], [])
  }

  predicate Enabled(ar: Arith, st: State, e: Event) {
    match e
    case DataArrives(at) => at < |st.sent| && !st.client.done
    case AckArrives(at) => at < |st.acks|
    case _ => MaySend(ar, st.server, e)
  }

  function Apply(ar: Arith, size: nat, st: State, e: Event): State
    requires Enabled(ar, st, e)
  {
    match e
    case DataArrives(at) =>
      var (client, ack) := OnData(ar, size, st.client, st.sent[at]);
      st.(client := client, acks := st.acks + [ack])
    case AckArrives(at) =>
      st.(server := OnAck(ar, st.server, st.acks[at].num, st.acks[at].window, {}))
    case _ => ApplySend(ar, st, e)
  }

  function Run(ar: Arith, size: nat, st: State, es: seq<Event>): Option<State>
    decreases |es|
  {
    if es == [] then Some(st)
    else if Enabled(ar, st, es[0]) then Run(ar, size, Apply(ar, size, st, es[0]), es[1..])
    else None
  }

  // Ages are told by the unbounded numbers.
  predicate InTime(size: nat, st: State, e: Event) {
    match e
    case DataArrives(at) => at < |st.sent| ==> st.client.expected <= st.sent[at].num + (MODULUS - size)
    case AckArrives(at) => at < |st.acks| ==> st.server.base <= st.acks[at].num + HALF_TURN
    case _ => true
  }

  // Nothing arrives too late, as far as the events can be followed. Whether they
  // can be followed is not part of it.
  predicate Punctual(size: nat, st: State, es: seq<Event>)
    requires size < MODULUS
    decreases |es|
  {
    es != [] && Enabled(Unbounded, st, es[0]) ==>
      InTime(size, st, es[0]) && Punctual(size, Apply(Unbounded, size, st, es[0]), es[1..])
  }

  // --- the invariant -------------------------------------------------------------

  ghost predicate ServerOk(file: seq<Chunk>, size: nat, s: Server) {
    && s.base <= s.next <= |file| && s.next <= s.base + size
    && s.unread == file[s.next..]
    && (s.eof ==> s.next == |file|)
    && s.window <= size
    && s.unacked.Keys == Range(s.base, s.next)
    && (forall k | k in s.unacked :: s.unacked[k] == file[k])
    && (s.finSent ==> s.eof && s.base == s.next)
  }

  ghost predicate BufferOk(file: seq<Chunk>, next: nat, size: nat, r: Receiver) {
    && r.expected <= next <= |file| && r.output == file[..r.expected]
    && forall k | k in r.buffer :: r.expected <= k < next && k < r.expected + size && r.buffer[k] == file[k]
  }

  ghost predicate Inv(file: seq<Chunk>, size: nat, st: State) {
    && (forall i | 0 <= i < |file| :: file[i] != [])
    && ServerOk(file, size, st.server)
    && BufferOk(file, st.server.next, size, st.client) && st.client.expected !in st.client.buffer
    && st.server.base <= st.client.expected
    && (st.client.done ==> st.client.expected == |file|)
    && AllTravel(file, st.server, st.sent)
    && (forall i | 0 <= i < |st.acks| :: st.acks[i].num <= st.client.expected && st.acks[i].window <= size)
  }

  lemma WriteOneOk(file: seq<Chunk>, next: nat, size: nat, r: Receiver)
    requires BufferOk(file, next, size, r) && r.expected in r.buffer
    ensures BufferOk(file, next, size, WriteOne(Unbounded, r))
  {
    assert file[..r.expected + 1] == file[..r.expected] + [file[r.expected]];
  }

  lemma {:induction false} FlushKeeps(file: seq<Chunk>, next: nat, size: nat, r: Receiver)
    requires BufferOk(file, next, size, r)
    ensures var f := Flush(Unbounded, r);
            BufferOk(file, next, size, f) && f.expected >= r.expected && f.expected !in f.buffer && f.done == r.done
    decreases |r.buffer|
  {
    if r.expected in r.buffer {
      WriteOneOk(file, next, size, r);
      FlushOnce(Unbounded, r);
      hide Flush, BufferOk;
      FlushKeeps(file, next, size, WriteOne(Unbounded, r));
    }
  }

  lemma TakeKeeps(file: seq<Chunk>, next: nat, size: nat, r: Receiver, d: Data)
    requires BufferOk(file, next, size, r) && r.expected !in r.buffer
    requires d.num < next && d.payload == file[d.num]
    ensures var t := Take(Unbounded, size, r, d);
            && BufferOk(file, next, size, t) && t.expected >= r.expected && t.expected !in t.buffer && t.done == r.done
            && (d.num == r.expected && size > 0 ==> t.expected > r.expected)
  {
    if d.num == r.expected && InWindow(Unbounded, d.num, r.expected, size) {
      assert file[..r.expected + 1] == file[..r.expected] + [file[r.expected]];
      FlushKeeps(file, next, size, r.(output := r.output + [d.payload], expected := r.expected + 1));
    }
  }

  lemma KeysSize(m: map<nat, Chunk>, lo: nat, hi: nat)
    requires m.Keys == Range(lo, hi) && lo <= hi
    ensures |m| == hi - lo
  {
    assert |m| == |m.Keys|;
  }

  lemma FillKeeps(file: seq<Chunk>, size: nat, s: Server)
    requires ServerOk(file, size, s) && MayRead(s)
    ensures ServerOk(file, size, Fill(Unbounded, s).0)
  {
    hide Range;
    KeysSize(s.unacked, s.base, s.next);
    if s.unread != [] {
      var s1 := Fill(Unbounded, s).0;
      assert s.next < |file| && s1.unread == file[s.next + 1..];
      GrowKeys(s.unacked, s.base, s.next, s.unread[0]);
    }
  }

  lemma GrowKeys(m: map<nat, Chunk>, lo: nat, hi: nat, v: Chunk)
    requires m.Keys == Range(lo, hi) && lo <= hi
    ensures m[hi := v].Keys == Range(lo, hi + 1)
  {
    assert m[hi := v].Keys == m.Keys + {hi};
  }

  lemma SendKeepsServer(file: seq<Chunk>, size: nat, s: Server, e: Event)
    requires ServerOk(file, size, s) && Sends(e) && MaySend(Unbounded, s, e)
    ensures ServerOk(file, size, Send(Unbounded, s, e).0)
  {
    hide Range;
    if e.ServerFills? {
      FillKeeps(file, size, s);
    } else if e.ServerEnds? && !s.finSent {
      KeysSize(s.unacked, s.base, s.next);
    }
  }

  lemma BufferGrows(file: seq<Chunk>, next: nat, later: nat, size: nat, r: Receiver)
    requires BufferOk(file, next, size, r) && next <= later <= |file|
    ensures BufferOk(file, later, size, r)
  {
  }

  lemma SendIsGenuine(file: seq<Chunk>, size: nat, s: Server, e: Event)
    requires ServerOk(file, size, s) && Sends(e) && MaySend(Unbounded, s, e)
    requires forall i | 0 <= i < |file| :: file[i] != []
    ensures var (t, sent) := Send(Unbounded, s, e);
            && AllTravel(file, t, sent) && ServerOk(file, size, t)
            && t.base == s.base && s.next <= t.next <= |file| && (s.finSent ==> t.finSent)
  {
    hide Send, AllTravel;
    assert forall k | k in s.unacked :: k in s.unacked.Keys;
    SendTravels(Unbounded, file, s, e);
    SendKeepsServer(file, size, s, e);
  }

  lemma SendKeeps(file: seq<Chunk>, size: nat, st: State, e: Event)
    requires Inv(file, size, st) && Sends(e) && MaySend(Unbounded, st.server, e)
    ensures Inv(file, size, ApplySend(Unbounded, st, e))
  {
    hide Send, AllTravel, MaySend, BufferOk, ServerOk;
    SendIsGenuine(file, size, st.server, e);
    var (t, more) := Send(Unbounded, st.server, e);
    TravelOn(file, st.server, t, st.sent, more);
    BufferGrows(file, st.server.next, t.next, size, st.client);
  }

  lemma OnDataKeeps(file: seq<Chunk>, size: nat, s: Server, r: Receiver, d: Data)
    requires BufferOk(file, s.next, size, r) && r.expected !in r.buffer && !r.done && Travels(file, s, d)
    ensures var (t, ack) := OnData(Unbounded, size, r, d);
            && BufferOk(file, s.next, size, t) && t.expected !in t.buffer && t.expected >= r.expected
            && (t.done ==> t.expected == |file|) && ack == Answer(size, t) && ack.window <= size
            && (d.num == r.expected && size > 0 ==> t.done || t.expected > r.expected)
  {
    hide Take, BufferOk;
    if d.payload != [] {
      TakeKeeps(file, s.next, size, r, d);
    } else {
      EndKeeps(file, s.next, size, r);
    }
  }

  lemma EndKeeps(file: seq<Chunk>, next: nat, size: nat, r: Receiver)
    requires BufferOk(file, next, size, r)
    ensures BufferOk(file, next, size, r.(done := true))
  {
  }

  lemma DataArrivesKeeps(file: seq<Chunk>, size: nat, st: State, at: nat)
    requires Inv(file, size, st) && Enabled(Unbounded, st, DataArrives(at)) && size <= MAX_WINDOW
    ensures Inv(file, size, Apply(Unbounded, size, st, DataArrives(at)))
  {
    hide OnData, BufferOk, ServerOk, Travels;
    OnDataKeeps(file, size, st.server, st.client, st.sent[at]);
  }

  lemma AckSplitsRange(lo: nat, num: nat, hi: nat)
    requires lo <= num <= hi
    ensures Range(lo, hi) - Passed(Unbounded, lo, num - lo) == Range(num, hi)
  {
    var passed := Passed(Unbounded, lo, num - lo);
    forall k | lo <= k < num ensures k in passed {
      assert k == Add(Unbounded, lo, k - lo);
    }
  }

  // What an acknowledgement does to the server: nothing but the window if it is
  // behind base, otherwise everything below it is forgotten.
  lemma OnAckEffect(s: Server, num: nat, window: int)
    requires s.base <= num ==> num - s.base < HALF_TURN
    ensures OnAck(Unbounded, s, num, window, {})
         == if s.base <= num
            then s.(window := window, base := num, unacked := s.unacked - Passed(Unbounded, s.base, num - s.base))
            else s.(window := window)
  {
    hide Passed;
    assert s.unacked - {} == s.unacked;
    if s.base <= num {
      var kept := s.unacked - Passed(Unbounded, s.base, num - s.base);
      assert kept - {} == kept;
    }
  }

  lemma KeysLeft(m: map<nat, Chunk>, gone: set<nat>)
    ensures (m - gone).Keys == m.Keys - gone
    ensures forall k | k in m - gone :: (m - gone)[k] == m[k] && k in m
  {
  }

  lemma FreshAckKeeps(file: seq<Chunk>, size: nat, s: Server, num: nat, window: int)
    requires ServerOk(file, size, s) && s.base <= num <= s.next && window <= size
    ensures ServerOk(file, size, s.(window := window, base := num,
                                    unacked := s.unacked - Passed(Unbounded, s.base, num - s.base)))
  {
    hide Passed, Range;
    AckSplitsRange(s.base, num, s.next);
    KeysLeft(s.unacked, Passed(Unbounded, s.base, num - s.base));
  }

  lemma OnAckKeeps(file: seq<Chunk>, size: nat, s: Server, num: nat, window: int)
    requires ServerOk(file, size, s) && num <= s.next && window <= size <= MAX_WINDOW
    ensures var s1 := OnAck(Unbounded, s, num, window, {});
            ServerOk(file, size, s1) && s1.base == (if num > s.base then num else s.base) && s1.next == s.next
            && s1.finSent == s.finSent
  {
    hide Passed, Range, OnAck;
    OnAckEffect(s, num, window);
    if s.base <= num {
      FreshAckKeeps(file, size, s, num, window);
      hide ServerOk;
    }
  }

  lemma AcksBelowNext(file: seq<Chunk>, size: nat, st: State)
    requires Inv(file, size, st)
    ensures st.server.base <= st.client.expected <= st.server.next
    ensures forall i | 0 <= i < |st.acks| :: st.acks[i].num <= st.server.next
  {
  }

  lemma AckArrivesKeeps(file: seq<Chunk>, size: nat, st: State, at: nat)
    requires Inv(file, size, st) && Enabled(Unbounded, st, AckArrives(at)) && size <= MAX_WINDOW
    ensures Inv(file, size, Apply(Unbounded, size, st, AckArrives(at)))
  {
    hide OnAck, ServerOk, BufferOk;
    var st1 := Apply(Unbounded, size, st, AckArrives(at));
    AcksBelowNext(file, size, st);
    OnAckKeeps(file, size, st.server, st.acks[at].num, st.acks[at].window);
    TravelOn(file, st.server, st1.server, st.sent, []);
    assert st.sent + [] == st.sent;
  }

  lemma StepKeeps(file: seq<Chunk>, size: nat, st: State, e: Event)
    requires Inv(file, size, st) && Enabled(Unbounded, st, e) && size <= MAX_WINDOW
    ensures Inv(file, size, Apply(Unbounded, size, st, e))
  {
    match e
    case DataArrives(at) => DataArrivesKeeps(file, size, st, at);
    case AckArrives(at) => AckArrivesKeeps(file, size, st, at);
    case _ => SendKeeps(file, size, st, e);
  }

  // --- wrapping -------------------------------------------------------------------

  ghost predicate ReceiverWraps(w: Receiver, u: Receiver) {
    && w.expected == u.expected % MODULUS && MapWraps(w.buffer, u.buffer)
    && w.output == u.output && w.done == u.done
  }

  ghost predicate StateWraps(w: State, u: State) {
    && ServerWraps(w.server, u.server) && ReceiverWraps(w.client, u.client)
    && w.sent == WrapDatas(u.sent)
    && w.acks == WrapAcks(u.acks)
  }

  // A key near the buffer is in it in one reading iff it is in the other.
  lemma MemberWraps(w: map<nat, Chunk>, u: map<nat, Chunk>, k: nat, base: nat)
    requires MapWraps(w, u) && base <= k < base + MODULUS
    requires forall j | j in u :: base <= j < base + MODULUS
    ensures k % MODULUS in w <==> k in u
    ensures k in u ==> w[k % MODULUS] == u[k]
  {
    if k % MODULUS in w {
      var j :| j in u && j % MODULUS == k % MODULUS;
      SameResidue(j, k);
    }
  }

  lemma WriteOneWraps(file: seq<Chunk>, next: nat, size: nat, w: Receiver, u: Receiver)
    requires ReceiverWraps(w, u) && BufferOk(file, next, size, u) && size <= MAX_WINDOW
    ensures w.expected in w.buffer <==> u.expected in u.buffer
    ensures u.expected in u.buffer ==>
              ReceiverWraps(WriteOne(Wrapping, w), WriteOne(Unbounded, u))
              && BufferOk(file, next, size, WriteOne(Unbounded, u))
  {
    MemberWraps(w.buffer, u.buffer, u.expected, u.expected);
    if u.expected in u.buffer {
      AddWraps(u.expected, 1);
      assert WrapSet({u.expected}) == {w.expected};
      RemoveWraps(w.buffer, u.buffer, {u.expected}, u.expected);
      WriteOneOk(file, next, size, u);
      hide MapWraps, BufferOk;
    }
  }

  lemma {:induction false} FlushWraps(file: seq<Chunk>, next: nat, size: nat, w: Receiver, u: Receiver)
    requires ReceiverWraps(w, u) && BufferOk(file, next, size, u) && size <= MAX_WINDOW
    ensures ReceiverWraps(Flush(Wrapping, w), Flush(Unbounded, u))
    decreases |u.buffer|
  {
    WriteOneWraps(file, next, size, w, u);
    if u.expected in u.buffer {
      FlushOnce(Unbounded, u);
      FlushOnce(Wrapping, w);
      hide Flush, ReceiverWraps, BufferOk, WriteOne;
      FlushWraps(file, next, size, WriteOne(Wrapping, w), WriteOne(Unbounded, u));
    }
  }

  lemma InsertWraps(w: map<nat, Chunk>, u: map<nat, Chunk>, k: nat, v: Chunk, base: nat)
    requires MapWraps(w, u) && base <= k < base + MODULUS
    requires forall j | j in u :: base <= j < base + MODULUS
    ensures MapWraps(w[k % MODULUS := v], u[k := v])
  {
    var w1 := w[k % MODULUS := v];
    var u1 := u[k := v];
    forall j | j in u1 ensures j % MODULUS in w1 && w1[j % MODULUS] == u1[j] {
      SameResidue(j, k);
    }
    forall q | q in w1 ensures exists j :: j in u1 && j % MODULUS == q {
      if q == k % MODULUS {
        assert k in u1;
      } else {
        var j :| j in u && j % MODULUS == q;
        assert j in u1;
      }
    }
  }

  // The window test in both readings: a packet not too old is judged alike.
  lemma WindowTestWraps(num: nat, expected: nat, size: nat)
    requires num < expected + size && 0 < size <= MAX_WINDOW
    requires expected <= num + (MODULUS - size)
    ensures InWindow(Wrapping, num % MODULUS, expected % MODULUS, size) <==> InWindow(Unbounded, num, expected, size)
    ensures num % MODULUS == expected % MODULUS <==> num == expected
  {
    DistWraps(num, expected);
    SameResidue(num, expected);
  }

  // The expected packet is written, and what follows it, alike.
  lemma NextWraps(file: seq<Chunk>, next: nat, size: nat, w: Receiver, u: Receiver, chunk: Chunk)
    requires ReceiverWraps(w, u) && BufferOk(file, next, size, u) && u.expected !in u.buffer && size <= MAX_WINDOW
    requires u.expected < next && chunk == file[u.expected]
    ensures ReceiverWraps(Flush(Wrapping, w.(output := w.output + [chunk], expected := Add(Wrapping, w.expected, 1))),
                          Flush(Unbounded, u.(output := u.output + [chunk], expected := u.expected + 1)))
  {
    hide Flush, MapWraps;
    AddWraps(u.expected, 1);
    assert file[..u.expected + 1] == file[..u.expected] + [file[u.expected]];
    var u1 := u.(output := u.output + [chunk], expected := u.expected + 1);
    FlushWraps(file, next, size, w.(output := w.output + [chunk], expected := Add(Wrapping, w.expected, 1)), u1);
  }

  // A packet ahead of the expected one is buffered alike.
  lemma BufferWraps(size: nat, w: Receiver, u: Receiver, d: Data)
    requires ReceiverWraps(w, u) && u.expected <= d.num < u.expected + size <= u.expected + MAX_WINDOW
    requires forall k | k in u.buffer :: u.expected <= k < u.expected + size
    ensures (d.num % MODULUS !in w.buffer && |w.buffer| < size) == (d.num !in u.buffer && |u.buffer| < size)
    ensures ReceiverWraps(w.(buffer := w.buffer[d.num % MODULUS := d.payload]),
                          u.(buffer := u.buffer[d.num := d.payload]))
  {
    hide MapWraps;
    MemberWraps(w.buffer, u.buffer, d.num, u.expected);
    MapWrapsSize(w.buffer, u.buffer, u.expected);
    InsertWraps(w.buffer, u.buffer, d.num, d.payload, u.expected);
  }

  lemma TakeWraps(file: seq<Chunk>, next: nat, size: nat, w: Receiver, u: Receiver, d: Data)
    requires ReceiverWraps(w, u) && BufferOk(file, next, size, u) && u.expected !in u.buffer && 0 < size <= MAX_WINDOW
    requires d.num < next <= u.expected + size && d.payload == file[d.num]
    requires u.expected <= d.num + (MODULUS - size)
    ensures ReceiverWraps(Take(Wrapping, size, w, WrapData(d)), Take(Unbounded, size, u, d))
  {
    WindowTestWraps(d.num, u.expected, size);
    hide Flush, MapWraps;
    if d.num == u.expected {
      NextWraps(file, next, size, w, u, d.payload);
    } else if InWindow(Unbounded, d.num, u.expected, size) {
      BufferWraps(size, w, u, d);
    }
  }

  lemma AnswerWraps(size: nat, w: Receiver, u: Receiver, base: nat)
    requires ReceiverWraps(w, u) && forall k | k in u.buffer :: base <= k < base + MODULUS
    ensures Answer(size, w) == WrapAck(Answer(size, u))
  {
    MapWrapsSize(w.buffer, u.buffer, base);
    assert WrapSet({}) == {};
  }

  lemma OnDataWraps(file: seq<Chunk>, size: nat, w: Receiver, u: Receiver, s: Server, d: Data)
    requires ReceiverWraps(w, u) && BufferOk(file, s.next, size, u) && u.expected !in u.buffer && 0 < size <= MAX_WINDOW
    requires ServerOk(file, size, s) && s.base <= u.expected && Travels(file, s, d)
    requires u.expected <= d.num + (MODULUS - size)
    ensures var (wr, wAck) := OnData(Wrapping, size, w, WrapData(d));
            var (ur, uAck) := OnData(Unbounded, size, u, d);
            ReceiverWraps(wr, ur) && wAck == WrapAck(uAck)
  {
    if d.payload != [] {
      TakeWraps(file, s.next, size, w, u, d);
      TakeKeeps(file, s.next, size, u, d);
      hide Take;
      var t := Take(Unbounded, size, u, d);
      AnswerWraps(size, Take(Wrapping, size, w, WrapData(d)), t, t.expected);
    } else {
      AnswerWraps(size, w, u, u.expected);
    }
  }

  lemma DataArrivesWraps(file: seq<Chunk>, size: nat, w: State, u: State, at: nat)
    requires Inv(file, size, u) && StateWraps(w, u) && 0 < size <= MAX_WINDOW
    requires Enabled(Unbounded, u, DataArrives(at)) && InTime(size, u, DataArrives(at))
    ensures Enabled(Wrapping, w, DataArrives(at))
    ensures StateWraps(Apply(Wrapping, size, w, DataArrives(at)), Apply(Unbounded, size, u, DataArrives(at)))
  {
    hide OnData, ServerOk, BufferOk, Travels;
    OnDataWraps(file, size, w.client, u.client, u.server, u.sent[at]);
    var uAck := OnData(Unbounded, size, u.client, u.sent[at]).1;
    assert WrapAcks(u.acks + [uAck]) == WrapAcks(u.acks) + [WrapAck(uAck)];
  }

  lemma AckArrivesWraps(file: seq<Chunk>, size: nat, w: State, u: State, at: nat)
    requires Inv(file, size, u) && StateWraps(w, u) && 0 < size <= MAX_WINDOW
    requires Enabled(Unbounded, u, AckArrives(at)) && InTime(size, u, AckArrives(at))
    ensures StateWraps(Apply(Wrapping, size, w, AckArrives(at)), Apply(Unbounded, size, u, AckArrives(at)))
  {
    hide OnAck, ServerWraps, BufferOk, ReceiverWraps, MapWraps, AllTravel;
    var a := u.acks[at];
    AcksBelowNext(file, size, u);
    SpanIsNarrow(file, size, u.server);
    hide ServerOk;
    if u.server.base <= a.num {
      assert WrapSet({}) == {};
      OnAckWraps(w.server, u.server, a.num, a.window, {});
    } else {
      assert WrapSet({}) == {};
      LateAckWraps(w.server, u.server, a.num, a.window, {});
    }
  }

  lemma SpanIsNarrow(file: seq<Chunk>, size: nat, s: Server)
    requires ServerOk(file, size, s) && size <= MAX_WINDOW
    ensures Narrow(s)
  {
    assert forall k | k in s.unacked :: k in s.unacked.Keys;
  }

  lemma SendStepWraps(file: seq<Chunk>, size: nat, w: State, u: State, e: Event)
    requires Inv(file, size, u) && StateWraps(w, u) && 0 < size <= MAX_WINDOW && Sends(e)
    ensures MaySend(Wrapping, w.server, e) <==> MaySend(Unbounded, u.server, e)
    ensures MaySend(Unbounded, u.server, e) ==> StateWraps(ApplySend(Wrapping, w, e), ApplySend(Unbounded, u, e))
  {
    SpanIsNarrow(file, size, u.server);
    hide BufferOk, AllTravel, ReceiverWraps, Send, ServerWraps, ServerOk, MaySend;
    MaySendWraps(w.server, u.server, e);
    if MaySend(Unbounded, u.server, e) {
      SendWraps(w.server, u.server, e);
      SentWraps(u.sent, Send(Unbounded, u.server, e).1);
    }
  }

  // One event is possible in both readings or in neither.
  lemma EnabledWraps(file: seq<Chunk>, size: nat, w: State, u: State, e: Event)
    requires Inv(file, size, u) && StateWraps(w, u) && 0 < size <= MAX_WINDOW
    ensures Enabled(Wrapping, w, e) <==> Enabled(Unbounded, u, e)
  {
    hide Inv, ServerWraps, MaySend;
    if Sends(e) {
      SendStepWraps(file, size, w, u, e);
    }
  }

  lemma StepWraps(file: seq<Chunk>, size: nat, w: State, u: State, e: Event)
    requires Inv(file, size, u) && StateWraps(w, u) && 0 < size <= MAX_WINDOW
    ensures Enabled(Wrapping, w, e) <==> Enabled(Unbounded, u, e)
    ensures Enabled(Unbounded, u, e) && InTime(size, u, e) ==>
              StateWraps(Apply(Wrapping, size, w, e), Apply(Unbounded, size, u, e))
  {
    hide Inv, StateWraps, OnData, OnAck, MaySend, Send;
    EnabledWraps(file, size, w, u, e);
    if Enabled(Unbounded, u, e) && InTime(size, u, e) {
      match e
      case DataArrives(at) => DataArrivesWraps(file, size, w, u, at);
      case AckArrives(at) => AckArrivesWraps(file, size, w, u, at);
      case _ => SendStepWraps(file, size, w, u, e);
    }
  }

  // With nothing late, the wrapping system follows exactly the event sequences the
  // unbounded one follows.
  lemma {:induction false} RunWraps(file: seq<Chunk>, size: nat, w: State, u: State, es: seq<Event>)
    requires Inv(file, size, u) && StateWraps(w, u) && 0 < size <= MAX_WINDOW && Punctual(size, u, es)
    ensures Run(Wrapping, size, w, es).Some? <==> Run(Unbounded, size, u, es).Some?
    ensures Run(Unbounded, size, u, es).Some? ==>
              && StateWraps(Run(Wrapping, size, w, es).value, Run(Unbounded, size, u, es).value)
              && Inv(file, size, Run(Unbounded, size, u, es).value)
    decreases |es|
  {
    hide Inv, StateWraps, Enabled, Apply, InTime;
    if es != [] {
      StepWraps(file, size, w, u, es[0]);
      if Enabled(Unbounded, u, es[0]) {
        StepKeeps(file, size, u, es[0]);
        RunWraps(file, size, Apply(Wrapping, size, w, es[0]), Apply(Unbounded, size, u, es[0]), es[1..]);
      }
    }
  }

  // What the invariant says of a state.
  lemma InvIsSafe(file: seq<Chunk>, size: nat, u: State)
    requires Inv(file, size, u)
    ensures u.server.unacked.Keys == Range(u.server.base, u.server.next) && u.server.next - u.server.base <= size
    ensures u.client.output <= file && (u.server.finSent || u.client.done ==> u.client.output == file)
  {
    hide Range;
    assert file[..|file|] == file;
  }

  // Main result: for every file and every sequence of events in which nothing
  // arrives too late, the wrapping system can follow it exactly when the unbounded
  // one can, number for number; then the packets kept are exactly [base, next), at
  // most W of them, and the output is a prefix of the file, the whole of it once
  // the end-of-file packet was sent or accepted.
  lemma PunctualRunsAreSafe(bytes: seq<byte>, size: nat, es: seq<Event>)
    requires 0 < size <= MAX_WINDOW && Punctual(size, Init(Chunks(bytes), size), es)
    ensures var w := Run(Wrapping, size, Init(Chunks(bytes), size), es);
            var u := Run(Unbounded, size, Init(Chunks(bytes), size), es);
            && (w.Some? <==> u.Some?)
            && (w.Some? ==>
                  && StateWraps(w.value, u.value)
                  && u.value.server.unacked.Keys == Range(u.value.server.base, u.value.server.next)
                  && u.value.server.next - u.value.server.base <= size
                  && Concat(w.value.client.output) <= bytes
                  && (w.value.server.finSent || w.value.client.done ==> Concat(w.value.client.output) == bytes))
  {
    hide Inv, Run, Punctual, Chunks, Concat, Range, ServerOk;
    var file := Chunks(bytes);
    var init := Init(file, size);
    ChunksOfFile(bytes);
    assert forall i | 0 <= i < |file| :: file[i] in file;
    InitOk(file, size);
    RunWraps(file, size, init, init, es);
    if Run(Unbounded, size, init, es).Some? {
      var u := Run(Unbounded, size, init, es).value;
      InvIsSafe(file, size, u);
      ConcatPrefix(u.client.output, file);
    }
  }

  lemma InitOk(file: seq<Chunk>, size: nat)
    requires 0 < size <= MAX_WINDOW && forall i | 0 <= i < |file| :: file[i] != []
    ensures Inv(file, size, Init(file, size)) && StateWraps(Init(file, size), Init(file, size))
  {
    assert file[0..] == file;
    assert Init(file, size).server.unacked.Keys == Range(0, 0);
  }
}
