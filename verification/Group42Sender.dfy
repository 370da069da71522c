// The system of Reordering with the sender of tools/groupe_42/server.py in the
// place of src/server.py: it counts window_size instead of the packets it keeps,
// and applies acknowledgements with handle_ack.
module Group42Sender {
  import opened SeqNums
  import opened Packets
  import opened ServerSession
  import opened AckLoops
  import opened LogNetwork
  import opened Reordering

  predicate Enabled42(st: State, e: Event) {
    match e
    case ServerFills => WindowSize(st.server.base, st.server.next) < st.server.window && !st.server.eof
    case _ => Enabled(Wrapping, st, e)
  }

  function Apply42(size: nat, st: State, e: Event): State
    requires Enabled42(st, e)
  {
    match e
    case ServerFills =>
      var (server, sent) := Fill(Wrapping, st.server);
      st.(server := server, sent := st.sent + sent)
    case AckArrives(at) =>
      var (base, unacked) := HandleAck(st.acks[at].num, st.server.base, st.server.unacked);
      st.(server := st.server.(window := st.acks[at].window, base := base, unacked := unacked))
    case _ => Apply(Wrapping, size, st, e)
  }

  function Run42(size: nat, st: State, es: seq<Event>): Option<State>
    decreases |es|
  {
    if es == [] then Some(st)
    else if Enabled42(st, es[0]) then Run42(size, Apply42(size, st, es[0]), es[1..])
    else None
  }

  // handle_ack takes an acknowledgement exactly 1024 behind for a new one.
  predicate InTime42(size: nat, st: State, e: Event) {
    InTime(size, st, e)
    && (e.AckArrives? && e.at < |st.acks| ==> st.server.base < st.acks[e.at].num + HALF_TURN)
  }

  // Nothing arrives too late, as far as the events can be followed.
  predicate Punctual42(size: nat, st: State, es: seq<Event>)
    requires size < MODULUS
    decreases |es|
  {
    es != [] && Enabled(Unbounded, st, es[0]) ==>
      InTime42(size, st, es[0]) && Punctual42(size, Apply(Unbounded, size, st, es[0]), es[1..])
  }

  lemma {:induction false} IsPunctual(size: nat, st: State, es: seq<Event>)
    requires size < MODULUS && Punctual42(size, st, es)
    ensures Punctual(size, st, es)
    decreases |es|
  {
    hide Apply;
    if es != [] && Enabled(Unbounded, st, es[0]) {
      IsPunctual(size, Apply(Unbounded, size, st, es[0]), es[1..]);
    }
  }

  // The two senders hold a new packet back in the same states.
  lemma SameCount(file: seq<Chunk>, size: nat, w: State, u: State)
    requires Inv(file, size, u) && StateWraps(w, u) && 0 < size <= MAX_WINDOW
    ensures WindowSize(w.server.base, w.server.next) == |w.server.unacked|
  {
    KeysSize(u.server.unacked, u.server.base, u.server.next);
    MapWrapsSize(w.server.unacked, u.server.unacked, u.server.base);
    WindowSizeIsSpan(u.server.base, u.server.next);
  }

  lemma SameAck(file: seq<Chunk>, size: nat, w: State, u: State, at: nat)
    requires Inv(file, size, u) && StateWraps(w, u) && 0 < size <= MAX_WINDOW
    requires at < |u.acks| && u.server.base < u.acks[at].num + HALF_TURN
    ensures var a := w.acks[at];
            var t := OnAck(Wrapping, w.server, a.num, a.window, {});
            HandleAck(a.num, w.server.base, w.server.unacked) == (t.base, t.unacked)
  {
    hide OnAck, BufferOk;
    AcksBelowNext(file, size, u);
    DistWraps(u.acks[at].num, u.server.base);
    AgreeUnlessOpposite(w.server, w.acks[at].num, w.acks[at].window);
  }

  lemma SameLog(w: State, u: State)
    requires StateWraps(w, u)
    ensures |w.acks| == |u.acks|
  {
  }

  lemma OnAckFields(s: Server, num: nat, window: int)
    ensures var t := OnAck(Wrapping, s, num, window, {});
            t == s.(window := window, base := t.base, unacked := t.unacked)
  {
  }

  // groupe_42's sender may do what src's may, whatever the age of what arrives.
  lemma SameGuard(file: seq<Chunk>, size: nat, w: State, u: State, e: Event)
    requires Inv(file, size, u) && StateWraps(w, u) && 0 < size <= MAX_WINDOW
    ensures Enabled42(w, e) <==> Enabled(Wrapping, w, e)
  {
    SameCount(file, size, w, u);
  }

  lemma SameStep(file: seq<Chunk>, size: nat, w: State, u: State, e: Event)
    requires Inv(file, size, u) && StateWraps(w, u) && 0 < size <= MAX_WINDOW
    requires Enabled42(w, e) && Enabled(Wrapping, w, e) && InTime42(size, u, e)
    ensures Apply42(size, w, e) == Apply(Wrapping, size, w, e)
  {
    hide Inv, StateWraps, HandleAck, OnAck, WindowSize, Fill;
    if e.AckArrives? {
      SameLog(w, u);
      SameAck(file, size, w, u, e.at);
      OnAckFields(w.server, w.acks[e.at].num, w.acks[e.at].window);
    }
  }

  // Both senders can follow the same event sequences, to the same states.
  lemma {:induction false} SameRun(file: seq<Chunk>, size: nat, w: State, u: State, es: seq<Event>)
    requires Inv(file, size, u) && StateWraps(w, u) && 0 < size <= MAX_WINDOW && Punctual42(size, u, es)
    ensures Run42(size, w, es) == Run(Wrapping, size, w, es)
    decreases |es|
  {
    hide Inv, StateWraps, Enabled, Apply, Enabled42, Apply42, InTime;
    if es != [] {
      StepWraps(file, size, w, u, es[0]);
      SameGuard(file, size, w, u, es[0]);
      if Enabled(Unbounded, u, es[0]) {
        SameStep(file, size, w, u, es[0]);
        StepKeeps(file, size, u, es[0]);
        SameRun(file, size, Apply(Wrapping, size, w, es[0]), Apply(Unbounded, size, u, es[0]), es[1..]);
      }
    }
  }

  // Main result: for every sequence of events in which no DATA packet arrives more
  // than 2048 - W behind and no acknowledgement 1024 or more, the system with
  // groupe_42's sender can follow it exactly when the unbounded system of src can;
  // it goes through the very states of src's sender, and the output is a prefix of
  // the file, the whole of it once the end-of-file packet was sent or accepted.
  lemma Group42IsSafe(bytes: seq<byte>, size: nat, es: seq<Event>)
    requires 0 < size <= MAX_WINDOW && Punctual42(size, Init(Chunks(bytes), size), es)
    ensures var t := Run42(size, Init(Chunks(bytes), size), es);
            && (t.Some? <==> Run(Unbounded, size, Init(Chunks(bytes), size), es).Some?)
            && t == Run(Wrapping, size, Init(Chunks(bytes), size), es)
            && (t.Some? ==>
                  && Concat(t.value.client.output) <= bytes
                  && (t.value.server.finSent || t.value.client.done ==> Concat(t.value.client.output) == bytes))
  {
    var file := Chunks(bytes);
    ChunksOfFile(bytes);
    assert forall i | 0 <= i < |file| :: file[i] in file;
    hide Run, Run42, Chunks, Concat, Punctual42, Punctual;
    InitOk(file, size);
    IsPunctual(size, Init(file, size), es);
    SameRun(file, size, Init(file, size), Init(file, size), es);
    PunctualRunsAreSafe(bytes, size, es);
  }
}
