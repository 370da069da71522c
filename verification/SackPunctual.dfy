// The system of SackReordering with files of any length, as long as nothing
// arrives too late: a DATA packet at most 1985 numbers behind what the client
// expects, an acknowledgement at most 1024 behind the server's base.
module SackPunctual {
  import opened SeqNums
  import opened Packets
  import opened ServerSession
  import opened SackClient
  import opened LogNetwork
  import opened SackReordering

  // The farthest that the next new number runs ahead of base.
  const MAX_SPAN: nat := 2 * MAX_WINDOW - 1

  // Ages are told by the unbounded numbers.
  predicate InTime(st: State, e: SackReordering.Event) {
    match e
    case Net(DataArrives(at)) => at < |st.sent| ==> st.client.expected <= st.sent[at].num + (MODULUS - WINDOW_LEN)
    case Net(AckArrives(at)) => at < |st.acks| ==> st.server.base <= st.acks[at].num + HALF_TURN
    case _ => true
  }

  // Nothing arrives too late, as far as the events can be followed. Whether they
  // can be followed is not part of it.
  predicate Punctual(st: State, es: seq<SackReordering.Event>)
    decreases |es|
  {
    es != [] && Enabled(Unbounded, st, es[0]) ==>
      InTime(st, es[0]) && Punctual(Apply(Unbounded, st, es[0]), es[1..])
  }

  // --- how far the server runs ahead ------------------------------------------------------

  ghost predicate AckFits(s: Server, a: Ack) {
    && 1 <= a.window <= MAX_WINDOW && AckOk(a)
    && (forall k | k in a.sacks :: a.num < k < s.next && k < a.num + WINDOW_LEN)
  }

  // What the client says, in the order it says it: the first acknowledgement is the
  // one it starts with.
  function Said(acks: seq<Ack>): seq<Ack> {
    [NewClient().lastAck] + acks
  }

  // Each acknowledgement tells at least what those before it tell.
  ghost predicate Chain(said: seq<Ack>) {
    forall i, j | 0 <= i <= j < |said| :: Older(said[i], said[j])
  }

  // base comes from a, and a tells all the server was ever told.
  ghost predicate Newest(s: Server, a: Ack) {
    a.num == s.base && forall k: nat | Forgotten(s, k) :: Told(a, k)
  }

  ghost predicate Heard(s: Server, said: seq<Ack>) {
    exists i | 0 <= i < |said| :: Newest(s, said[i])
  }

  ghost predicate Bounded(s: Server) {
    && s.window <= MAX_WINDOW && |s.unacked| <= MAX_WINDOW
    && s.next <= s.base + MAX_SPAN
  }

  ghost predicate AcksFit(s: Server, said: seq<Ack>) {
    forall i | 0 <= i < |said| :: AckFits(s, said[i])
  }

  ghost predicate Spread(s: Server, acks: seq<Ack>, last: Ack) {
    && Bounded(s) && AckFits(s, last)
    && AcksFit(s, Said(acks)) && Chain(Said(acks)) && Heard(s, Said(acks))
  }

  ghost predicate InvSpread(file: seq<Chunk>, st: State) {
    Inv(file, st) && Spread(st.server, st.acks, st.client.lastAck)
  }

  lemma InitSpread(file: seq<Chunk>, window: int)
    requires NoEmptyChunk(file) && window <= MAX_WINDOW
    ensures InvSpread(file, Init(file, window))
  {
    InitOk(file, window);
    var s := Init(file, window).server;
    assert Newest(s, Said([])[0]);
  }

  // While memory has room, the numbers sent fit in two windows: those kept and
  // those the newest acknowledgement names above base.
  lemma RoomMeansNear(file: seq<Chunk>, s: Server, a: Ack)
    requires SessionOk(file, s) && Newest(s, a) && AckFits(s, a) && |s.unacked| < MAX_WINDOW
    ensures s.next < s.base + MAX_SPAN
  {
    var span, told := Range(s.base, s.next), Range(s.base + 1, s.base + WINDOW_LEN);
    forall k | k in span ensures k in s.unacked.Keys + told {
      assert k !in s.unacked ==> Forgotten(s, k);
    }
    hide SessionOk, Newest, AckFits;
    SubsetSize(span, s.unacked.Keys + told);
    UnionSize(s.unacked.Keys, told);
    assert |s.unacked| == |s.unacked.Keys|;
  }

  lemma SendKeepsHeard(s: Server, t: Server, said: seq<Ack>)
    requires Heard(s, said) && t.base == s.base && forall k: nat :: Forgotten(t, k) ==> Forgotten(s, k)
    ensures Heard(t, said)
  {
    hide Forgotten, Told;
    var i :| 0 <= i < |said| && Newest(s, said[i]);
    assert Newest(t, said[i]);
  }

  lemma SendKeepsFit(s: Server, t: Server, said: seq<Ack>, last: Ack)
    requires AcksFit(s, said) && AckFits(s, last) && s.next <= t.next
    ensures AcksFit(t, said) && AckFits(t, last)
  {
    hide AckOk;
    forall i | 0 <= i < |said| ensures AckFits(t, said[i]) {
      assert AckFits(s, said[i]);
    }
  }

  lemma SendKeepsBounded(file: seq<Chunk>, s: Server, said: seq<Ack>, e: LogNetwork.Event)
    requires SessionOk(file, s) && Bounded(s) && AcksFit(s, said) && Heard(s, said)
    requires Sends(e) && MaySend(Unbounded, s, e)
    ensures Bounded(Send(Unbounded, s, e).0) && s.next <= Send(Unbounded, s, e).0.next
  {
    hide SessionOk, AckFits;
    SendKeepsRoom(Unbounded, s, e);
    if MayRead(s) {
      var i :| 0 <= i < |said| && Newest(s, said[i]);
      assert AckFits(s, said[i]);
      hide Newest;
      RoomMeansNear(file, s, said[i]);
    }
  }

  lemma SendKeepsSpread(file: seq<Chunk>, st: State, e: LogNetwork.Event)
    requires InvSpread(file, st) && Sends(e) && MaySend(Unbounded, st.server, e)
    ensures InvSpread(file, ApplySend(Unbounded, st, e))
  {
    SendKeeps(Unbounded, file, st, e);
    SendKeepsSession(Unbounded, file, st.server, e);
    hide Inv, SessionOk, Send, MaySend, Chain, AcksFit, Heard, Bounded, AckFits;
    var s, t := st.server, Send(Unbounded, st.server, e).0;
    SessionFacts(file, st);
    SendKeepsBounded(file, s, Said(st.acks), e);
    SendKeepsHeard(s, t, Said(st.acks));
    SendKeepsFit(s, t, Said(st.acks), st.client.lastAck);
  }

  lemma SessionFacts(file: seq<Chunk>, st: State)
    requires Inv(file, st)
    ensures SessionOk(file, st.server) && AckOk(st.client.lastAck)
  {
  }

  // --- the server hears -----------------------------------------------------------------

  // The base is the largest number ever acknowledged.
  lemma BaseAfterAck(s: Server, num: nat, window: int, shown: set<nat>)
    requires s.base <= num ==> num - s.base < HALF_TURN
    ensures var t := OnAck(Unbounded, s, num, window, shown);
            && t.base == (if num > s.base then num else s.base)
            && t.next == s.next && t.window == window && t.finSent == s.finSent
            && t.unacked.Keys <= s.unacked.Keys
  {
    hide Passed;
  }

  lemma HearKeepsBounded(s: Server, num: nat, window: int, shown: set<nat>)
    requires Bounded(s) && window <= MAX_WINDOW && num <= s.next
    ensures Bounded(OnAck(Unbounded, s, num, window, shown))
  {
    hide OnAck;
    BaseAfterAck(s, num, window, shown);
    var t := OnAck(Unbounded, s, num, window, shown);
    SubsetSize(t.unacked.Keys, s.unacked.Keys);
    assert |t.unacked| == |t.unacked.Keys| && |s.unacked| == |s.unacked.Keys|;
  }

  // Whichever of the two is newer tells all.
  lemma NewestOfTwo(s: Server, t: Server, h: Ack, a: Ack)
    requires Newest(s, h) && AckOk(h) && AckOk(a) && (Older(h, a) || Older(a, h))
    requires t.base == (if a.num > s.base then a.num else s.base)
    requires forall k: nat | Forgotten(t, k) :: Forgotten(s, k) || Told(a, k)
    ensures Newest(t, if Older(h, a) then a else h)
  {
    hide Forgotten, Told;
    if Older(h, a) {
      OlderIsLower(h, a);
    } else {
      OlderIsLower(a, h);
    }
    hide AckOk;
  }

  lemma HearKeepsHeard(s: Server, t: Server, said: seq<Ack>, at: nat)
    requires Heard(s, said) && Chain(said) && AcksFit(s, said) && at < |said|
    requires t.base == (if said[at].num > s.base then said[at].num else s.base)
    requires forall k: nat | Forgotten(t, k) :: Forgotten(s, k) || Told(said[at], k)
    ensures Heard(t, said)
  {
    hide Forgotten, Told, Older;
    var i :| 0 <= i < |said| && Newest(s, said[i]);
    hide Newest;
    assert AckFits(s, said[i]) && AckFits(s, said[at]);
    assert i <= at ==> Older(said[i], said[at]);
    assert at <= i ==> Older(said[at], said[i]);
    NewestOfTwo(s, t, said[i], said[at]);
  }

  lemma HearForgets(file: seq<Chunk>, s: Server, a: Ack)
    requires SessionOk(file, s) && a.num <= s.next
    ensures var t := OnAck(Unbounded, s, a.num, a.window, Shown(a.sacks));
            forall k: nat | Forgotten(t, k) :: Forgotten(s, k) || Told(a, k)
  {
    hide OnAck, SessionOk;
    OnAckKeepsSession(Unbounded, file, s, a.num, a.window, Shown(a.sacks));
  }

  lemma AckSaid(s: Server, acks: seq<Ack>, at: nat)
    requires AcksFit(s, Said(acks)) && at < |acks|
    ensures AckFits(s, acks[at]) && Said(acks)[at + 1] == acks[at]
  {
    hide AckFits;
    assert Said(acks)[at + 1] == acks[at];
  }

  lemma AckKeepsSpread(file: seq<Chunk>, st: State, at: nat)
    requires InvSpread(file, st) && at < |st.acks|
    ensures InvSpread(file, Apply(Unbounded, st, Net(AckArrives(at))))
  {
    hide OnAck, SessionOk, ClientTold;
    var s, a := st.server, st.acks[at];
    AckKeeps(Unbounded, file, st, at);
    SessionFacts(file, st);
    AcksBelowNext(file, st, at);
    hide Inv;
    AckSaid(s, st.acks, at);
    hide Chain, AcksFit, Heard;
    HearForgets(file, s, a);
    HearKeepsBounded(s, a.num, a.window, Shown(a.sacks));
    BaseAfterAck(s, a.num, a.window, Shown(a.sacks));
    var t := OnAck(Unbounded, s, a.num, a.window, Shown(a.sacks));
    assert Apply(Unbounded, st, Net(AckArrives(at))) == st.(server := t);
    HearKeepsHeard(s, t, Said(st.acks), at + 1);
    SendKeepsFit(s, t, Said(st.acks), st.client.lastAck);
  }

  // --- the client speaks -----------------------------------------------------------------

  // What the client says next joins the chain.
  lemma SayMore(s: Server, acks: seq<Ack>, last: Ack, a: Ack)
    requires Spread(s, acks, last) && AcksOlder(acks, last) && Older(last, a) && AckFits(s, a)
    ensures Spread(s, acks + [a], a)
  {
    hide Bounded, AckFits, Told;
    var said, more := Said(acks), Said(acks + [a]);
    assert more == said + [a];
    assert Older(said[0], a) by {
      FirstTellsNothing(a);
    }
    forall i | 0 <= i < |acks| ensures Older(acks[i], a) {
      OlderStill(acks[i], last, a);
    }
    assert Older(a, a) by {
      OlderItself(a);
    }
    hide Older;
    forall i, j | 0 <= i <= j < |more| ensures Older(more[i], more[j]) {
      if j == |said| && 0 < i < j {
        assert more[i] == acks[i - 1];
      }
    }
    hide Newest;
    var i :| 0 <= i < |said| && Newest(s, said[i]);
    assert Newest(s, more[i]);
  }

  lemma OlderItself(a: Ack)
    ensures Older(a, a)
  {
  }

  lemma FirstTellsNothing(a: Ack)
    ensures Older(NewClient().lastAck, a)
  {
  }

  lemma DataKeepsSpread(file: seq<Chunk>, st: State, at: nat)
    requires InvSpread(file, st) && Enabled(Unbounded, st, Net(DataArrives(at)))
    ensures InvSpread(file, Apply(Unbounded, st, Net(DataArrives(at))))
  {
    DataKeeps(Unbounded, file, st, at);
    OlderItself(st.client.lastAck);
    hide ClientTold, SessionOk, Told, Bounded, InWindow;
    SayMore(st.server, st.acks, st.client.lastAck, st.client.lastAck);
    hide Spread;
    assert st.acks + [] == st.acks;
    hide Inv;
  }

  // A number shown to the server is one it sent, and not the end marker's.
  lemma NewAckFits(file: seq<Chunk>, st: State, f: Client)
    requires Inv(file, st) && !st.client.done && WrittenFrom(file, st.client, f) && !f.done
    requires f.expected !in Nums(f.window)
    ensures AckFits(st.server, MakeAck(f))
  {
    WrittenTravels(file, st.server, st.client, f);
    if st.server.finSent {
      EndMeansWritten(file, st);
    }
    assert st.server.next <= |file|;
    NumsSize(f.window);
    hide Inv;
    forall k | k in Nums(f.window) ensures f.expected < k < st.server.next && k < f.expected + WINDOW_LEN {
      var d :| d in f.window && d.num == k;
    }
    WindowRoom(f.window, f.expected);
  }

  lemma WindowRoom(ds: seq<Data>, expected: nat)
    requires Distinct(ds) && forall k | k in Nums(ds) :: expected < k < expected + WINDOW_LEN
    ensures |ds| < WINDOW_LEN
  {
    NumsSize(ds);
    SubsetSize(Nums(ds), Range(expected + 1, expected + WINDOW_LEN));
  }

  lemma WriteKeepsSpread(file: seq<Chunk>, st: State)
    requires InvSpread(file, st) && !st.client.done
    ensures InvSpread(file, Apply(Unbounded, st, ClientWrites))
  {
    WriteKeeps(Unbounded, file, st);
    assert st.acks + [] == st.acks;
    if st.client.window != [] {
      var f := Flush(Unbounded, st.client);
      ClientFacts(file, st);
      FlushKeeps(file, st.client);
      hide Flush;
      if !f.done {
        NewAckFits(file, st, f);
        NewAckTells(file, st.server, st.client, f);
        hide ClientTold, SessionOk, Told, AckFits, WrittenFrom, Spread;
        SayMore(st.server, st.acks, st.client.lastAck, MakeAck(f));
        hide Inv;
      }
    }
  }

  lemma StepKeepsSpread(file: seq<Chunk>, st: State, e: SackReordering.Event)
    requires InvSpread(file, st) && Enabled(Unbounded, st, e)
    ensures InvSpread(file, Apply(Unbounded, st, e))
  {
    hide InvSpread;
    match e
    case ClientWrites => WriteKeepsSpread(file, st);
    case Net(DataArrives(at)) => DataKeepsSpread(file, st, at);
    case Net(AckArrives(at)) => AckKeepsSpread(file, st, at);
    case Net(send) => SendKeepsSpread(file, st, send);
  }

  // --- wrapping ----------------------------------------------------------------------------

  ghost predicate StateWraps(w: State, u: State) {
    && ServerWraps(w.server, u.server)
    && w.client == WrapClient(u.client)
    && w.sent == WrapDatas(u.sent)
    && w.acks == WrapAcks(u.acks)
  }

  lemma SpanIsNarrow(file: seq<Chunk>, u: State)
    requires InvSpread(file, u)
    ensures Narrow(u.server) && u.server.next <= u.server.base + MAX_SPAN
  {
  }

  lemma WrapAcksAppend(a: seq<Ack>, b: seq<Ack>)
    ensures WrapAcks(a + b) == WrapAcks(a) + WrapAcks(b)
  {
  }

  lemma SendStepWraps(file: seq<Chunk>, w: State, u: State, e: LogNetwork.Event)
    requires InvSpread(file, u) && StateWraps(w, u) && Sends(e)
    ensures MaySend(Wrapping, w.server, e) <==> MaySend(Unbounded, u.server, e)
    ensures MaySend(Unbounded, u.server, e) ==> StateWraps(ApplySend(Wrapping, w, e), ApplySend(Unbounded, u, e))
  {
    SpanIsNarrow(file, u);
    hide InvSpread, Send, ServerWraps, MaySend, WrapClient, Narrow;
    MaySendWraps(w.server, u.server, e);
    if MaySend(Unbounded, u.server, e) {
      SendWraps(w.server, u.server, e);
      SentWraps(u.sent, Send(Unbounded, u.server, e).1);
    }
  }

  // A packet of the session is not far ahead of what the client expects.
  lemma ArrivalIsNear(file: seq<Chunk>, u: State, at: nat)
    requires InvSpread(file, u) && !u.client.done && at < |u.sent|
    ensures ClientOk(file, u.client) && NoEmptyChunk(file)
    ensures u.sent[at].num <= u.client.expected + MAX_SPAN
  {
    ClientFacts(file, u);
    BaseIsTold(file, u);
    assert Travels(file, u.server, u.sent[at]);
    if u.server.finSent {
      EndMeansWritten(file, u);
    }
    hide ClientOk;
  }

  lemma DataWraps(file: seq<Chunk>, w: State, u: State, at: nat)
    requires InvSpread(file, u) && StateWraps(w, u)
    requires Enabled(Unbounded, u, Net(DataArrives(at))) && InTime(u, Net(DataArrives(at)))
    ensures Enabled(Wrapping, w, Net(DataArrives(at)))
    ensures StateWraps(Apply(Wrapping, w, Net(DataArrives(at))), Apply(Unbounded, u, Net(DataArrives(at))))
  {
    ArrivalIsNear(file, u, at);
    hide InvSpread, OnData, ServerWraps, ClientOk;
    OnDataWraps(file, u.client, u.sent[at]);
    WrapAcksAppend(u.acks, OnData(Unbounded, u.client, u.sent[at]).1);
  }

  lemma WriteWraps(file: seq<Chunk>, w: State, u: State)
    requires InvSpread(file, u) && StateWraps(w, u) && !u.client.done
    ensures StateWraps(Apply(Wrapping, w, ClientWrites), Apply(Unbounded, u, ClientWrites))
  {
    ClientFacts(file, u);
    hide InvSpread, ProcessWindow, ServerWraps, ClientOk;
    ProcessWindowWraps(file, u.client);
    WrapAcksAppend(u.acks, ProcessWindow(Unbounded, u.client).1);
  }

  lemma AckFacts(file: seq<Chunk>, u: State, at: nat)
    requires InvSpread(file, u) && at < |u.acks|
    ensures u.acks[at].num <= u.server.next
    ensures forall k | k in u.acks[at].sacks :: u.acks[at].num < k < u.server.next
  {
    AcksBelowNext(file, u, at);
    AckSaid(u.server, u.acks, at);
  }

  lemma AckWraps(file: seq<Chunk>, w: State, u: State, at: nat)
    requires InvSpread(file, u) && StateWraps(w, u)
    requires Enabled(Unbounded, u, Net(AckArrives(at))) && InTime(u, Net(AckArrives(at)))
    ensures StateWraps(Apply(Wrapping, w, Net(AckArrives(at))), Apply(Unbounded, u, Net(AckArrives(at))))
  {
    var a := u.acks[at];
    AckFacts(file, u, at);
    SpanIsNarrow(file, u);
    hide InvSpread, OnAck, ServerWraps, WrapClient, WrapDatas;
    ShownWraps(a.sacks);
    if u.server.base <= a.num {
      OnAckWraps(w.server, u.server, a.num, a.window, Shown(a.sacks));
    } else {
      LateAckWraps(w.server, u.server, a.num, a.window, Shown(a.sacks));
    }
  }

  lemma StepWraps(file: seq<Chunk>, w: State, u: State, e: SackReordering.Event)
    requires InvSpread(file, u) && StateWraps(w, u)
    ensures Enabled(Wrapping, w, e) <==> Enabled(Unbounded, u, e)
    ensures Enabled(Unbounded, u, e) && InTime(u, e) ==> StateWraps(Apply(Wrapping, w, e), Apply(Unbounded, u, e))
  {
    hide InvSpread, ServerWraps, MaySend, OnData, OnAck, ProcessWindow;
    if e.Net? && Sends(e.e) {
      SendStepWraps(file, w, u, e.e);
    } else if Enabled(Unbounded, u, e) && InTime(u, e) {
      match e
      case ClientWrites => WriteWraps(file, w, u);
      case Net(DataArrives(at)) => DataWraps(file, w, u, at);
      case Net(AckArrives(at)) => AckWraps(file, w, u, at);
    }
  }

  // With nothing late, the wrapping system follows exactly the event sequences the
  // unbounded one follows.
  lemma {:induction false} RunWraps(file: seq<Chunk>, w: State, u: State, es: seq<SackReordering.Event>)
    requires InvSpread(file, u) && StateWraps(w, u) && Punctual(u, es)
    ensures Run(Wrapping, w, es).Some? <==> Run(Unbounded, u, es).Some?
    ensures Run(Unbounded, u, es).Some? ==>
              && StateWraps(Run(Wrapping, w, es).value, Run(Unbounded, u, es).value)
              && InvSpread(file, Run(Unbounded, u, es).value)
    decreases |es|
  {
    hide InvSpread, StateWraps, Enabled, Apply, InTime;
    if es != [] {
      StepWraps(file, w, u, es[0]);
      if Enabled(Unbounded, u, es[0]) {
        StepKeepsSpread(file, u, es[0]);
        RunWraps(file, Apply(Wrapping, w, es[0]), Apply(Unbounded, u, es[0]), es[1..]);
      }
    }
  }

  // What the invariant says of the server: everything it was told of lies less than
  // 63 above base, and base itself is still kept.
  ghost predicate Tight(s: Server) {
    && s.base <= s.next <= s.base + MAX_SPAN && |s.unacked| <= MAX_WINDOW
    && (s.base < s.next ==> s.base in s.unacked)
    && forall k | s.base + WINDOW_LEN <= k < s.next :: k in s.unacked
  }

  lemma InvIsTight(file: seq<Chunk>, u: State)
    requires InvSpread(file, u)
    ensures Tight(u.server)
  {
    hide ClientTold, Chain;
    var s, said := u.server, Said(u.acks);
    var i :| 0 <= i < |said| && Newest(s, said[i]);
    assert AckFits(s, said[i]) && !Told(said[i], s.base);
    forall k | s.base + WINDOW_LEN <= k < s.next ensures k in s.unacked {
      assert !Told(said[i], k);
    }
    assert s.base < s.next ==> !Forgotten(s, s.base);
  }

  // Main result: for every file, every window and every sequence of events in which
  // nothing arrives too late, the wrapping system can follow it exactly when the
  // unbounded one can, number for number; then the numbers in use span at most 125
  // and the output is a prefix of the file, the whole of it once the end was sent or
  // accepted.
  lemma PunctualRunsAreSafe(bytes: seq<byte>, window: int, es: seq<SackReordering.Event>)
    requires window <= MAX_WINDOW && Punctual(Init(Chunks(bytes), window), es)
    ensures var w := Run(Wrapping, Init(Chunks(bytes), window), es);
            var u := Run(Unbounded, Init(Chunks(bytes), window), es);
            && (w.Some? <==> u.Some?)
            && (w.Some? ==>
                  && StateWraps(w.value, u.value) && Tight(u.value.server)
                  && Concat(w.value.client.output) <= bytes
                  && (w.value.server.finSent || w.value.client.done ==> Concat(w.value.client.output) == bytes))
  {
    hide InvSpread, Run, Punctual, Chunks, Concat, Tight, Inv;
    var file := Chunks(bytes);
    var init := Init(file, window);
    ChunksOfFile(bytes);
    assert forall i | 0 <= i < |file| :: file[i] in file;
    InitSpread(file, window);
    InitWraps(file, window);
    RunWraps(file, init, init, es);
    if Run(Unbounded, init, es).Some? {
      var u := Run(Unbounded, init, es).value;
      InvIsTight(file, u);
      SpreadIsSound(file, u);
      ConcatPrefix(u.client.output, file);
    }
  }

  lemma InitWraps(file: seq<Chunk>, window: int)
    ensures StateWraps(Init(file, window), Init(file, window))
  {
  }

  lemma SpreadIsSound(file: seq<Chunk>, u: State)
    requires InvSpread(file, u)
    ensures Sound(file, u)
  {
    InvIsSound(file, u);
  }
}
