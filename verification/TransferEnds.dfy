// The programs of Transfer never get stuck: whatever they and the network did, some
// further actions end with exactly the file written.
module TransferEnds {
  import opened SeqNums
  import opened Packets
  import opened ServerSession
  import opened Segments
  import opened SlidingWindow
  import SackClient
  import ServerLoop
  import Progress
  import opened Transfer

  // The run told in unbounded numbers.
  ghost function Shadow(bytes: seq<byte>, window: int, es: seq<Event>): Option<State> {
    Run(Unbounded, Init(Chunks(bytes), window), es)
  }

  lemma ShadowFacts(bytes: seq<byte>, window: int, es: seq<Event>, st: State)
    requires Reached(bytes, window, es, st) && window >= 1
    ensures Shadow(bytes, window, es).Some?
    ensures var u := Shadow(bytes, window, es).value;
            Progress.Open(Chunks(bytes), u) && StateWraps(st, u)
  {
    hide Run, Chunks, Inv, StateWraps;
    WrappingBehavesLikeUnbounded(bytes, window, es);
    ChunksOfFile(bytes);
    assert forall i | 0 <= i < |Chunks(bytes)| :: Chunks(bytes)[i] in Chunks(bytes);
    NoneEmpty(Chunks(bytes));
    InitInv(Chunks(bytes), window);
    Progress.RunKeepsOpen(Chunks(bytes), Init(Chunks(bytes), window), es);
  }

  lemma NoneEmpty(file: seq<Chunk>)
    requires forall c | c in file :: 0 < |c|
    ensures SackClient.NoEmptyChunk(file)
  {
  }

  lemma ShadowStep(bytes: seq<byte>, window: int, es: seq<Event>, st: State, e: Event, t: State)
    requires Reached(bytes, window, es, st) && Reached(bytes, window, es + [e], t)
    ensures Shadow(bytes, window, es).Some? && Shadow(bytes, window, es + [e]).Some?
    ensures var u := Shadow(bytes, window, es).value;
            Enabled(Unbounded, u, e) && Shadow(bytes, window, es + [e]).value == Apply(Unbounded, u, e)
  {
    WrappingBehavesLikeUnbounded(bytes, window, es);
    WrappingBehavesLikeUnbounded(bytes, window, es + [e]);
    hide Chunks, Apply, Enabled;
    Progress.RunAppend(Unbounded, Init(Chunks(bytes), window), es, [e]);
    assert [e][1..] == [];
  }

  // Sending leaves the client, its acknowledgements and base alone.
  ghost predicate OnlySent(u: State, v: State) {
    v.client == u.client && v.acks == u.acks && v.server.base == u.server.base
  }

  lemma {:induction false} SendingLeaves(u: State, more: seq<Event>)
    requires ServerLoop.BySending(more) && Run(Unbounded, u, more).Some?
    ensures OnlySent(u, Run(Unbounded, u, more).value)
    decreases |more|
  {
    if more != [] {
      assert more[0] in more;
      SendingLeaves(Apply(Unbounded, u, more[0]), more[1..]);
    }
  }

  lemma ShadowSends(bytes: seq<byte>, window: int, es: seq<Event>, st: State, more: seq<Event>, t: State)
    requires Reached(bytes, window, es, st) && Reached(bytes, window, es + more, t) && ServerLoop.BySending(more)
    ensures Shadow(bytes, window, es).Some? && Shadow(bytes, window, es + more).Some?
    ensures OnlySent(Shadow(bytes, window, es).value, Shadow(bytes, window, es + more).value)
  {
    WrappingBehavesLikeUnbounded(bytes, window, es);
    WrappingBehavesLikeUnbounded(bytes, window, es + more);
    hide Chunks, Run, OnlySent, ServerLoop.BySending;
    Progress.RunAppend(Unbounded, Init(Chunks(bytes), window), es, more);
    SendingLeaves(Shadow(bytes, window, es).value, more);
  }

  // --- what happens in the unbounded system ---------------------------------------------

  // The client waits for a number and has room for it.
  ghost predicate Waits(c: SackClient.Client) {
    !c.done && c.expected !in Nums(c.window) && |c.window| < SackClient.WINDOW_LEN
  }

  lemma WritingMakesRoom(file: seq<Chunk>, u: State)
    requires Inv(file, u) && !u.client.done
    ensures var v := Apply(Unbounded, u, ClientWrites);
            (v.client.done || Waits(v.client)) && v.server == u.server
  {
    SackClient.FlushKeeps(file, u.client);
    hide SackClient.Flush, ServerOk, AcksOk, DataOk;
    var f := SackClient.Flush(Unbounded, u.client);
    if !f.done && |f.window| >= SackClient.WINDOW_LEN {
      Progress.FullWindowIsReady(file, f);
    }
  }

  // The only packet under way wears base.
  ghost predicate Offered(u: State) {
    |u.data| == 1 && u.data[0].num == u.server.base && u.acks == [] && Waits(u.client)
  }

  // Told by its residue alone it is base.
  lemma ResidueIsBase(file: seq<Chunk>, w: State, u: State)
    requires Inv(file, u) && StateWraps(w, u) && !u.client.done && |w.data| == 1 && w.data[0].num == w.server.base
    ensures |u.data| == 1 && u.data[0].num == u.server.base
  {
    ArrivalsAreNear(file, u);
    BaseBehindClient(file, u);
    ExpectedIsNear(file, u);
    hide Inv;
    assert w.data[0] == WrapData(u.data[0]);
    SameResidue(u.data[0].num, u.server.base);
  }

  lemma ExpectedIsNear(file: seq<Chunk>, u: State)
    requires Inv(file, u) && !u.client.done
    ensures u.server.base <= u.client.expected == u.client.lastAck.num <= u.server.next <= u.server.base + 63
    ensures u.server.next <= |file| && SackClient.ClientOk(file, u.client)
  {
    BaseBehindClient(file, u);
  }

  // The client takes it, goes over its window and so asks for a later number.
  lemma OfferIsAnswered(file: seq<Chunk>, u: State)
    requires Inv(file, u) && Offered(u)
    ensures var v := Apply(Unbounded, u, ClientReceives);
            var t := Apply(Unbounded, v, ClientWrites);
            && !v.client.done && t.server == u.server
            && (t.client.done || (t.acks != [] && t.acks[0].num > u.server.base))
  {
    ExpectedIsNear(file, u);
    StepKeeps(file, u, ClientReceives);
    if u.server.base == u.client.expected {
      NextIsTaken(file, u);
      var v := Apply(Unbounded, u, ClientReceives);
      Progress.WritingAdvances(file, v);
      WrittenAsks(file, v);
    }
    hide Inv, SackClient.Flush, Nums, SackClient.OnData;
  }

  lemma NextIsTaken(file: seq<Chunk>, u: State)
    requires Inv(file, u) && Offered(u) && u.server.base == u.client.expected
    ensures var v := Apply(Unbounded, u, ClientReceives);
            && v.client == u.client.(window := u.client.window + [u.data[0]]) && v.acks == []
            && v.client.expected in Nums(v.client.window)
  {
    Progress.ReceivedNext(u.client, u.data[0]);
    NumsAppend(u.client.window, u.data[0]);
    hide Inv;
  }

  lemma WrittenAsks(file: seq<Chunk>, v: State)
    requires Inv(file, v) && !v.client.done
    ensures var t := Apply(Unbounded, v, ClientWrites);
            t.client.done || t.client.lastAck.num == t.client.expected
  {
    StepKeeps(file, v, ClientWrites);
    hide ServerOk, AcksOk, DataOk, SackClient.Flush;
  }

  // --- actions ------------------------------------------------------------------------

  // The two programs are as they were.
  ghost predicate SamePrograms(u: Option<State>, v: Option<State>) {
    u.Some? && v.Some? && v.value.server == u.value.server && v.value.client == u.value.client
  }

  lemma SameStill(u: Option<State>, v: Option<State>, w: Option<State>)
    requires SamePrograms(u, v) && SamePrograms(v, w)
    ensures SamePrograms(u, w)
  {
  }

  ghost predicate SameAcks(u: Option<State>, v: Option<State>) {
    u.Some? && v.Some? && v.value.acks == u.value.acks
  }

  // The link can be completed, and this is its run in unbounded numbers.
  ghost predicate Going(link: Link, u: Option<State>)
    reads link, link.session, link.client
  {
    link.Valid() && link.window >= 1 && u == Shadow(link.bytes, link.window, link.es)
  }

  // One DATA packet is lost.
  method LoseData(link: Link, at: nat, ghost u: Option<State>) returns (ghost v: Option<State>)
    requires Going(link, u) && at < |link.data|
    modifies link
    ensures Going(link, v) && SamePrograms(u, v) && SameAcks(u, v)
    ensures link.data == Lose(old(link.data), at) && link.acks == old(link.acks) && link.ended == old(link.ended)
  {
    hide Reached, AllData, AllAcks, Shadow;
    ghost var es, st := link.es, link.st;
    link.HarmData(at, Drop);
    ShadowStep(link.bytes, link.window, es, st, DataLost(at), link.st);
    v := Shadow(link.bytes, link.window, link.es);
  }

  method LoseAck(link: Link, at: nat, ghost u: Option<State>) returns (ghost v: Option<State>)
    requires Going(link, u) && at < |link.acks|
    modifies link
    ensures Going(link, v) && SamePrograms(u, v)
    ensures link.acks == Lose(old(link.acks), at) && link.data == old(link.data) && link.ended == old(link.ended)
  {
    hide Reached, AllData, AllAcks, Shadow;
    ghost var es, st := link.es, link.st;
    link.HarmAck(at, Drop);
    ShadowStep(link.bytes, link.window, es, st, AckLost(at), link.st);
    v := Shadow(link.bytes, link.window, link.es);
  }

  lemma SameAtFirst(link: Link, u: Option<State>)
    requires Going(link, u)
    ensures SamePrograms(u, u) && SameAcks(u, u)
  {
    hide Shadow;
    ShadowFacts(link.bytes, link.window, link.es, link.st);
  }

  // Everything under way is lost.
  method ClearWires(link: Link, ghost u: Option<State>) returns (ghost v: Option<State>)
    requires Going(link, u)
    modifies link
    ensures Going(link, v) && SamePrograms(u, v)
    ensures link.data == [] && link.acks == [] && link.ended == old(link.ended)
  {
    SameAtFirst(link, u);
    hide Going, SamePrograms, SameAcks, Lose;
    v := u;
    while link.data != []
      invariant Going(link, v) && SamePrograms(u, v) && link.ended == old(link.ended)
      decreases |link.data|
    {
      ghost var m := v;
      v := LoseData(link, 0, m);
      SameStill(u, m, v);
    }
    while link.acks != []
      invariant Going(link, v) && SamePrograms(u, v) && link.data == [] && link.ended == old(link.ended)
      decreases |link.acks|
    {
      ghost var m := v;
      v := LoseAck(link, 0, m);
      SameStill(u, m, v);
    }
  }

  lemma AcksStill(u: Option<State>, v: Option<State>, w: Option<State>)
    requires SameAcks(u, v) && SameAcks(v, w)
    ensures SameAcks(u, w)
  {
  }

  method DropBefore(link: Link, at: nat, ghost u: Option<State>) returns (ghost v: Option<State>)
    requires Going(link, u) && at < |link.data|
    modifies link
    ensures Going(link, v) && SamePrograms(u, v) && SameAcks(u, v)
    ensures link.data == old(link.data)[at..] && link.acks == old(link.acks) && link.ended == old(link.ended)
  {
    SameAtFirst(link, u);
    hide Going, SamePrograms, SameAcks, Lose;
    v := u;
    for i := 0 to at
      invariant Going(link, v) && SamePrograms(u, v) && SameAcks(u, v)
      invariant link.acks == old(link.acks) && link.ended == old(link.ended)
      invariant link.data == old(link.data)[i..]
    {
      ghost var m := v;
      v := LoseData(link, 0, m);
      SameStill(u, m, v);
      AcksStill(u, m, v);
    }
  }

  method DropAfter(link: Link, ghost u: Option<State>) returns (ghost v: Option<State>)
    requires Going(link, u) && link.data != []
    modifies link
    ensures Going(link, v) && SamePrograms(u, v) && SameAcks(u, v)
    ensures link.data == [old(link.data)[0]] && link.acks == old(link.acks) && link.ended == old(link.ended)
    decreases |link.data|
  {
    SameAtFirst(link, u);
    hide Going, SamePrograms, SameAcks, Lose;
    v := u;
    if |link.data| > 1 {
      ghost var m := LoseData(link, 1, u);
      v := DropAfter(link, m);
      SameStill(u, m, v);
      AcksStill(u, m, v);
    }
  }

  // All DATA packets but one are lost.
  method KeepOne(link: Link, at: nat, ghost u: Option<State>) returns (ghost v: Option<State>)
    requires Going(link, u) && at < |link.data|
    modifies link
    ensures Going(link, v) && SamePrograms(u, v) && SameAcks(u, v)
    ensures link.data == [old(link.data[at])] && link.acks == old(link.acks) && link.ended == old(link.ended)
  {
    hide Going, SamePrograms, SameAcks;
    ghost var m := DropBefore(link, at, u);
    v := DropAfter(link, m);
    SameStill(u, m, v);
    AcksStill(u, m, v);
  }

  // The client goes over its window.
  method LetWrite(link: Link, ghost u: Option<State>) returns (ghost v: Option<State>)
    requires Going(link, u) && !link.ended
    modifies link, link.client
    ensures Going(link, v) && u.Some? && !u.value.client.done && v == Some(Apply(Unbounded, u.value, ClientWrites))
    ensures link.ended == v.value.client.done
  {
    hide Reached, AllData, AllAcks, Shadow, ServerLoop.Wrapped, SackClient.Processed;
    ghost var es, st := link.es, link.st;
    var _, _ := link.ClientProcesses(0);
    ShadowStep(link.bytes, link.window, es, st, ClientWrites, link.st);
    v := Shadow(link.bytes, link.window, link.es);
    DoneAlike(link, v);
  }

  lemma DoneAlike(link: Link, u: Option<State>)
    requires Going(link, u)
    ensures u.Some? && link.ended == u.value.client.done && Progress.Open(Chunks(link.bytes), u.value)
    ensures StateWraps(link.st, u.value)
    ensures link.session.window >= 1 && link.session.base == u.value.server.base % MODULUS
  {
    hide Shadow, Inv;
    ShadowFacts(link.bytes, link.window, link.es, link.st);
  }

  method LetTake(link: Link, ghost u: Option<State>) returns (ghost v: Option<State>)
    requires Going(link, u) && !link.ended && link.data != [] && |link.client.window| < SackClient.WINDOW_LEN
    modifies link, link.client
    ensures Going(link, v) && !link.ended && u.Some? && Enabled(Unbounded, u.value, ClientReceives)
    ensures v == Some(Apply(Unbounded, u.value, ClientReceives))
  {
    hide Reached, AllData, AllAcks, Shadow, ServerLoop.Wrapped, SackClient.Received, FromSegment20;
    ghost var es, st := link.es, link.st;
    var _ := link.ClientTakesData(0);
    ShadowStep(link.bytes, link.window, es, st, ClientReceives, link.st);
    v := Shadow(link.bytes, link.window, link.es);
  }

  method LetHear(link: Link, ghost u: Option<State>) returns (ghost v: Option<State>)
    requires Going(link, u) && link.acks != []
    modifies link, link.session
    ensures Going(link, v) && link.ended == old(link.ended) && u.Some? && Enabled(Unbounded, u.value, ServerHears)
    ensures v == Some(Apply(Unbounded, u.value, ServerHears))
  {
    hide Reached, AllData, AllAcks, Shadow, ServerLoop.Wrapped, ServerLoop.HeardBy, ServerLoop.Smoothed, Depackage;
    ghost var es, st := link.es, link.st;
    link.ServerTakesAck(0.0, 0);
    ShadowStep(link.bytes, link.window, es, st, ServerHears, link.st);
    v := Shadow(link.bytes, link.window, link.es);
  }

  // After a turn that follows a long silence base, or the end-of-file packet in its
  // place, is among what was sent.
  lemma BaseLeaves(file: seq<Chunk>, u: Server, t: Server, late: seq<Data>)
    requires ServerOk(file, u) && ServerWraps(t, u) && t.window >= 1
    requires (|t.unacked| >= t.window || t.eof) && (t.eof && |t.unacked| == 0 ==> t.finSent)
    requires ServerLoop.SentAfterSilence(t, true, late)
    ensures exists i :: 0 <= i < |late| && late[i].num == t.base
  {
    if t.finSent {
      assert u.unacked == map[] && u.base == u.next;
      assert late[0].num == t.base;
    } else {
      assert |t.unacked| == |t.unacked.Keys| > 0;
      var q :| q in t.unacked.Keys;
      var k :| k in u.unacked && k % MODULUS == q;
      assert u.base in u.unacked;
      assert Data(t.base, t.unacked[t.base]) in late;
      var i :| 0 <= i < |late| && late[i] == Data(t.base, t.unacked[t.base]);
    }
  }

  // The turn was long after the last contact.
  lemma SilentTurn(s: Server, timers: map<nat, real>, contact: real, rtt: real, parts: ServerLoop.Parts,
                   t: Server, timersAfter: map<nat, real>, contactAfter: real)
    requires timers.Keys == s.unacked.Keys && timersAfter.Keys == t.unacked.Keys && rtt < 10.0
    requires ServerLoop.TurnTaken(s, timers, contact, rtt, contact + 25.0, parts, t, timersAfter, contactAfter)
    ensures ServerLoop.SentAfterSilence(t, true, parts.late)
    ensures (|t.unacked| >= t.window || t.eof) && (t.eof && |t.unacked| == 0 ==> t.finSent)
  {
    hide ServerLoop.OverdueSent, ServerLoop.SentAfterSilence, ServerLoop.KeptAndSent;
  }

  // Whether a DATA packet wears this number.
  predicate Wears(wire: seq<byte>, num: nat) {
    FromSegment20(wire).Some? && FromSegment20(wire).value.seqnum == num
  }

  method Find(wires: seq<seq<byte>>, num: nat) returns (at: nat)
    requires exists i :: 0 <= i < |wires| && Wears(wires[i], num)
    ensures at < |wires| && Wears(wires[at], num)
  {
    hide Wears;
    at := 0;
    while !Wears(wires[at], num)
      invariant at < |wires| && forall j | 0 <= j < at :: !Wears(wires[j], num)
      invariant exists i :: 0 <= i < |wires| && Wears(wires[i], num)
      decreases |wires| - at
    {
      at := at + 1;
    }
  }

  method LongTurn(link: Link, ghost u: Option<State>) returns (ghost parts: ServerLoop.Parts, ghost v: Option<State>)
    requires Going(link, u) && !link.ended && link.data == []
    modifies link, link.session
    ensures Going(link, v) && !link.ended && link.acks == old(link.acks)
    ensures u.Some? && v.Some? && OnlySent(u.value, v.value)
    ensures exists i :: 0 <= i < |link.data| && Wears(link.data[i], link.session.base)
  {
    hide Reached, AllAcks, Shadow, OnlySent, ServerLoop.TurnTaken, ServerLoop.SentAfterSilence, ServerLoop.Wrapped;
    hide Wears, ServerLoop.EachOnce, ServerLoop.BySending, StateWraps, Inv, CarriesData;
    ghost var es, st := link.es, link.st;
    var now := link.session.lastContact + 25.0;
    ghost var more;
    parts, more := link.ServerTurn(now, n => now, 0);
    v := Shadow(link.bytes, link.window, link.es);
    ShadowSends(link.bytes, link.window, es, st, more, link.st);
    DoneAlike(link, v);
    SilentTurn(old(link.session.Model()), old(link.session.timers), old(link.session.lastContact), link.session.rtt,
               parts, link.session.Model(), link.session.timers, link.session.lastContact);
    ServersAlike(Chunks(link.bytes), link.st, v.value);
    BaseLeaves(Chunks(link.bytes), v.value.server, link.session.Model(), parts.late);
    BaseOnWire(link.data, parts.firsts + parts.overdue + parts.ends, parts.late, link.session.base);
  }

  lemma ServersAlike(file: seq<Chunk>, w: State, u: State)
    requires Inv(file, u) && StateWraps(w, u)
    ensures ServerOk(file, u.server) && ServerWraps(w.server, u.server)
  {
  }

  lemma BaseOnWire(wire: seq<seq<byte>>, before: seq<Data>, late: seq<Data>, base: nat)
    requires AllData(wire, before + late) && exists i :: 0 <= i < |late| && late[i].num == base
    ensures exists i :: 0 <= i < |wire| && Wears(wire[i], base)
  {
    hide CarriesData, FromSegment20;
    var i :| 0 <= i < |late| && late[i].num == base;
    var at := |before| + i;
    assert (before + late)[at] == late[i];
    DataIsRead(wire[at], late[i]);
    assert Wears(wire[at], base);
  }

  lemma AcksAlike(link: Link, u: Option<State>)
    requires Going(link, u)
    ensures u.Some? && |link.acks| == |u.value.acks| && Progress.Open(Chunks(link.bytes), u.value)
  {
    DoneAlike(link, u);
    hide Shadow, Inv;
  }

  lemma HeardAbove(link: Link, u: State, v: State)
    requires Progress.Open(Chunks(link.bytes), u) && u.acks != [] && v == Apply(Unbounded, u, ServerHears)
    requires u.acks[0].num > u.server.base
    ensures v.server.base > u.server.base
  {
    Progress.HearingAdvances(Chunks(link.bytes), u);
    hide Apply;
  }

  lemma BaseIsOffered(link: Link, u: State, v: Option<State>, w: Option<State>)
    requires Going(link, w) && v.Some? && OnlySent(u, v.value) && SamePrograms(v, w) && SameAcks(v, w)
    requires Waits(u.client) && !link.ended && link.acks == [] && |link.data| == 1
    requires Wears(link.data[0], link.session.base)
    ensures Inv(Chunks(link.bytes), w.value) && Offered(w.value) && w.value.server.base == u.server.base
    ensures |link.client.window| < SackClient.WINDOW_LEN
  {
    DoneAlike(link, w);
    WireIsState(link);
    hide Inv, Shadow, Nums;
    ResidueIsBase(Chunks(link.bytes), link.st, w.value);
  }

  lemma WireIsState(link: Link)
    requires link.Valid() && |link.data| == 1 && Wears(link.data[0], link.session.base) && link.acks == []
    ensures |link.st.data| == 1 && link.st.data[0].num == link.st.server.base && link.st.acks == []
    ensures link.client.window == link.st.client.window
  {
    hide Reached, CarriesData, FromSegment20;
    DataIsRead(link.data[0], link.st.data[0]);
  }

  // From empty channels to a client that waits: the server sends base, or the
  // end-of-file packet, and nothing else arrives.
  method OfferBase(link: Link, ghost u: Option<State>) returns (ghost v: Option<State>)
    requires Going(link, u) && !link.ended && link.data == [] && link.acks == []
    requires u.Some? && Waits(u.value.client)
    modifies link, link.session
    ensures Going(link, v) && !link.ended && link.data != [] && |link.client.window| < SackClient.WINDOW_LEN
    ensures v.Some? && Inv(Chunks(link.bytes), v.value) && Offered(v.value)
    ensures v.value.server.base == u.value.server.base
  {
    hide Going, OnlySent, Offered, Wears, Inv, Waits, SamePrograms, SameAcks;
    var _, v1 := LongTurn(link, u);
    var at := Find(link.data, link.session.base);
    v := KeepOne(link, at, v1);
    BaseIsOffered(link, u.value, v1, v);
    SomeAlike(v1, v);
  }

  lemma SomeAlike(u: Option<State>, v: Option<State>)
    requires SamePrograms(u, v)
    ensures u.Some? && v.Some? && v.value.server == u.value.server
  {
  }

  // Then the client takes and answers it, and the server hears that.
  method Advance(link: Link, ghost u: Option<State>) returns (ghost v: Option<State>)
    requires Going(link, u) && !link.ended && link.data == [] && link.acks == []
    requires u.Some? && Waits(u.value.client)
    modifies link, link.session, link.client
    ensures Going(link, v) && v.Some?
    ensures link.ended || v.value.server.base > u.value.server.base
  {
    hide Going, Offered, Inv, Apply;
    ghost var v2 := OfferBase(link, u);
    OfferIsAnswered(Chunks(link.bytes), v2.value);
    ghost var v3 := LetTake(link, v2);
    v := LetWrite(link, v3);
    if !link.ended {
      ghost var v4 := v;
      AcksAlike(link, v4);
      v := LetHear(link, v4);
      HeardAbove(link, v4.value, v.value);
    }
  }

  // A round brings base forward or ends the transfer.
  method Round(link: Link, ghost u: Option<State>) returns (ghost v: Option<State>)
    requires Going(link, u) && !link.ended && u.Some?
    modifies link, link.session, link.client
    ensures Going(link, v) && v.Some?
    ensures link.ended || v.value.server.base > u.value.server.base
  {
    DoneAlike(link, u);
    WritingMakesRoom(Chunks(link.bytes), u.value);
    hide Going, Waits, Inv, Apply;
    v := LetWrite(link, u);
    if !link.ended {
      ghost var v1 := v;
      ghost var v2 := ClearWires(link, v1);
      SomeAlike(v1, v2);
      SameClient(v1, v2);
      v := Advance(link, v2);
    }
  }

  lemma SameClient(u: Option<State>, v: Option<State>)
    requires SamePrograms(u, v)
    ensures u.Some? && v.Some? && v.value.client == u.value.client
  {
  }

  lemma BaseInFile(link: Link, u: Option<State>)
    requires Going(link, u)
    ensures u.Some? && u.value.server.base <= |Chunks(link.bytes)|
  {
    DoneAlike(link, u);
    hide Shadow;
  }

  // Main result: whatever happened so far, some further actions end with the whole
  // file written and the client gone from its loop.
  method Finish(link: Link)
    requires link.Valid() && link.window >= 1
    modifies link, link.session, link.client
    ensures link.Valid() && link.ended && Concat(link.client.file) == link.bytes
  {
    ghost var u := Shadow(link.bytes, link.window, link.es);
    BaseInFile(link, u);
    hide Going, Shadow, Chunks, Concat;
    while !link.ended
      invariant Going(link, u) && u.Some? && u.value.server.base <= |Chunks(link.bytes)|
      decreases !link.ended, |Chunks(link.bytes)| - u.value.server.base
    {
      ghost var before := u;
      u := Round(link, before);
      BaseInFile(link, u);
    }
    StillValid(link, u);
    link.IsSafe();
  }

  lemma StillValid(link: Link, u: Option<State>)
    requires Going(link, u)
    ensures link.Valid()
  {
  }

  // From the start, after any actions at all.
  method AlwaysCompletable(bytes: seq<byte>, window: int, start: real, actions: seq<Action>) returns (link: Link)
    requires 1 <= window <= MAX_WINDOW
    ensures fresh(link) && fresh(link.session) && fresh(link.client) && link.Valid() && link.bytes == bytes
    ensures link.ended && Concat(link.client.file) == bytes
  {
    link := Interleave(bytes, window, start, actions);
    Finish(link);
  }
}
