// The programs themselves joined by two channels of bytes: a Session of
// src/server.py and an SrtpClient of groupe_20, in any interleaving of their
// methods with the doings of the network. Whatever they do is a run of the
// wrapping system, so what is proved of that system holds of them.
module Transfer {
  import opened SeqNums
  import opened Packets
  import opened ServerSession
  import opened Segments
  import opened SlidingWindow
  import SackClient
  import SackCodec
  import ServerLoop
  import ClientLoop
  import Progress

  // --- packets as bytes ------------------------------------------------------------

  // bytes is what empackage and to_segment alike make of p.
  ghost predicate Encodes(bytes: seq<byte>, p: Packet) {
    Valid20(p) && p.ptype != 0 && Empackage(p.ptype, p.window, p.seqnum, p.timestamp, p.payload) == Some(bytes)
  }

  // Both programs read back what was written, and refuse it once a byte changed.
  lemma ReadBack(bytes: seq<byte>, p: Packet)
    requires Encodes(bytes, p)
    ensures FromSegment20(bytes) == Some(p) && Depackage(bytes) == Accepted(p)
  {
    hide FromSegment20, Decode42, Decode61, Depackage, Empackage, ToSegment20, Valid20;
    EncodersAgree(p);
    Round20(p);
    AcceptanceChain(bytes);
  }

  lemma Corrupted(bytes: seq<byte>, p: Packet, at: nat, b: byte)
    requires Encodes(bytes, p) && at < |bytes| && bytes[at] != b
    ensures FromSegment20(bytes[at := b]) == None && Depackage(bytes[at := b]) == Rejected
  {
    hide FromSegment20, Depackage, Empackage;
    OneByteCorruptionIsRejected(p.ptype, p.window, p.seqnum, p.timestamp, p.payload, at, b);
  }

  ghost predicate DataPacket(p: Packet, d: Data) {
    && p.ptype == PTYPE_DATA && p.seqnum == d.num && p.payload == d.payload
    && p.window == if d.payload == [] then 0 else 63
  }

  ghost predicate AckPacket(p: Packet, a: Ack) {
    && SackCodec.Encodable(a.sacks) && (p.ptype == PTYPE_ACK || p.ptype == PTYPE_SACK)
    && ClientLoop.Segment(p.ptype == PTYPE_SACK, p.window, p.seqnum, p.payload) == ClientLoop.Wire(a)
  }

  ghost predicate CarriesData(bytes: seq<byte>, d: Data) {
    exists p :: Encodes(bytes, p) && DataPacket(p, d)
  }

  ghost predicate CarriesAck(bytes: seq<byte>, a: Ack) {
    exists p :: Encodes(bytes, p) && AckPacket(p, a)
  }

  ghost predicate AllData(wire: seq<seq<byte>>, ds: seq<Data>) {
    |wire| == |ds| && forall i | 0 <= i < |ds| :: CarriesData(wire[i], ds[i])
  }

  ghost predicate AllAcks(wire: seq<seq<byte>>, acks: seq<Ack>) {
    |wire| == |acks| && forall i | 0 <= i < |acks| :: CarriesAck(wire[i], acks[i])
  }

  // --- what travels fits the packets ---------------------------------------------------

  predicate FitsData(d: Data) {
    d.num < MODULUS && |d.payload| <= MAX_PAYLOAD
  }

  predicate FitsAck(a: Ack) {
    a.num < MODULUS && 0 <= a.window <= MAX_WINDOW && SackCodec.Encodable(a.sacks)
  }

  ghost predicate Reached(bytes: seq<byte>, window: int, es: seq<Event>, st: State) {
    window <= MAX_WINDOW && Run(Wrapping, Init(Chunks(bytes), window), es) == Some(st)
  }

  lemma TravelsFit(bytes: seq<byte>, window: int, es: seq<Event>, st: State)
    requires Reached(bytes, window, es, st)
    ensures forall i | 0 <= i < |st.data| :: FitsData(st.data[i])
    ensures forall i | 0 <= i < |st.acks| :: FitsAck(st.acks[i])
  {
    hide Run, Chunks, Inv, StateWraps;
    WrappingBehavesLikeUnbounded(bytes, window, es);
    ChunksOfFile(bytes);
    var u := Run(Unbounded, Init(Chunks(bytes), window), es).value;
    DataFits(Chunks(bytes), st, u);
    ClientLoop.AcksFitTheWire(bytes, window, es);
    AckNumsFit(st, u);
  }

  lemma DataFits(file: seq<Chunk>, w: State, u: State)
    requires StateWraps(w, u) && Inv(file, u) && forall c | c in file :: 0 < |c| <= MAX_PAYLOAD
    ensures forall i | 0 <= i < |w.data| :: FitsData(w.data[i])
  {
    hide ServerOk, AcksOk, ReceiverOk, ServerWraps;
    forall i | 0 <= i < |w.data| ensures FitsData(w.data[i]) {
      assert Travels(file, u.server, u.data[i]);
      assert u.data[i].num < |file| ==> file[u.data[i].num] in file;
    }
  }

  lemma AckNumsFit(w: State, u: State)
    requires StateWraps(w, u)
    ensures forall i | 0 <= i < |w.acks| :: w.acks[i].num < MODULUS
  {
    hide ServerWraps;
    assert forall i | 0 <= i < |w.acks| :: w.acks[i] == WrapAck(u.acks[i]);
  }

  // --- writing packets -------------------------------------------------------------------

  // empackage, as the server calls it on what it sends.
  method EncodeData(d: Data, clock: nat) returns (bytes: seq<byte>)
    requires FitsData(d)
    ensures CarriesData(bytes, d)
  {
    hide Empackage, ToSegment20, Encode42, Encode61;
    var p := Packet(PTYPE_DATA, if d.payload == [] then 0 else 63, d.num, clock % WORD, d.payload);
    EncodersAgree(p);
    bytes := Empackage(p.ptype, p.window, p.seqnum, p.timestamp, p.payload).value;
    assert Encodes(bytes, p) && DataPacket(p, d);
  }

  // to_segment, as the client calls it.
  method EncodeAck(segment: ClientLoop.Segment, clock: nat, ghost a: Ack) returns (bytes: seq<byte>)
    requires FitsAck(a) && segment == ClientLoop.Wire(a)
    ensures CarriesAck(bytes, a)
  {
    hide Empackage, ToSegment20, Encode42, Encode61, SackCodec.EncodeSet;
    SackCodec.SetRoundTrip(a.sacks);
    ClientLoop.NothingHeld();
    var p := Packet(if segment.isSack then PTYPE_SACK else PTYPE_ACK,
                    segment.window, segment.num, clock % WORD, segment.payload);
    EncodersAgree(p);
    bytes := ToSegment20(p);
    assert Encodes(bytes, p) && AckPacket(p, a);
  }

  method EncodeAllData(ds: seq<Data>, clock: nat) returns (wire: seq<seq<byte>>)
    requires forall i | 0 <= i < |ds| :: FitsData(ds[i])
    ensures AllData(wire, ds)
  {
    hide CarriesData, FitsData;
    wire := [];
    for i := 0 to |ds|
      invariant AllData(wire, ds[..i])
    {
      var bytes := EncodeData(ds[i], clock);
      wire := wire + [bytes];
    }
    assert ds[..|ds|] == ds;
  }

  method EncodeAllAcks(segments: seq<ClientLoop.Segment>, clock: nat, ghost acks: seq<Ack>)
    returns (wire: seq<seq<byte>>)
    requires ClientLoop.Wires(acks, segments) && forall i | 0 <= i < |acks| :: FitsAck(acks[i])
    ensures AllAcks(wire, acks)
  {
    hide CarriesAck, FitsAck, SackCodec.Encodable, ClientLoop.Wire;
    wire := [];
    for i := 0 to |segments|
      invariant AllAcks(wire, acks[..i])
    {
      var bytes := EncodeAck(segments[i], clock, acks[i]);
      wire := wire + [bytes];
    }
    assert acks[..|acks|] == acks;
  }

  lemma DataIsRead(bytes: seq<byte>, d: Data)
    requires CarriesData(bytes, d)
    ensures FromSegment20(bytes).Some? && DataPacket(FromSegment20(bytes).value, d)
  {
    hide FromSegment20, Encodes;
    var p :| Encodes(bytes, p) && DataPacket(p, d);
    ReadBack(bytes, p);
  }

  lemma AckIsRead(bytes: seq<byte>, a: Ack)
    requires CarriesAck(bytes, a)
    ensures Depackage(bytes).Accepted? && AckPacket(Depackage(bytes).packet, a)
  {
    hide Depackage, Encodes, AckPacket;
    var p :| Encodes(bytes, p) && AckPacket(p, a);
    ReadBack(bytes, p);
  }

  lemma DataIsRefused(bytes: seq<byte>, d: Data, at: nat, b: byte)
    requires CarriesData(bytes, d) && at < |bytes| && bytes[at] != b
    ensures FromSegment20(bytes[at := b]) == None
  {
    hide FromSegment20, Encodes;
    var p :| Encodes(bytes, p) && DataPacket(p, d);
    Corrupted(bytes, p, at, b);
  }

  lemma AckIsRefused(bytes: seq<byte>, a: Ack, at: nat, b: byte)
    requires CarriesAck(bytes, a) && at < |bytes| && bytes[at] != b
    ensures Depackage(bytes[at := b]) == Rejected
  {
    hide Depackage, Encodes, AckPacket;
    var p :| Encodes(bytes, p) && AckPacket(p, a);
    Corrupted(bytes, p, at, b);
  }

  lemma StepsOn(bytes: seq<byte>, window: int, es: seq<Event>, st: State, e: Event)
    requires Reached(bytes, window, es, st) && Enabled(Wrapping, st, e)
    ensures Reached(bytes, window, es + [e], Apply(Wrapping, st, e))
  {
    hide Run, Apply, Enabled, Chunks;
    Progress.RunOneMore(Wrapping, Init(Chunks(bytes), window), es, st, e);
  }

  lemma TurnStepsOn(bytes: seq<byte>, window: int, es: seq<Event>, st: State,
                    more: seq<Event>, t: Server, sent: seq<Data>)
    requires Reached(bytes, window, es, st) && ServerLoop.Emits(st.server, more, t, sent)
    ensures Reached(bytes, window, es + more, st.(server := t, data := st.data + sent))
  {
    hide Run, Chunks;
    Progress.RunAppend(Wrapping, Init(Chunks(bytes), window), es, more);
    assert State(st.server, st.data, st.client, st.acks) == st;
  }

  lemma TurnFits(bytes: seq<byte>, window: int, es: seq<Event>, t: State, before: seq<Data>, sent: seq<Data>)
    requires Reached(bytes, window, es, t) && t.data == before + sent
    ensures forall i | 0 <= i < |sent| :: FitsData(sent[i])
  {
    hide Reached, FitsData, FitsAck;
    TravelsFit(bytes, window, es, t);
    assert forall i | 0 <= i < |sent| :: sent[i] == t.data[|before| + i];
  }

  lemma MoreCarried(wire: seq<seq<byte>>, ds: seq<Data>, more: seq<seq<byte>>, sent: seq<Data>)
    requires AllData(wire, ds) && AllData(more, sent)
    ensures AllData(wire + more, ds + sent)
  {
    hide CarriesData;
  }

  lemma ReachedAtStart(bytes: seq<byte>, window: int)
    requires window <= MAX_WINDOW
    ensures Reached(bytes, window, [], Init(Chunks(bytes), window))
  {
  }

  // --- the two programs and the wires between them -------------------------------------------

  // What the network can do to the packet at a place: drop it, send it twice, or
  // change one of its bytes.
  datatype Harm = Drop | Double | Spoil(index: nat, b: byte)

  // One doing of a program or of the network.
  datatype Action =
    | ServerTurns(now: real, times: nat -> real, clock: nat)
    | ServerTakesAck(now: real, nowMs: nat)
    | ClientTakesData(clock: nat)
    | ClientProcesses(clock: nat)
    | DataHarmed(at: nat, harm: Harm)
    | AckHarmed(at: nat, harm: Harm)

  // The wire afterwards. A spoilt packet is refused on arrival (SpoiltData,
  // SpoiltAck), so it is as good as dropped.
  function Harmed(wire: seq<seq<byte>>, at: nat, harm: Harm): seq<seq<byte>>
    requires at < |wire|
  {
    if harm.Double? then Duplicate(wire, at) else Lose(wire, at)
  }

  // Spoiling replaces a byte that is there by another one.
  predicate Possible(wire: seq<seq<byte>>, at: nat, harm: Harm) {
    at < |wire| && (harm.Spoil? ==> harm.index < |wire[at]| && wire[at][harm.index] != harm.b)
  }

  class Link {
    const session: ServerLoop.Session
    const client: ClientLoop.SrtpClient
    var data: seq<seq<byte>>
    var acks: seq<seq<byte>>
    var ended: bool                // the client left its loop
    ghost const bytes: seq<byte>
    ghost const window: int
    // The run of the system so far and the state it leads to.
    ghost var es: seq<Event>
    ghost var st: State

    ghost predicate Valid()
      reads this, session, client
    {
      && session.Valid() && client.Valid()
      && Reached(bytes, window, es, st)
      && st.server == session.Model() && st.client == client.Model(ended)
      && AllData(data, st.data) && AllAcks(acks, st.acks)
    }

    constructor (bytes: seq<byte>, window: int, now: real)
      requires window <= MAX_WINDOW
      ensures Valid() && fresh(session) && fresh(client) && this.bytes == bytes && this.window == window
    {
      hide Reached, Chunks;
      ReachedAtStart(bytes, window);
      session := new ServerLoop.Session(Chunks(bytes), window, now);
      client := new ClientLoop.SrtpClient();
      data, acks, ended := [], [], false;
      this.bytes, this.window, es := bytes, window, [];
      st := Init(Chunks(bytes), window);
    }

    // --- what each of the two programs does, told by the wires and the fields --------

    // One turn of the server loop: its packets, in their parts, go on the wire.
    twostate predicate ServerTurned(now: real, parts: ServerLoop.Parts)
      requires old(session.Valid()) && session.Valid()
      reads this, session
    {
      var sent := parts.firsts + parts.overdue + parts.ends + parts.late;
      && ServerLoop.TurnTaken(old(session.Model()), old(session.timers), old(session.lastContact), session.rtt, now,
                              parts, session.Model(), session.timers, session.lastContact)
      && session.rtt == old(session.rtt)
      && old(data) <= data && AllData(data[|old(data)|..], sent)
      && acks == old(acks) && ended == old(ended)
    }

    // The server heard the first acknowledgement on the wire.
    twostate predicate ServerHeard(now: real, nowMs: nat)
      reads this, session
    {
      && old(acks) != [] && acks == old(acks)[1..] && data == old(data) && ended == old(ended)
      && Depackage(old(acks[0])).Accepted?
      && var p := Depackage(old(acks[0])).packet;
      && ServerLoop.HeardBy(old(session.Model()), p.seqnum, p.window,
                            if p.ptype == 3 then SackCodec.DecodeSack(p.payload) else [], session.Model())
      && session.lastContact == now
      && ServerLoop.Smoothed(old(session.rtt), (nowMs - p.timestamp) % 0x1_0000_0000, session.rtt)
    }

    // The client took the first packet on the wire, and answered at once or not.
    twostate predicate ClientTook(answers: seq<Ack>)
      reads this, client
    {
      && old(data) != [] && data == old(data)[1..] && old(acks) <= acks && ended == old(ended)
      && FromSegment20(old(data[0])).Some?
      && var p := FromSegment20(old(data[0])).value;
      && SackClient.Received(old(client.Model(ended)), Data(p.seqnum, p.payload), client.Model(ended), answers)
      && AllAcks(acks[|old(acks)|..], answers)
    }

    // The client went over its window, wrote what is in order and acknowledged.
    twostate predicate ClientWent(written: seq<Data>, answers: seq<Ack>)
      reads this, client
    {
      && data == old(data) && old(acks) <= acks
      && SackClient.Processed(old(client.Model(ended)), written, client.Model(ended), answers)
      && AllAcks(acks[|old(acks)|..], answers)
    }

    method ServerTurn(now: real, times: nat -> real, clock: nat)
      returns (ghost parts: ServerLoop.Parts, ghost more: seq<Event>)
      requires Valid()
      modifies this`data, this`es, this`st, session
      ensures Valid() && es == old(es) + more && ServerLoop.BySending(more) && ServerTurned(now, parts)
    {
      hide Reached, ServerLoop.Emits, AllData, AllAcks, FitsData, ServerLoop.TurnTaken, ServerLoop.BySending;
      hide ServerLoop.Wrapped, ServerLoop.EachOnce;
      var sent;
      sent, more, parts := session.Turn(now, times);
      TurnStepsOn(bytes, window, es, st, more, session.Model(), sent);
      ghost var t := st.(server := session.Model(), data := st.data + sent);
      TurnFits(bytes, window, es + more, t, st.data, sent);
      var wire := EncodeAllData(sent, clock);
      MoreCarried(data, st.data, wire, sent);
      assert (data + wire)[|data|..] == wire;
      data := data + wire;
      es, st := es + more, t;
    }

    // The first acknowledgement on the wire, decoded.
    method FirstAck() returns (p: Packet)
      requires AllAcks(acks, st.acks) && acks != []
      ensures AckPacket(p, st.acks[0]) && Depackage(acks[0]) == Accepted(p)
    {
      hide CarriesAck, AckPacket, Depackage;
      AckIsRead(acks[0], st.acks[0]);
      p := Depackage(acks[0]).packet;
    }

    method ServerTakesAck(now: real, nowMs: nat)
      requires Valid() && acks != []
      modifies this`acks, this`es, this`st, session
      ensures Valid() && es == old(es) + [ServerHears] && ServerHeard(now, nowMs)
    {
      hide Reached, AllData, CarriesAck, OnAck, SackCodec.DecodeSack, SackCodec.Encodable, ServerLoop.Wrapped;
      hide Depackage, ServerLoop.HeardBy, ServerLoop.Smoothed, ServerLoop.EachOnce;
      var p := FirstAck();
      ClientLoop.WireIsHeard(session.Model(), st.acks[0]);
      hide ClientLoop.Wire;
      acks := acks[1..];
      session.HandleAck(p.ptype == PTYPE_SACK, p.window, p.seqnum, p.payload, p.timestamp, now, nowMs);
      StepsOn(bytes, window, es, st, ServerHears);
      es, st := es + [ServerHears], Apply(Wrapping, st, ServerHears);
    }

    // The client reads one packet; SlidingWindow's guard is that of its loop.
    method ClientTakesData(clock: nat) returns (ghost answers: seq<Ack>)
      requires Valid() && !ended && data != [] && |client.window| < SackClient.WINDOW_LEN
      modifies this`data, this`acks, this`es, this`st, client
      ensures Valid() && es == old(es) + [ClientReceives] && ClientTook(answers)
    {
      hide Reached, CarriesData, CarriesAck, SackClient.OnData, FromSegment20, FitsData, FitsAck, ClientLoop.Wires;
      hide SackClient.Received;
      DataIsRead(data[0], st.data[0]);
      TravelsFit(bytes, window, es, st);
      assert FitsData(st.data[0]);
      NumFits(st.data[0]);
      var p := FromSegment20(data[0]).value;
      data := data[1..];
      var _, segments := client.ProcessPacket(Data(p.seqnum, p.payload));
      StepsOn(bytes, window, es, st, ClientReceives);
      ghost var t := Apply(Wrapping, st, ClientReceives);
      es := es + [ClientReceives];
      answers := SackClient.OnData(Wrapping, st.client, st.data[0]).1;
      Answer(segments, clock, answers, t);
    }

    method ClientProcesses(clock: nat) returns (ghost written: seq<Data>, ghost answers: seq<Ack>)
      requires Valid() && !ended
      modifies this`acks, this`es, this`st, this`ended, client
      ensures Valid() && es == old(es) + [ClientWrites] && ClientWent(written, answers)
    {
      hide Reached, CarriesData, CarriesAck, SackClient.ProcessWindow, FitsAck, ClientLoop.Wires, SackClient.Processed;
      var more, segments;
      more, segments, written := client.ProcessWindow();
      ended := !more;
      StepsOn(bytes, window, es, st, ClientWrites);
      ghost var t := Apply(Wrapping, st, ClientWrites);
      es := es + [ClientWrites];
      answers := SackClient.ProcessWindow(Wrapping, st.client).1;
      Answer(segments, clock, answers, t);
    }

    // Puts the client's acknowledgements on the wire.
    method Answer(segments: seq<ClientLoop.Segment>, clock: nat, ghost sent: seq<Ack>, ghost t: State)
      requires session.Valid() && client.Valid() && Reached(bytes, window, es, t)
      requires t.server == session.Model() && t.client == client.Model(ended)
      requires AllData(data, t.data) && AllAcks(acks, st.acks)
      requires t.acks == st.acks + sent && ClientLoop.Wires(sent, segments)
      modifies this`acks, this`st
      ensures Valid() && st == t && old(acks) <= acks && AllAcks(acks[|old(acks)|..], sent)
    {
      hide Reached, CarriesData, CarriesAck, FitsAck, ClientLoop.Wires;
      TravelsFit(bytes, window, es, t);
      assert forall i | 0 <= i < |sent| :: sent[i] == t.acks[|st.acks| + i];
      var wire := EncodeAllAcks(segments, clock, sent);
      assert (acks + wire)[|acks|..] == wire;
      acks := acks + wire;
      st := t;
    }

    // What the client makes of a packet that had a byte changed.
    method SpoiltData(at: nat, index: nat, b: byte) returns (p: Option<Packet>)
      requires AllData(data, st.data) && Possible(data, at, Spoil(index, b))
      ensures p == None
    {
      hide CarriesData, FromSegment20;
      DataIsRefused(data[at], st.data[at], index, b);
      p := FromSegment20(data[at][index := b]);
    }

    // What the server makes of one.
    method SpoiltAck(at: nat, index: nat, b: byte) returns (p: Parsed)
      requires AllAcks(acks, st.acks) && Possible(acks, at, Spoil(index, b))
      ensures p == Rejected
    {
      hide CarriesAck, Depackage;
      AckIsRefused(acks[at], st.acks[at], index, b);
      p := Depackage(acks[at][index := b]);
    }

    method HarmData(at: nat, harm: Harm)
      requires Valid() && Possible(data, at, harm)
      modifies this`data, this`es, this`st
      ensures Valid() && data == Harmed(old(data), at, harm)
      ensures es == old(es) + [if harm.Double? then DataDoubled(at) else DataLost(at)]
    {
      hide Reached, CarriesData, AllAcks, ServerLoop.Wrapped;
      ghost var e := if harm.Double? then DataDoubled(at) else DataLost(at);
      StepsOn(bytes, window, es, st, e);
      data := Harmed(data, at, harm);
      es, st := es + [e], Apply(Wrapping, st, e);
    }

    method HarmAck(at: nat, harm: Harm)
      requires Valid() && Possible(acks, at, harm)
      modifies this`acks, this`es, this`st
      ensures Valid() && acks == Harmed(old(acks), at, harm)
      ensures es == old(es) + [if harm.Double? then AckDoubled(at) else AckLost(at)]
    {
      hide Reached, CarriesAck, AllData, ServerLoop.Wrapped;
      ghost var e := if harm.Double? then AckDoubled(at) else AckLost(at);
      StepsOn(bytes, window, es, st, e);
      acks := Harmed(acks, at, harm);
      es, st := es + [e], Apply(Wrapping, st, e);
    }

    // Which action can happen now.
    predicate MayHappen(a: Action)
      reads this, client
    {
      match a
      case ServerTurns(_, _, _) => true
      case ServerTakesAck(_, _) => acks != []
      case ClientTakesData(_) => !ended && data != [] && |client.window| < 63
      case ClientProcesses(_) => !ended
      case DataHarmed(at, harm) => Possible(data, at, harm)
      case AckHarmed(at, harm) => Possible(acks, at, harm)
    }

    // What it does: parts are the packets the server sends, written those the client
    // writes, answers what it acknowledges.
    twostate predicate Happened(a: Action, parts: ServerLoop.Parts, written: seq<Data>, answers: seq<Ack>)
      requires old(session.Valid()) && session.Valid()
      reads this, session, client
    {
      match a
      case ServerTurns(now, _, _) => ServerTurned(now, parts) && unchanged(client)
      case ServerTakesAck(now, nowMs) => ServerHeard(now, nowMs) && unchanged(client)
      case ClientTakesData(_) => ClientTook(answers) && unchanged(session)
      case ClientProcesses(_) => ClientWent(written, answers) && unchanged(session)
      case DataHarmed(at, harm) =>
        old(at < |data|) && data == Harmed(old(data), at, harm) && acks == old(acks) && ended == old(ended)
        && unchanged(session, client)
      case AckHarmed(at, harm) =>
        old(at < |acks|) && acks == Harmed(old(acks), at, harm) && data == old(data) && ended == old(ended)
        && unchanged(session, client)
    }

    // Any action; one that is not possible now does nothing.
    method Perform(a: Action)
      returns (ghost parts: ServerLoop.Parts, ghost written: seq<Data>, ghost answers: seq<Ack>)
      requires Valid()
      modifies this, session, client
      ensures Valid()
      ensures old(MayHappen(a)) ==> Happened(a, parts, written, answers)
      ensures !old(MayHappen(a)) ==> unchanged(this, session, client)
    {
      hide Reached, AllData, AllAcks, ServerLoop.TurnTaken, ServerLoop.HeardBy, ServerLoop.Smoothed;
      hide SackClient.Received, SackClient.Processed, ServerLoop.Wrapped, ServerLoop.EachOnce;
      parts, written, answers := ServerLoop.Parts([], [], [], []), [], [];
      if MayHappen(a) {
        match a {
          case ServerTurns(now, times, clock) =>
            ghost var more;
            parts, more := ServerTurn(now, times, clock);
          case ServerTakesAck(now, nowMs) => ServerTakesAck(now, nowMs);
          case ClientTakesData(clock) => answers := ClientTakesData(clock);
          case ClientProcesses(clock) => written, answers := ClientProcesses(clock);
          case DataHarmed(at, harm) =>
            if harm.Spoil? {
              var p := SpoiltData(at, harm.index, harm.b);
              assert p == None;
            }
            HarmData(at, harm);
          case AckHarmed(at, harm) =>
            if harm.Spoil? {
              var p := SpoiltAck(at, harm.index, harm.b);
              assert p == Rejected;
            }
            HarmAck(at, harm);
        }
      }
    }

    // What the client wrote is a prefix of the file, and all of it once the
    // server sent the end-of-file packet or the client met it.
    lemma IsSafe()
      requires Valid()
      ensures Concat(client.file) <= bytes
      ensures session.finSent || ended ==> Concat(client.file) == bytes
    {
      hide Run, Chunks, Concat;
      OutputIsPrefixOfFile(bytes, window, es);
    }
  }

  lemma NumFits(d: Data)
    requires FitsData(d)
    ensures d.num < MODULUS
  {
  }

  // Main result: from the start of a transfer, any interleaving of what the two
  // programs do with loss, duplication and corruption on the way.
  method Interleave(bytes: seq<byte>, window: int, start: real, actions: seq<Action>) returns (link: Link)
    requires window <= MAX_WINDOW
    ensures fresh(link) && fresh(link.session) && fresh(link.client) && link.Valid()
    ensures link.bytes == bytes && link.window == window
    ensures Concat(link.client.file) <= bytes
    ensures link.session.finSent || link.ended ==> Concat(link.client.file) == bytes
  {
    link := new Link(bytes, window, start);
    for i := 0 to |actions|
      invariant fresh(link) && fresh(link.session) && fresh(link.client) && link.Valid()
    {
      var _, _, _ := link.Perform(actions[i]);
    }
    link.IsSafe();
  }
}
