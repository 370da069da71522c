// src/server.py sending to src/client.py over a network that may lose,
// duplicate and reorder without any bound. The client has no receive window, so
// this is about files of at most 744 chunks, whose numbers never wrap.
module BoundedFile {
  import opened SeqNums
  import opened Packets
  import opened ServerSession
  import opened LogNetwork
  import SackClient
  import SackCodec

  const MAX_CHUNKS: nat := SackCodec.MAX_SACK_SEQNUMS

  // An acknowledgement with its payload as sent: empty for an ACK.
  datatype RawAck = RawAck(num: nat, window: int, payload: seq<byte>)

  // --- src/client.py ---------------------------------------------------------------

  // buffer is the dictionary in insertion order, one entry a number.
  datatype Client = Client(expected: nat, buffer: seq<Data>, output: seq<Chunk>, done: bool)

  function NewClient(): Client {
    Client(0, [], [], false)
  }

  // A payload takes the place of one stored under the same number.
  function Store(buffer: seq<Data>, d: Data): (r: seq<Data>)
    ensures |r| > 0
  {
    var i := SackClient.IndexOf(buffer, d.num);
    if i < |buffer| then buffer[i := d] else buffer + [d]
  }

  // Write the buffered packet at position i and delete it.
  function WriteBuffered(c: Client, i: nat): (r: Client)
    requires i < |c.buffer|
    ensures |r.buffer| < |c.buffer|
  {
    c.(output := c.output + [c.buffer[i].payload],
       buffer := SackClient.Without(c.buffer, i),
       expected := Add(Wrapping, c.expected, 1))
  }

  // Write what is buffered in order.
  function Flush(c: Client): Client
    decreases |c.buffer|
  {
    var i := SackClient.IndexOf(c.buffer, c.expected);
    if i == |c.buffer| then c else Flush(WriteBuffered(c, i))
  }

  function Take(c: Client, d: Data): Client {
    if d.num == c.expected then
      Flush(c.(output := c.output + [d.payload], expected := Add(Wrapping, c.expected, 1)))
    else c.(buffer := Store(c.buffer, d))
  }

  function Keys(buffer: seq<Data>): seq<nat> {
    seq(|buffer|, i requires 0 <= i < |buffer| => buffer[i].num)
  }

  // An ACK when nothing is buffered, otherwise a SACK naming every buffered number.
  function MakeAck(c: Client): RawAck {
    RawAck(c.expected, 63, SackCodec.EncodeSack(Keys(c.buffer)))
  }

  // One DATA packet: the new state and the acknowledgements sent.
  function OnData(c: Client, d: Data): (Client, seq<RawAck>) {
    if d.payload == [] then
      if d.num == c.expected then (c.(done := true), [RawAck(c.expected, 63, [])]) else (c, [])
    else
      var c1 := Take(c, d);
      (c1, [MakeAck(c1)])
  }

  // --- the system -------------------------------------------------------------------

  type State = LogState<Client, RawAck>

  function Init(file: seq<Chunk>, window: int): State {
    LogState(NewServer(file, window), NewClient(), [], [])
  }

  predicate Enabled(st: State, e: Event) {
    match e
    case DataArrives(at) => at < |st.sent| && !st.client.done
    case AckArrives(at) => at < |st.acks|
    case _ => MaySend(Wrapping, st.server, e)
  }

  function Apply(st: State, e: Event): State
    requires Enabled(st, e)
  {
    match e
    case DataArrives(at) =>
      var (client, acks) := OnData(st.client, st.sent[at]);
      st.(client := client, acks := st.acks + acks)
    case AckArrives(at) =>
      var a := st.acks[at];
      st.(server := OnAck(Wrapping, st.server, a.num, a.window, SackCodec.ToSet(SackCodec.DecodeSack(a.payload))))
    case _ => ApplySend(Wrapping, st, e)
  }

  function Run(st: State, es: seq<Event>): Option<State>
    decreases |es|
  {
    if es == [] then Some(st)
    else if Enabled(st, es[0]) then Run(Apply(st, es[0]), es[1..])
    else None
  }

  // --- the invariant ------------------------------------------------------------------

  // k has been written or is buffered.
  ghost predicate Holds(c: Client, k: nat) {
    k < c.expected || k in Nums(c.buffer)
  }

  ghost predicate BufferOk(file: seq<Chunk>, next: nat, c: Client) {
    && c.expected <= next <= |file| && c.output == file[..c.expected]
    && Distinct(c.buffer)
    && forall d | d in c.buffer :: d.num < next && d.payload == file[d.num]
  }

  // An acknowledgement tells only what the client holds, and fits in a packet.
  ghost predicate AckOk(c: Client, a: RawAck) {
    && a.num <= c.expected
    && |a.payload| <= MAX_PAYLOAD && a.window == 63
    && forall k | k in SackCodec.DecodeSack(a.payload) :: Holds(c, k)
  }

  ghost predicate Inv(file: seq<Chunk>, st: State) {
    && |file| <= MAX_CHUNKS && (forall i | 0 <= i < |file| :: file[i] != [])
    && SessionOk(file, st.server)
    && BufferOk(file, st.server.next, st.client) && st.client.expected !in Nums(st.client.buffer)
    && st.server.base <= st.client.expected
    && (forall k: nat | Forgotten(st.server, k) :: Holds(st.client, k))
    && (st.client.done ==> st.client.expected == |file|)
    && AllTravel(file, st.server, st.sent)
    && (forall i | 0 <= i < |st.acks| :: AckOk(st.client, st.acks[i]))
  }

  // The end-of-file packet is sent only after complete delivery.
  lemma FinMeansAllWritten(file: seq<Chunk>, st: State)
    requires Inv(file, st) && st.server.unacked == map[] && st.server.eof
    ensures st.client.expected == |file| && st.client.output == file
  {
    assert file[..|file|] == file;
    assert st.client.expected < |file| ==> Holds(st.client, st.client.expected);
  }

  lemma WriteBufferedKeeps(file: seq<Chunk>, next: nat, c: Client, i: nat)
    requires BufferOk(file, next, c) && |file| < MODULUS
    requires i < |c.buffer| && c.buffer[i].num == c.expected
    ensures var w := WriteBuffered(c, i);
            && BufferOk(file, next, w) && w.done == c.done && w.expected == c.expected + 1
            && forall k :: Holds(c, k) ==> Holds(w, k)
  {
    assert c.buffer[i] in c.buffer;
    SackClient.WithoutNums(c.buffer, i);
    hide SackClient.Without;
    assert file[..c.expected + 1] == file[..c.expected] + [file[c.expected]];
  }

  lemma {:induction false} FlushKeeps(file: seq<Chunk>, next: nat, c: Client)
    requires BufferOk(file, next, c) && |file| < MODULUS
    ensures var f := Flush(c);
            && BufferOk(file, next, f) && f.expected !in Nums(f.buffer) && f.done == c.done
            && f.expected >= c.expected && forall k :: Holds(c, k) ==> Holds(f, k)
    decreases |c.buffer|
  {
    var i := SackClient.IndexOf(c.buffer, c.expected);
    SackClient.IndexedIffHeld(c.buffer, c.expected);
    if i < |c.buffer| {
      WriteBufferedKeeps(file, next, c, i);
      var w := WriteBuffered(c, i);
      assert Flush(c) == Flush(w);
      hide BufferOk, Holds, Flush;
      FlushKeeps(file, next, w);
    }
  }

  lemma StoreKeeps(buffer: seq<Data>, d: Data)
    requires Distinct(buffer)
    ensures Distinct(Store(buffer, d)) && Nums(Store(buffer, d)) == Nums(buffer) + {d.num}
    ensures forall x | x in Store(buffer, d) :: x == d || x in buffer
  {
    var i := SackClient.IndexOf(buffer, d.num);
    if i < |buffer| {
      var r := buffer[i := d];
      forall k | k in Nums(buffer) ensures k in Nums(r) {
        var j :| 0 <= j < |buffer| && buffer[j].num == k;
        assert r[j] in r && r[j].num == k;
      }
      assert r[i] in r;
    } else {
      NumsAppend(buffer, d);
    }
  }

  lemma TakeKeeps(file: seq<Chunk>, next: nat, c: Client, d: Data)
    requires BufferOk(file, next, c) && c.expected !in Nums(c.buffer) && |file| < MODULUS
    requires d.num < next && d.payload == file[d.num]
    ensures var t := Take(c, d);
            && BufferOk(file, next, t) && t.expected !in Nums(t.buffer) && t.done == c.done
            && t.expected >= c.expected && Holds(t, d.num) && forall k :: Holds(c, k) ==> Holds(t, k)
  {
    if d.num == c.expected {
      assert file[..c.expected + 1] == file[..c.expected] + [file[c.expected]];
      FlushKeeps(file, next, c.(output := c.output + [d.payload], expected := c.expected + 1));
    } else {
      StoreKeeps(c.buffer, d);
    }
  }

  // The SACK the client builds fits in a packet and names only what it holds.
  lemma MakeAckOk(file: seq<Chunk>, next: nat, c: Client)
    requires BufferOk(file, next, c) && |file| <= MAX_CHUNKS
    ensures AckOk(c, MakeAck(c))
  {
    var keys := Keys(c.buffer);
    forall i | 0 <= i < |keys| ensures keys[i] < |file| && keys[i] in Nums(c.buffer) {
      assert c.buffer[i] in c.buffer;
    }
    NumsSize(c.buffer);
    SubsetSize(Nums(c.buffer), Range(0, |file|));
    SackCodec.SackPayloadSize(keys);
    forall k | k in SackCodec.DecodeSack(SackCodec.EncodeSack(keys)) ensures Holds(c, k) {
      SackCodec.DecodeInventsNothing(keys, k);
    }
  }

  // With an empty buffer the acknowledgement is the plain one.
  lemma NothingToName(c: Client)
    ensures c.buffer == [] ==> MakeAck(c) == RawAck(c.expected, 63, [])
  {
    if c.buffer == [] {
      assert Keys(c.buffer) == [];
    }
  }

  lemma EmptyAckOk(c: Client)
    ensures AckOk(c, RawAck(c.expected, 63, []))
  {
    SackCodec.DecodeOfEncode([]);
    assert SackCodec.EncodeSack([]) == [];
  }

  lemma OnDataKeeps(file: seq<Chunk>, s: Server, c: Client, d: Data)
    requires |file| <= MAX_CHUNKS && BufferOk(file, s.next, c) && c.expected !in Nums(c.buffer) && !c.done
    requires Travels(file, s, d)
    ensures var (t, acks) := OnData(c, d);
            && BufferOk(file, s.next, t) && t.expected !in Nums(t.buffer)
            && (t.done ==> t.expected == |file|)
            && t.expected >= c.expected && (forall k :: Holds(c, k) ==> Holds(t, k))
            && forall i | 0 <= i < |acks| :: AckOk(t, acks[i])
  {
    if d.payload == [] {
      EmptyAckOk(c.(done := true));
    } else {
      TakeKeeps(file, s.next, c, d);
      hide Take;
      MakeAckOk(file, s.next, Take(c, d));
    }
  }

  lemma DataArrivesKeeps(file: seq<Chunk>, st: State, at: nat)
    requires Inv(file, st) && Enabled(st, DataArrives(at))
    ensures Inv(file, Apply(st, DataArrives(at)))
  {
    hide OnData, SessionOk, BufferOk, Travels;
    OnDataKeeps(file, st.server, st.client, st.sent[at]);
    var (t, acks) := OnData(st.client, st.sent[at]);
    forall i | 0 <= i < |st.acks| ensures AckOk(t, st.acks[i]) {
      assert AckOk(st.client, st.acks[i]);
    }
  }

  // No acknowledgement is taken for a new one when it is old, and what it
  // removes from memory the client holds.
  lemma OnAckKeeps(file: seq<Chunk>, s: Server, c: Client, a: RawAck)
    requires |file| <= MAX_CHUNKS && SessionOk(file, s) && AckOk(c, a) && c.expected <= s.next && s.base <= c.expected
    requires forall k: nat | Forgotten(s, k) :: Holds(c, k)
    ensures var t := OnAck(Wrapping, s, a.num, a.window, SackCodec.ToSet(SackCodec.DecodeSack(a.payload)));
            && SessionOk(file, t) && t.base <= c.expected
            && t.next == s.next && t.finSent == s.finSent && t.window == a.window
            && forall k: nat | Forgotten(t, k) :: Holds(c, k)
  {
    hide SackCodec.DecodeSack, OnAck;
    var shown := SackCodec.ToSet(SackCodec.DecodeSack(a.payload));
    OnAckMemory(Wrapping, file, s, a.num, a.window, shown);
    OnAckKeepsSession(Wrapping, file, s, a.num, a.window, shown);
  }

  lemma AckArrivesKeeps(file: seq<Chunk>, st: State, at: nat)
    requires Inv(file, st) && Enabled(st, AckArrives(at))
    ensures Inv(file, Apply(st, AckArrives(at)))
  {
    assert st.client.expected <= st.server.next;
    hide OnAck, SessionOk, SackCodec.DecodeSack, BufferOk;
    OnAckKeeps(file, st.server, st.client, st.acks[at]);
    var st1 := Apply(st, AckArrives(at));
    TravelOn(file, st.server, st1.server, st.sent, []);
    assert st.sent + [] == st.sent;
  }

  lemma SendKeeps(file: seq<Chunk>, st: State, e: Event)
    requires Inv(file, st) && Sends(e) && MaySend(Wrapping, st.server, e)
    ensures Inv(file, ApplySend(Wrapping, st, e))
  {
    SendTravels(Wrapping, file, st.server, e);
    SendKeepsSession(Wrapping, file, st.server, e);
    hide Send, SessionOk, AllTravel, MaySend, AckOk;
    var (t, more) := Send(Wrapping, st.server, e);
    TravelOn(file, st.server, t, st.sent, more);
  }

  lemma StepKeeps(file: seq<Chunk>, st: State, e: Event)
    requires Inv(file, st) && Enabled(st, e)
    ensures Inv(file, Apply(st, e))
  {
    match e
    case DataArrives(at) => DataArrivesKeeps(file, st, at);
    case AckArrives(at) => AckArrivesKeeps(file, st, at);
    case _ => SendKeeps(file, st, e);
  }

  lemma {:induction false} RunKeeps(file: seq<Chunk>, st: State, es: seq<Event>)
    requires Inv(file, st) && Run(st, es).Some?
    ensures Inv(file, Run(st, es).value)
    decreases |es|
  {
    if es != [] {
      StepKeeps(file, st, es[0]);
      RunKeeps(file, Apply(st, es[0]), es[1..]);
    }
  }

  // What the invariant says of a state.
  lemma InvIsSafe(file: seq<Chunk>, st: State)
    requires Inv(file, st)
    ensures st.client.output <= file && (st.server.finSent || st.client.done ==> st.client.output == file)
    ensures forall k: nat | Forgotten(st.server, k) :: Holds(st.client, k)
    ensures FitsPackets(st)
  {
    if st.server.finSent {
      FinMeansAllWritten(file, st);
    }
    assert file[..|file|] == file;
    hide Holds, Forgotten;
    forall i | 0 <= i < |st.acks| ensures |st.acks[i].payload| <= MAX_PAYLOAD {
      assert AckOk(st.client, st.acks[i]);
    }
  }

  predicate FitsPackets(st: State) {
    forall i | 0 <= i < |st.acks| :: |st.acks[i].payload| <= MAX_PAYLOAD
  }

  lemma InitInv(file: seq<Chunk>, window: int)
    requires |file| <= MAX_CHUNKS && forall i | 0 <= i < |file| :: file[i] != []
    ensures Inv(file, Init(file, window))
  {
    assert file[0..] == file;
  }

  // Main result, for every file of at most 744 chunks and every run: the output
  // is a prefix of the file, all of it once the end-of-file packet was sent or
  // accepted; every number missing from the server's memory is held by the
  // client; and every SACK fits in a packet.
  lemma ShortFilesAreSafe(bytes: seq<byte>, window: int, es: seq<Event>)
    requires |Chunks(bytes)| <= MAX_CHUNKS && Run(Init(Chunks(bytes), window), es).Some?
    ensures var st := Run(Init(Chunks(bytes), window), es).value;
            && Concat(st.client.output) <= bytes
            && (st.server.finSent || st.client.done ==> Concat(st.client.output) == bytes)
            && (forall k: nat | Forgotten(st.server, k) :: Holds(st.client, k))
            && FitsPackets(st)
  {
    hide Inv, Run, Chunks, Concat, FitsPackets;
    var file := Chunks(bytes);
    ChunksOfFile(bytes);
    assert forall i | 0 <= i < |file| :: file[i] in file;
    InitInv(file, window);
    RunKeeps(file, Init(file, window), es);
    var st := Run(Init(file, window), es).value;
    InvIsSafe(file, st);
    ConcatPrefix(st.client.output, file);
  }

  // --- every transfer can be completed ------------------------------------------------

  lemma {:induction false} RunAppend(st: State, a: seq<Event>, b: seq<Event>)
    requires Run(st, a).Some?
    ensures Run(st, a + b) == Run(Run(st, a).value, b)
    decreases |a|
  {
    if a == [] {
      assert a + b == b;
    } else {
      assert (a + b)[0] == a[0] && (a + b)[1..] == a[1..] + b;
      RunAppend(Apply(st, a[0]), a[1..], b);
    }
  }

  lemma RunOneMore(st: State, es: seq<Event>, e: Event)
    requires Run(st, es).Some? && Enabled(Run(st, es).value, e)
    ensures Run(st, es + [e]) == Some(Apply(Run(st, es).value, e))
  {
    RunAppend(st, es, [e]);
    assert [e][1..] == [];
    assert Run(Apply(Run(st, es).value, e), []).Some?;
  }

  // The acknowledgement the client sends for packet k makes the server forget k.
  lemma AckForgets(file: seq<Chunk>, s: Server, c: Client, k: nat)
    requires |file| <= MAX_CHUNKS && SessionOk(file, s) && BufferOk(file, s.next, c) && s.base <= c.expected
    requires c.expected !in Nums(c.buffer) && Holds(c, k)
    ensures var a := MakeAck(c);
            k !in OnAck(Wrapping, s, a.num, a.window, SackCodec.ToSet(SackCodec.DecodeSack(a.payload))).unacked
  {
    hide SackCodec.DecodeSack, SackCodec.EncodeSack, OnAck;
    var keys := Keys(c.buffer);
    var shown := SackCodec.ToSet(SackCodec.DecodeSack(SackCodec.EncodeSack(keys)));
    OnAckMemory(Wrapping, file, s, c.expected, 63, shown);
    if k > c.expected {
      forall i | 0 <= i < |keys| ensures keys[i] < |file| {
        assert c.buffer[i] in c.buffer;
      }
      var i :| 0 <= i < |c.buffer| && c.buffer[i].num == k;
      assert keys[i] == k;
      SackCodec.DecodeInventsNothing(keys, k);
    }
  }

  // Sending k again, delivering it and delivering the answer.
  function Round(st: State, k: nat): seq<Event>
    requires st.server.base <= k
  {
    [ServerResends(k - st.server.base), DataArrives(|st.sent|), AckArrives(|st.acks|)]
  }

  ghost predicate Open(file: seq<Chunk>, st: State) {
    Inv(file, st) && st.server.window >= 1
  }

  lemma StepKeepsOpen(file: seq<Chunk>, st: State, e: Event)
    requires Open(file, st) && Enabled(st, e)
    ensures Open(file, Apply(st, e))
  {
    StepKeeps(file, st, e);
    hide Inv;
    assert e.AckArrives? ==> AckOk(st.client, st.acks[e.at]) by {
      assert Inv(file, st);
    }
  }

  lemma ResendArrives(file: seq<Chunk>, st: State, k: nat)
    requires Open(file, st) && !st.client.done && k in st.server.unacked
    ensures st.server.base <= k && Enabled(st, ServerResends(k - st.server.base))
    ensures var c := Take(st.client, Data(k, st.server.unacked[k]));
            && Holds(c, k) && c.expected !in Nums(c.buffer)
            && st.server.base <= c.expected && BufferOk(file, st.server.next, c) && !c.done
    ensures var st1 := Apply(st, ServerResends(k - st.server.base));
            && Open(file, st1) && Enabled(st1, DataArrives(|st.sent|))
            && var c := Take(st.client, Data(k, st.server.unacked[k]));
               Apply(st1, DataArrives(|st.sent|)) == st1.(client := c, acks := st.acks + [MakeAck(c)])
  {
    var d := Data(k, st.server.unacked[k]);
    assert Add(Wrapping, st.server.base, k - st.server.base) == k;
    var st1 := Apply(st, ServerResends(k - st.server.base));
    assert st1 == st.(sent := st.sent + [d]);
    TakeKeeps(file, st.server.next, st.client, d);
    StepKeepsOpen(file, st, ServerResends(k - st.server.base));
    hide Take, MakeAck, BufferOk, Holds;
    assert st1.sent[|st.sent|] == d;
  }

  lemma RoundForgets(file: seq<Chunk>, st: State, k: nat)
    requires Open(file, st) && !st.client.done && k in st.server.unacked
    ensures st.server.base <= k && Run(st, Round(st, k)).Some?
    ensures var t := Run(st, Round(st, k)).value;
            && Open(file, t) && t.server.unacked.Keys < st.server.unacked.Keys
            && t.server == st.server.(base := t.server.base, window := 63, unacked := t.server.unacked)
  {
    hide Take, MakeAck, BufferOk, Holds, Run, Inv, SessionOk, OnAck, SackCodec.DecodeSack;
    var s, c := st.server, Take(st.client, Data(k, st.server.unacked[k]));
    ResendArrives(file, st, k);
    var e1, e2, e3 := ServerResends(k - s.base), DataArrives(|st.sent|), AckArrives(|st.acks|);
    var st1 := Apply(st, e1);
    var st2 := Apply(st1, e2);
    StepKeepsOpen(file, st1, e2);
    ShortServer(file, st);
    AckForgets(file, s, c, k);
    AnswerEffect(file, st2);
    StepKeepsOpen(file, st2, e3);
    ThreeSteps(st, e1, e2, e3);
  }

  lemma ShortServer(file: seq<Chunk>, st: State)
    requires Inv(file, st)
    ensures |file| <= MAX_CHUNKS && SessionOk(file, st.server)
  {
  }

  lemma AnswerEffect(file: seq<Chunk>, st: State)
    requires Inv(file, st) && st.acks != []
    ensures var s := Apply(st, AckArrives(|st.acks| - 1)).server;
            && s.unacked.Keys <= st.server.unacked.Keys
            && s == st.server.(base := s.base, window := 63, unacked := s.unacked)
  {
    hide SackCodec.DecodeSack, OnAck;
    var a := st.acks[|st.acks| - 1];
    assert AckOk(st.client, a);
    OnAckMemory(Wrapping, file, st.server, a.num, a.window, SackCodec.ToSet(SackCodec.DecodeSack(a.payload)));
  }

  lemma ThreeSteps(st: State, a: Event, b: Event, c: Event)
    requires Enabled(st, a) && Enabled(Apply(st, a), b) && Enabled(Apply(Apply(st, a), b), c)
    ensures Run(st, [a, b, c]) == Some(Apply(Apply(Apply(st, a), b), c))
  {
    hide Apply, Enabled;
    assert [a, b, c][1..] == [b, c] && [b, c][1..] == [c] && [c][1..] == [];
    var st2 := Apply(Apply(st, a), b);
    assert Run(Apply(st2, c), []) == Some(Apply(st2, c));
    assert Run(st2, [c]) == Some(Apply(st2, c));
    assert Run(Apply(st, a), [b, c]) == Run(st2, [c]);
  }

  // With everything forgotten and the file at its end, the end-of-file packet
  // ends the transfer.
  lemma EndIsAccepted(file: seq<Chunk>, st: State)
    requires Open(file, st) && !st.client.done && st.server.unacked == map[] && st.server.eof
    ensures Run(st, [ServerEnds, DataArrives(|st.sent|)]).Some?
    ensures var t := Run(st, [ServerEnds, DataArrives(|st.sent|)]).value; Open(file, t) && t.client.done
  {
    FinMeansAllWritten(file, st);
    var st1 := Apply(st, ServerEnds);
    StepKeepsOpen(file, st, ServerEnds);
    var e := DataArrives(|st.sent|);
    assert st1.sent[|st.sent|] == Data(|file|, []);
    var st2 := Apply(st1, e);
    StepKeepsOpen(file, st1, e);
    assert [ServerEnds, e][1..] == [e] && [e][1..] == [];
    assert Run(st2, []) == Some(st2);
  }

  lemma {:induction false} Completes(file: seq<Chunk>, st: State) returns (es: seq<Event>)
    requires Open(file, st)
    ensures Run(st, es).Some? && Inv(file, Run(st, es).value) && Run(st, es).value.client.done
    decreases |file| - st.server.next, !st.server.eof, |st.server.unacked.Keys|
  {
    hide Inv, Apply, Run;
    if st.client.done {
      es := [];
      RunNothing(st);
    } else if st.server.unacked.Keys != {} {
      var k :| k in st.server.unacked.Keys;
      RoundForgets(file, st, k);
      var t := Run(st, Round(st, k)).value;
      SmallerSet(t.server.unacked.Keys, st.server.unacked.Keys);
      var rest := Completes(file, t);
      RunAppend(st, Round(st, k), rest);
      es := Round(st, k) + rest;
    } else if st.server.eof {
      EndIsAccepted(file, st);
      es := [ServerEnds, DataArrives(|st.sent|)];
    } else {
      FillGoesOn(file, st);
      RunOneEvent(st, ServerFills);
      var rest := Completes(file, Apply(st, ServerFills));
      RunAppend(st, [ServerFills], rest);
      es := [ServerFills] + rest;
    }
  }

  lemma RunNothing(st: State)
    ensures Run(st, []) == Some(st)
  {
  }

  lemma RunOneEvent(st: State, e: Event)
    requires Enabled(st, e)
    ensures Run(st, [e]) == Some(Apply(st, e))
  {
    RunNothing(st);
    RunOneMore(st, [], e);
    assert [] + [e] == [e];
  }

  lemma FillGoesOn(file: seq<Chunk>, st: State)
    requires Open(file, st) && st.server.unacked.Keys == {} && !st.server.eof
    ensures Enabled(st, ServerFills) && Open(file, Apply(st, ServerFills))
    ensures var t := Apply(st, ServerFills);
            (t.server.eof && t.server.next == st.server.next) || st.server.next < t.server.next <= |file|
    ensures Inv(file, st)
  {
    assert |st.server.unacked| == |st.server.unacked.Keys|;
    StepKeepsOpen(file, st, ServerFills);
  }

  lemma SmallerSet<T>(a: set<T>, b: set<T>)
    requires a < b
    ensures |a| < |b|
  {
    var x :| x in b && x !in a;
    SubsetSize(a, b - {x});
  }

  // From every reachable state of a short transfer, with a network however bad
  // so far, some continuation ends with exactly the file written.
  lemma AlwaysCompletable(bytes: seq<byte>, window: int, es: seq<Event>)
    requires |Chunks(bytes)| <= MAX_CHUNKS && window >= 1
    requires Run(Init(Chunks(bytes), window), es).Some?
    ensures exists more, t :: Run(Init(Chunks(bytes), window), es + more) == Some(t)
              && t.client.done && Concat(t.client.output) == bytes
  {
    var file := Chunks(bytes);
    var init := Init(file, window);
    ChunksOfFile(bytes);
    assert forall i | 0 <= i < |file| :: file[i] in file;
    assert file[0..] == file;
    RunKeepsOpen(file, init, es);
    var more := Completes(file, Run(init, es).value);
    RunAppend(init, es, more);
    ShortFilesAreSafe(bytes, window, es + more);
    assert Run(init, es + more) == Some(Run(init, es + more).value);
  }

  lemma {:induction false} RunKeepsOpen(file: seq<Chunk>, st: State, es: seq<Event>)
    requires Open(file, st) && Run(st, es).Some?
    ensures Open(file, Run(st, es).value)
    decreases |es|
  {
    if es != [] {
      StepKeepsOpen(file, st, es[0]);
      RunKeepsOpen(file, Apply(st, es[0]), es[1..]);
    }
  }

  // --- why 744 ------------------------------------------------------------------------

  // The first n chunks went through without disturbance, one at a time.
  ghost predicate Delivered(file: seq<Chunk>, n: nat, st: State) {
    && n <= |file| && st.sent == Firsts(file, n)
    && st.client == Client(n, [], file[..n], false)
    && st.server.window >= 1
    && st.server == Server(n, n, map[], st.server.window, file[n..], false, false)
  }

  lemma OneChunk(file: seq<Chunk>, n: nat, st: State)
    requires Delivered(file, n, st) && n < |file| && n < MODULUS - 1 && file[n] != []
    ensures Enabled(st, ServerFills)
    ensures Enabled(Apply(st, ServerFills), DataArrives(n))
    ensures var st2 := Apply(Apply(st, ServerFills), DataArrives(n));
            && Enabled(st2, AckArrives(|st.acks|))
            && Delivered(file, n + 1, Apply(st2, AckArrives(|st.acks|)))
  {
    var st1 := Apply(st, ServerFills);
    assert st1.sent == Firsts(file, n + 1);
    assert st1.server == Server(n, n + 1, map[n := file[n]], st.server.window, file[n + 1..], false, false);
    var c := Client(n + 1, [], file[..n + 1], false);
    var st2 := Apply(st1, DataArrives(n));
    assert st2.client == c by {
      assert file[..n + 1] == file[..n] + [file[n]];
    }
    NothingToName(c);
    assert st2.acks == st.acks + [RawAck(n + 1, 63, [])];
    var st3 := Apply(st2, AckArrives(|st.acks|));
    FreshAck(st1.server, n, file[n]);
  }

  lemma FreshAck(s: Server, n: nat, chunk: Chunk)
    requires n < MODULUS - 1 && s.base == n && s.unacked == map[n := chunk]
    ensures var shown := SackCodec.ToSet(SackCodec.DecodeSack([]));
            OnAck(Wrapping, s, n + 1, 63, shown) == s.(base := n + 1, unacked := map[], window := 63)
  {
    assert n == Add(Wrapping, n, 0);
    assert n in Passed(Wrapping, n, 1);
  }

  lemma {:induction false} DeliverFirst(file: seq<Chunk>, window: int, n: nat) returns (es: seq<Event>)
    requires window >= 1 && n <= |file| && n < MODULUS && forall i | 0 <= i < |file| :: file[i] != []
    ensures Run(Init(file, window), es).Some? && Delivered(file, n, Run(Init(file, window), es).value)
  {
    hide Apply, Enabled, Run;
    if n == 0 {
      es := [];
      StartsDelivered(file, window);
    } else {
      es := DeliverFirst(file, window, n - 1);
      var st := Run(Init(file, window), es).value;
      hide Delivered;
      OneChunk(file, n - 1, st);
      RunOneMore(Init(file, window), es, ServerFills);
      RunOneMore(Init(file, window), es + [ServerFills], DataArrives(n - 1));
      RunOneMore(Init(file, window), es + [ServerFills] + [DataArrives(n - 1)], AckArrives(|st.acks|));
      es := es + [ServerFills] + [DataArrives(n - 1)] + [AckArrives(|st.acks|)];
    }
  }

  lemma StartsDelivered(file: seq<Chunk>, window: int)
    requires window >= 1
    ensures Run(Init(file, window), []) == Some(Init(file, window)) && Delivered(file, 0, Init(file, window))
  {
  }

  // The first j packets arrive again: the client buffers them all.
  ghost predicate Repeated(file: seq<Chunk>, n: nat, j: nat, st: State) {
    && j <= n <= |file| && st.sent == Firsts(file, n)
    && st.client.expected == n && !st.client.done && st.client.buffer == Firsts(file, j)
    && (j > 0 ==> st.acks != [] && st.acks[|st.acks| - 1] == MakeAck(st.client))
  }

  lemma OneAgain(file: seq<Chunk>, n: nat, j: nat, st: State)
    requires Repeated(file, n, j, st) && j < n && file[j] != []
    ensures Enabled(st, DataArrives(j)) && Repeated(file, n, j + 1, Apply(st, DataArrives(j)))
  {
    hide MakeAck;
    assert SackClient.IndexOf(st.client.buffer, j) == j;
    assert Firsts(file, j) + [Data(j, file[j])] == Firsts(file, j + 1);
  }

  lemma {:induction false} RepeatFirst(file: seq<Chunk>, window: int, n: nat, j: nat) returns (es: seq<Event>)
    requires window >= 1 && j <= n <= |file| && n < MODULUS && forall i | 0 <= i < |file| :: file[i] != []
    ensures Run(Init(file, window), es).Some? && Repeated(file, n, j, Run(Init(file, window), es).value)
  {
    hide Run;
    if j == 0 {
      es := DeliverFirst(file, window, n);
    } else {
      es := RepeatFirst(file, window, n, j - 1);
      var st := Run(Init(file, window), es).value;
      hide Repeated;
      OneAgain(file, n, j - 1, st);
      RunOneMore(Init(file, window), es, DataArrives(j - 1));
      es := es + [DataArrives(j - 1)];
    }
  }

  // The network of this section can make the client build a SACK that does not
  // fit in a packet exactly when the file has more than 744 chunks.
  lemma LimitIsExact(file: seq<Chunk>, window: int)
    requires window >= 1 && forall i | 0 <= i < |file| :: file[i] != []
    ensures |file| <= MAX_CHUNKS <==>
              forall es | Run(Init(file, window), es).Some? :: FitsPackets(Run(Init(file, window), es).value)
  {
    if |file| <= MAX_CHUNKS {
      InitInv(file, window);
      forall es | Run(Init(file, window), es).Some? ensures FitsPackets(Run(Init(file, window), es).value) {
        RunKeeps(file, Init(file, window), es);
        InvIsSafe(file, Run(Init(file, window), es).value);
      }
    } else {
      var n := MAX_CHUNKS + 1;
      var es := RepeatFirst(file, window, n, n);
      var st := Run(Init(file, window), es).value;
      SackCodec.SackPayloadSize(Keys(st.client.buffer));
      assert !FitsPackets(st);
    }
  }

  // --- what the client does with one packet ---------------------------------------------

  // The dictionary holds payloads of the file under different 11-bit numbers.
  ghost predicate Tidy(c: Client) {
    c.expected < 2048 && Distinct(c.buffer) && forall d | d in c.buffer :: d.num < 2048 && d.payload != []
  }

  // The chunk that was expected is written, then what is buffered under the numbers
  // that follow; that leaves the buffer, and the number then expected is not in it.
  ghost predicate WroteOn(c: Client, d: Data, written: seq<Data>, t: Client) {
    && t.output == c.output + [d.payload] + SackClient.Payloads(written)
    && multiset(t.buffer) + multiset(written) == multiset(c.buffer)
    && (forall j | 0 <= j < |written| :: written[j].num == (c.expected + 1 + j) % 2048)
    && t.expected == (c.expected + 1 + |written|) % 2048
    && forall x | x in t.buffer :: x.num != t.expected
  }

  // The acknowledgement asks for next, advertises 63, and names what is buffered,
  // number 0 perhaps excepted.
  ghost predicate Names(a: RawAck, next: nat, buffer: seq<Data>) {
    && a.num == next && a.window == 63 && (a.payload == [] <==> buffer == [])
    && forall k | k > 0 :: k in SackCodec.DecodeSack(a.payload) <==> exists d :: d in buffer && d.num == k
  }

  // An empty packet is answered and ends the transfer exactly when it is the expected
  // one. Any other is written or buffered, one number once, and answered.
  ghost predicate Received(c: Client, d: Data, written: seq<Data>, t: Client, sent: seq<RawAck>) {
    if d.payload == [] then
      if d.num == c.expected then t == c.(done := true) && sent == [RawAck(c.expected, 63, [])]
      else t == c && sent == []
    else
      && t.done == c.done && |sent| == 1 && Names(sent[0], t.expected, t.buffer)
      && if d.num == c.expected then WroteOn(c, d, written, t)
         else
           && t.expected == c.expected && t.output == c.output
           && (forall i | 0 <= i < |c.buffer| :: c.buffer[i].num == d.num ==> t.buffer == c.buffer[i := d])
           && (d.num !in Nums(c.buffer) ==> t.buffer == c.buffer + [d])
  }

  // Writing is that of SackClient as long as no empty payload is buffered.
  ghost function AsSack(c: Client): SackClient.Client {
    SackClient.Client(c.expected, c.buffer, Ack(0, 63, {}), c.output, false)
  }

  lemma {:induction false} FlushIsSack(c: Client)
    requires forall d | d in c.buffer :: d.payload != []
    ensures var f := Flush(c);
            SackClient.Flush(Wrapping, AsSack(c)) == AsSack(f) && f.done == c.done
    decreases |c.buffer|
  {
    var i := SackClient.IndexOf(c.buffer, c.expected);
    if i < |c.buffer| {
      var w := WriteBuffered(c, i);
      assert c.buffer[i] in c.buffer;
      assert forall d | d in w.buffer :: d in c.buffer;
      FlushIsSack(w);
      assert SackClient.WriteOne(Wrapping, AsSack(c)) == AsSack(w);
      hide Flush;
      assert Flush(c) == Flush(w) by {
        FlushOnce(c);
      }
    }
  }

  lemma FlushOnce(c: Client)
    requires SackClient.IndexOf(c.buffer, c.expected) < |c.buffer|
    ensures Flush(c) == Flush(WriteBuffered(c, SackClient.IndexOf(c.buffer, c.expected)))
  {
  }

  lemma ExpectedOutcome(c: Client, d: Data) returns (written: seq<Data>)
    requires Tidy(c) && d.num == c.expected && d.payload != []
    ensures WroteOn(c, d, written, Take(c, d)) && Take(c, d).done == c.done && Tidy(Take(c, d))
  {
    hide Flush, SackClient.Flush, SackClient.Wrote, WroteOn;
    var m := c.(output := c.output + [d.payload], expected := (c.expected + 1) % 2048);
    FlushIsSack(m);
    written := SackClient.FlushOutcome(AsSack(m));
    WroteIsWroteOn(c, d, m, written, Take(c, d));
  }

  lemma WroteIsWroteOn(c: Client, d: Data, m: Client, written: seq<Data>, t: Client)
    requires Tidy(c) && d.num == c.expected && !AsSack(t).done && t.done == c.done
    requires m == c.(output := c.output + [d.payload], expected := (c.expected + 1) % 2048)
    requires SackClient.Wrote(AsSack(m), written, AsSack(t))
    ensures WroteOn(c, d, written, t) && Tidy(t)
  {
    PlacesShift(c.expected, written);
    PartIsTidy(c.buffer, t.buffer, written);
    assert c.output + [d.payload] + SackClient.Payloads([]) == c.output + [d.payload];
    hide SackClient.Payloads, Distinct;
  }

  lemma PlacesShift(expected: nat, written: seq<Data>)
    ensures ((expected + 1) % 2048 + |written|) % 2048 == (expected + 1 + |written|) % 2048
    ensures forall j | 0 <= j < |written| ::
              written[j].num == ((expected + 1) % 2048 + j) % 2048 ==> written[j].num == (expected + 1 + j) % 2048
  {
  }

  lemma {:induction false} DistinctCounts(ds: seq<Data>)
    requires Distinct(ds)
    ensures forall d | d in ds :: multiset(ds)[d] == 1
  {
    if ds != [] {
      var init, last := ds[..|ds| - 1], ds[|ds| - 1];
      assert ds == init + [last];
      DistinctCounts(init);
      assert last !in init;
      assert multiset(ds) == multiset(init) + multiset{last};
    }
  }

  lemma PartIsTidy(whole: seq<Data>, part: seq<Data>, rest: seq<Data>)
    requires multiset(part) + multiset(rest) == multiset(whole) && Distinct(whole)
    ensures Distinct(part) && forall d | d in part :: d in whole
  {
    forall d | d in part ensures d in whole {
      assert d in multiset(part) && d in multiset(whole);
    }
    DistinctCounts(whole);
    assert forall d :: multiset(part)[d] <= multiset(whole)[d];
    forall i, j | 0 <= i < j < |part| ensures part[i].num != part[j].num {
      if part[i].num == part[j].num {
        SameIfSameNum(whole, part[i], part[j]);
        TwiceCounts(part, i, j);
      }
    }
  }

  lemma SameIfSameNum(ds: seq<Data>, x: Data, y: Data)
    requires Distinct(ds) && x in ds && y in ds && x.num == y.num
    ensures x == y
  {
  }

  lemma TwiceCounts(ds: seq<Data>, i: nat, j: nat)
    requires i < j < |ds| && ds[i] == ds[j]
    ensures multiset(ds)[ds[i]] >= 2
  {
    assert ds == ds[..i] + [ds[i]] + ds[i + 1..j] + [ds[j]] + ds[j + 1..];
  }

  lemma StoreOutcome(c: Client, d: Data)
    requires Tidy(c) && d.num != c.expected && d.num < 2048 && d.payload != []
    ensures var t := Take(c, d);
            && t == c.(buffer := t.buffer) && Tidy(t)
            && (forall i | 0 <= i < |c.buffer| :: c.buffer[i].num == d.num ==> t.buffer == c.buffer[i := d])
            && (d.num !in Nums(c.buffer) ==> t.buffer == c.buffer + [d])
  {
    StoreKeeps(c.buffer, d);
    SackClient.IndexedIffHeld(c.buffer, d.num);
  }

  lemma AckNames(c: Client)
    requires Tidy(c)
    ensures Names(MakeAck(c), c.expected, c.buffer)
  {
    hide SackCodec.EncodeSack, SackCodec.DecodeSack;
    var keys := Keys(c.buffer);
    NothingToName(c);
    assert forall i | 0 <= i < |keys| :: c.buffer[i] in c.buffer && keys[i] < 2048;
    forall k | k > 0
      ensures k in SackCodec.DecodeSack(SackCodec.EncodeSack(keys)) <==> exists d :: d in c.buffer && d.num == k
    {
      SackCodec.DecodeInventsNothing(keys, k);
      assert k in keys <==> exists d :: d in c.buffer && d.num == k by {
        if d :| d in c.buffer && d.num == k {
          var i :| 0 <= i < |c.buffer| && c.buffer[i] == d;
          assert keys[i] == k;
        }
      }
    }
  }

  lemma OnDataOutcome(c: Client, d: Data) returns (written: seq<Data>)
    requires Tidy(c) && d.num < 2048
    ensures var (t, sent) := OnData(c, d);
            Received(c, d, written, t, sent) && Tidy(t)
  {
    hide Names, WroteOn, Store, Flush;
    written := [];
    if d.payload != [] {
      if d.num == c.expected {
        written := ExpectedOutcome(c, d);
      } else {
        StoreOutcome(c, d);
      }
      hide Take, Tidy;
      AckNames(Take(c, d));
    }
  }

  // --- the client in memory ------------------------------------------------------------

  class FileClient {
    var expected: nat
    var buffer: seq<Data>
    var file: seq<Chunk>
    var lastAck: Option<RawAck>

    ghost function State(done: bool): Client
      reads this
    {
      Client(expected, buffer, file, done)
    }

    constructor ()
      ensures State(false) == NewClient() && lastAck == None
    {
      expected, buffer, file, lastAck := 0, [], [], None;
    }

    // Writes the buffered packets that follow.
    method FlushBuffer()
      modifies `expected, `buffer, `file
      ensures State(false) == Flush(old(State(false)))
    {
      hide SackClient.IndexOf, SackClient.Without;
      var i := SackClient.IndexOf(buffer, expected);
      while i < |buffer|
        invariant i == SackClient.IndexOf(buffer, expected)
        invariant Flush(State(false)) == Flush(old(State(false)))
        decreases |buffer|
      {
        ghost var c := State(false);
        file := file + [buffer[i].payload];
        buffer := SackClient.Without(buffer, i);
        expected := (expected + 1) % MODULUS;
        assert State(false) == WriteBuffered(c, i);
        i := SackClient.IndexOf(buffer, expected);
      }
    }

    // What the receive loop does with one DATA packet: what it sends, and
    // whether it leaves the loop.
    method Receive(d: Data) returns (sent: seq<RawAck>, done: bool, ghost written: seq<Data>)
      modifies this
      ensures (State(done), sent) == OnData(old(State(false)), d)
      ensures Tidy(old(State(false))) && d.num < 2048 ==>
                Tidy(State(done)) && Received(old(State(false)), d, written, State(done), sent)
      ensures lastAck == if d.payload == [] then old(lastAck) else Some(sent[0])
    {
      hide Flush, Store, SackCodec.EncodeSack, Tidy, Received;
      written := [];
      if Tidy(State(false)) && d.num < 2048 {
        written := OnDataOutcome(State(false), d);
      }
      if d.payload == [] {
        if d.num == expected {
          return [RawAck(expected, 63, [])], true, written;
        }
        return [], false, written;
      }
      if d.num == expected {
        file := file + [d.payload];
        expected := (expected + 1) % MODULUS;
        FlushBuffer();
      } else {
        buffer := Store(buffer, d);
      }
      var ack := if |buffer| == 0 then RawAck(expected, 63, [])
                 else RawAck(expected, 63, SackCodec.EncodeSack(Keys(buffer)));
      assert ack == MakeAck(State(false)) by {
        NothingToName(State(false));
      }
      lastAck := Some(ack);
      sent, done := [ack], false;
    }
  }
}
