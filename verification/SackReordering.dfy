// src/server.py sending to groupe_20's client over the network of LogNetwork,
// which may lose, duplicate and reorder without any bound.
module SackReordering {
  import opened SeqNums
  import opened Packets
  import opened ServerSession
  import opened SackClient
  import opened LogNetwork

  type State = LogState<Client, Ack>

  // The client batches, so writing is an event of its own.
  datatype Event = Net(e: LogNetwork.Event) | ClientWrites

  function Init(file: seq<Chunk>, window: int): State {
    LogState(NewServer(file, window), NewClient(), [], [])
  }

  predicate Enabled(ar: Arith, st: State, e: Event) {
    match e
    case ClientWrites => !st.client.done
    case Net(DataArrives(at)) => at < |st.sent| && !st.client.done && |st.client.window| < WINDOW_LEN
    case Net(AckArrives(at)) => at < |st.acks|
    case Net(send) => MaySend(ar, st.server, send)
  }

  function Apply(ar: Arith, st: State, e: Event): State
    requires Enabled(ar, st, e)
  {
    match e
    case ClientWrites =>
      var (client, acks) := ProcessWindow(ar, st.client);
      st.(client := client, acks := st.acks + acks)
    case Net(DataArrives(at)) =>
      var (client, acks) := OnData(ar, st.client, st.sent[at]);
      st.(client := client, acks := st.acks + acks)
    case Net(AckArrives(at)) =>
      var a := st.acks[at];
      st.(server := OnAck(ar, st.server, a.num, a.window, Shown(a.sacks)))
    case Net(send) => ApplySend(ar, st, send)
  }

  function Run(ar: Arith, st: State, es: seq<Event>): Option<State>
    decreases |es|
  {
    if es == [] then Some(st)
    else if Enabled(ar, st, es[0]) then Run(ar, Apply(ar, st, es[0]), es[1..])
    else None
  }

  lemma RunNothing(ar: Arith, st: State)
    ensures Run(ar, st, []) == Some(st)
  {
  }

  lemma {:induction false} RunAppend(ar: Arith, st: State, a: seq<Event>, b: seq<Event>)
    requires Run(ar, st, a).Some?
    ensures Run(ar, st, a + b) == Run(ar, Run(ar, st, a).value, b)
    decreases |a|
  {
    hide Apply, Enabled;
    if a == [] {
      assert a + b == b;
    } else {
      assert (a + b)[0] == a[0] && (a + b)[1..] == a[1..] + b;
      RunAppend(ar, Apply(ar, st, a[0]), a[1..], b);
    }
  }

  lemma RunOneMore(ar: Arith, st: State, es: seq<Event>, m: State, e: Event)
    requires Run(ar, st, es) == Some(m) && Enabled(ar, m, e)
    ensures Run(ar, st, es + [e]) == Some(Apply(ar, m, e))
  {
    hide Apply, Enabled;
    assert [e][1..] == [] && Run(ar, Apply(ar, m, e), []) == Some(Apply(ar, m, e));
    RunAppend(ar, st, es, [e]);
  }

  // The output is right so far, and complete once the end was declared.
  predicate Sound(file: seq<Chunk>, st: State) {
    st.client.output <= file && (st.server.finSent || st.client.done ==> st.client.output == file)
  }

  // --- what holds after every step that confuses no two numbers -------------------------

  // In the wrapping reading the file is so short that no test of the client wraps.
  ghost predicate Short(ar: Arith, file: seq<Chunk>) {
    ar.Wrapping? ==> |file| <= HALF_TURN + 2
  }

  // Acknowledgement a says that k was received.
  ghost predicate Told(a: Ack, k: nat) {
    k < a.num || k in a.sacks
  }

  // a tells no more than last, which is a newer one.
  ghost predicate Older(a: Ack, last: Ack) {
    forall k: nat :: Told(a, k) ==> Told(last, k)
  }

  ghost predicate AckOk(a: Ack) {
    a.num !in a.sacks
  }

  ghost predicate ClientTold(file: seq<Chunk>, s: Server, c: Client) {
    && AckOk(c.lastAck)
    && if c.done then c.output == file
       else
         && ClientOk(file, c) && c.lastAck.num == c.expected <= s.next
         && (forall d | d in c.window :: Travels(file, s, d))
         && (forall k: nat | Told(c.lastAck, k) :: Holds(c, k))
  }

  ghost predicate AcksOlder(acks: seq<Ack>, last: Ack) {
    forall i | 0 <= i < |acks| :: Older(acks[i], last) && AckOk(acks[i])
  }

  ghost predicate Inv(file: seq<Chunk>, st: State) {
    && NoEmptyChunk(file)
    && SessionOk(file, st.server) && ClientTold(file, st.server, st.client)
    && st.client.lastAck.num <= st.server.next
    && (forall k: nat | Forgotten(st.server, k) :: Told(st.client.lastAck, k))
    && AcksOlder(st.acks, st.client.lastAck)
    && AllTravel(file, st.server, st.sent)
  }

  // An acknowledgement tells nothing of the number it asks for.
  lemma ToldUpTo(a: Ack, upTo: nat)
    requires AckOk(a) && forall k: nat | k < upTo :: Told(a, k)
    ensures upTo <= a.num
  {
    assert !Told(a, a.num);
  }

  lemma OlderIsLower(a: Ack, last: Ack)
    requires Older(a, last) && AckOk(last)
    ensures a.num <= last.num
  {
    assert forall k: nat | k < a.num :: Told(a, k);
    ToldUpTo(last, a.num);
  }

  lemma OlderStill(a: Ack, b: Ack, c: Ack)
    requires Older(a, b) && Older(b, c)
    ensures Older(a, c)
  {
  }

  lemma LastAckOk(file: seq<Chunk>, st: State)
    requires ClientTold(file, st.server, st.client)
    ensures AckOk(st.client.lastAck)
  {
  }

  lemma BaseIsTold(file: seq<Chunk>, st: State)
    requires Inv(file, st)
    ensures st.server.base <= st.client.lastAck.num <= st.server.next <= |file|
  {
    assert forall k: nat | k < st.server.base :: Forgotten(st.server, k);
    ToldUpTo(st.client.lastAck, st.server.base);
  }

  lemma AcksBelowNext(file: seq<Chunk>, st: State, at: nat)
    requires Inv(file, st) && at < |st.acks|
    ensures st.acks[at].num <= st.client.lastAck.num <= st.server.next && AckOk(st.acks[at])
  {
    LastAckOk(file, st);
    OlderIsLower(st.acks[at], st.client.lastAck);
  }

  // When memory is empty at the end of the file everything was written.
  lemma EndMeansWritten(file: seq<Chunk>, st: State)
    requires Inv(file, st) && st.server.finSent
    ensures st.client.lastAck.num == |file| && st.client.output == file
  {
    assert forall k: nat | k < |file| :: Forgotten(st.server, k);
    ToldUpTo(st.client.lastAck, |file|);
    assert file[..|file|] == file;
  }

  lemma InvIsSound(file: seq<Chunk>, st: State)
    requires Inv(file, st)
    ensures Sound(file, st)
  {
    if st.server.finSent {
      EndMeansWritten(file, st);
    }
  }

  lemma InitOk(file: seq<Chunk>, window: int)
    requires NoEmptyChunk(file)
    ensures Inv(file, Init(file, window))
  {
    assert file[0..] == file;
  }

  // --- the server's steps --------------------------------------------------------------

  lemma StillTravels(file: seq<Chunk>, s: Server, t: Server, c: Client)
    requires ClientTold(file, s, c) && s.next <= t.next && (s.finSent ==> t.finSent)
    ensures ClientTold(file, t, c)
  {
    hide Genuine, ClientOk, Told, Holds;
  }

  lemma SendKeeps(ar: Arith, file: seq<Chunk>, st: State, e: LogNetwork.Event)
    requires Inv(file, st) && Short(ar, file) && Sends(e) && MaySend(ar, st.server, e)
    ensures Inv(file, ApplySend(ar, st, e))
  {
    hide Send, AllTravel, MaySend, ClientTold, Told, AcksOlder;
    var s := st.server;
    SendTravels(ar, file, s, e);
    SendKeepsSession(ar, file, s, e);
    hide SessionOk;
    var (t, more) := Send(ar, s, e);
    StillTravels(file, s, t, st.client);
    TravelOn(file, s, t, st.sent, more);
  }

  lemma AckKeeps(ar: Arith, file: seq<Chunk>, st: State, at: nat)
    requires Inv(file, st) && Short(ar, file) && at < |st.acks|
    requires Usable(ar, file, st.server, st.acks[at].num)
    ensures Inv(file, Apply(ar, st, Net(AckArrives(at))))
  {
    hide OnAck, AllTravel, ClientTold, Travels;
    var s, a := st.server, st.acks[at];
    AcksBelowNext(file, st, at);
    OnAckMemory(ar, file, s, a.num, a.window, Shown(a.sacks));
    OnAckKeepsSession(ar, file, s, a.num, a.window, Shown(a.sacks));
    var t := OnAck(ar, s, a.num, a.window, Shown(a.sacks));
    hide SessionOk;
    StillTravels(file, s, t, st.client);
    TravelOn(file, s, t, st.sent, []);
    assert st.sent + [] == st.sent;
    forall k: nat | Forgotten(t, k) ensures Told(st.client.lastAck, k) {
      assert Forgotten(s, k) || Told(a, k);
    }
  }

  // --- the client's steps ---------------------------------------------------------------

  lemma IsGenuine(file: seq<Chunk>, s: Server, d: Data)
    requires Travels(file, s, d) && NoEmptyChunk(file)
    ensures Genuine(file, d) && d.num <= |file|
  {
  }

  // What wears the same number is the same packet.
  lemma SamePacket(file: seq<Chunk>, s: Server, d: Data, e: Data)
    requires Genuine(file, d) && Travels(file, s, e) && d.num == e.num && NoEmptyChunk(file)
    ensures d == e
  {
  }

  // In a short transfer the window test is the true one.
  lemma NothingWraps(ar: Arith, file: seq<Chunk>, c: Client, num: nat)
    requires Short(ar, file) && c.expected <= |file| && num <= |file|
    ensures InWindow(ar, c, num) <==> c.expected <= num < c.expected + WINDOW_LEN
  {
    if ar.Wrapping? {
      DistWraps(num, c.expected);
    }
  }

  lemma WindowGrows(file: seq<Chunk>, c: Client, d: Data)
    requires ClientOk(file, c) && Genuine(file, d)
    requires c.expected <= d.num < c.expected + WINDOW_LEN && IndexOf(c.window, d.num) == |c.window|
    ensures ClientOk(file, c.(window := c.window + [d])) && Nums(c.window + [d]) == Nums(c.window) + {d.num}
  {
    hide Genuine;
    IndexedIffHeld(c.window, d.num);
    NumsAppend(c.window, d);
    assert forall x | x in c.window :: x.num in Nums(c.window);
  }

  lemma KeptOnce(file: seq<Chunk>, s: Server, c: Client, d: Data)
    requires ClientTold(file, s, c) && !c.done && Travels(file, s, d) && NoEmptyChunk(file)
    requires c.expected <= d.num < c.expected + WINDOW_LEN && IndexOf(c.window, d.num) == |c.window|
    ensures ClientTold(file, s, c.(window := c.window + [d]))
  {
    IsGenuine(file, s, d);
    WindowGrows(file, c, d);
    hide Travels, Genuine, Told, ClientOk, AckOk;
  }

  lemma ClientFacts(file: seq<Chunk>, st: State)
    requires Inv(file, st) && !st.client.done
    ensures st.client.expected == st.client.lastAck.num <= st.server.next <= |file| && NoEmptyChunk(file)
    ensures ClientOk(file, st.client)
  {
  }

  lemma DataKeeps(ar: Arith, file: seq<Chunk>, st: State, at: nat)
    requires Inv(file, st) && Short(ar, file) && Enabled(ar, st, Net(DataArrives(at)))
    ensures Inv(file, Apply(ar, st, Net(DataArrives(at))))
  {
    hide InWindow, Told, Genuine, SessionOk, ClientOk;
    var c, d := st.client, st.sent[at];
    ClientFacts(file, st);
    IsGenuine(file, st.server, d);
    NothingWraps(ar, file, c, d.num);
    hide Travels;
    if InWindow(ar, c, d.num) && IndexOf(c.window, d.num) == |c.window| {
      KeptOnce(file, st.server, c, d);
    }
  }

  ghost predicate SmallClient(c: Client) {
    && c.expected < MODULUS && c.lastAck.num < MODULUS
    && (forall d | d in c.window :: d.num < MODULUS)
    && (forall k | k in c.lastAck.sacks :: k < MODULUS)
  }

  lemma SmallIsWrapped(c: Client)
    requires SmallClient(c)
    ensures WrapClient(c) == c
  {
    assert WrapDatas(c.window) == c.window;
    assert WrapSet(c.lastAck.sacks) == c.lastAck.sacks;
  }

  lemma ShortIsSmall(file: seq<Chunk>, s: Server, c: Client)
    requires |file| <= HALF_TURN + 2 && s.next <= |file| && ClientTold(file, s, c) && !c.done
    ensures SmallClient(c)
  {
    forall k | k in c.lastAck.sacks ensures k < MODULUS {
      assert Holds(c, k);
      if k in Nums(c.window) {
        var d :| d in c.window && d.num == k;
      }
    }
  }

  lemma WrittenIsSmall(file: seq<Chunk>, c: Client, f: Client)
    requires |file| <= HALF_TURN + 2 && SmallClient(c) && WrittenFrom(file, c, f)
    ensures SmallClient(f)
  {
    forall d | d in f.window ensures d.num < MODULUS {
      assert d.num in Nums(f.window) && d.num in Nums(c.window);
    }
  }

  // So the client writes what it would write without wrapping.
  lemma FlushIsUnbounded(ar: Arith, file: seq<Chunk>, s: Server, c: Client)
    requires Short(ar, file) && s.next <= |file| && NoEmptyChunk(file) && ClientTold(file, s, c) && !c.done
    ensures Flush(ar, c) == Flush(Unbounded, c) && WrittenFrom(file, c, Flush(Unbounded, c))
  {
    hide Flush, SmallClient, WrittenFrom, WrapClient;
    FlushKeeps(file, c);
    if ar.Wrapping? {
      ShortIsSmall(file, s, c);
      SmallIsWrapped(c);
      WrittenIsSmall(file, c, Flush(Unbounded, c));
      SmallIsWrapped(Flush(Unbounded, c));
      FlushWraps(file, c);
    }
  }

  lemma WrittenTravels(file: seq<Chunk>, s: Server, c: Client, f: Client)
    requires NoEmptyChunk(file) && ClientTold(file, s, c) && !c.done && WrittenFrom(file, c, f) && !f.done
    ensures f.expected <= s.next && forall d | d in f.window :: Travels(file, s, d)
  {
    forall d | d in f.window ensures Travels(file, s, d) {
      assert d.num in Nums(f.window) && d.num in Nums(c.window);
      var e :| e in c.window && e.num == d.num;
      SamePacket(file, s, d, e);
    }
    if f.expected != c.expected {
      var e :| e in c.window && e.num == f.expected - 1;
      assert Travels(file, s, e) && Genuine(file, e);
    }
  }

  // The new acknowledgement tells what the client holds, and so all that was told.
  lemma NewAckTells(file: seq<Chunk>, s: Server, c: Client, f: Client)
    requires NoEmptyChunk(file) && ClientTold(file, s, c) && !c.done && WrittenFrom(file, c, f) && !f.done
    requires f.expected !in Nums(f.window)
    ensures ClientTold(file, s, f.(lastAck := MakeAck(f))) && Older(c.lastAck, MakeAck(f))
    ensures MakeAck(f).num <= s.next
  {
    WrittenTravels(file, s, c, f);
    hide Travels, Genuine;
  }

  lemma AcksStayOlder(acks: seq<Ack>, last: Ack, newer: Ack)
    requires Older(last, newer) && AckOk(newer) && AcksOlder(acks, last)
    ensures AcksOlder(acks + [newer], newer)
  {
    hide Told;
    forall i | 0 <= i < |acks| ensures Older(acks[i], newer) {
      OlderStill(acks[i], last, newer);
    }
  }

  lemma WriteKeeps(ar: Arith, file: seq<Chunk>, st: State)
    requires Inv(file, st) && Short(ar, file) && !st.client.done
    ensures Inv(file, Apply(ar, st, ClientWrites))
  {
    hide Flush, SessionOk, AllTravel, Travels, ClientOk, AcksOlder, Told;
    var c := st.client;
    assert st.acks + [] == st.acks;
    if c.window != [] {
      var f := Flush(Unbounded, c);
      ClientFacts(file, st);
      FlushIsUnbounded(ar, file, st.server, c);
      FlushKeeps(file, c);
      if !f.done {
        NewAckTells(file, st.server, c, f);
        hide WrittenFrom, ClientTold;
        AcksStayOlder(st.acks, c.lastAck, MakeAck(f));
      }
    }
  }

  // No step is confused by wrapping if the file is short and the acknowledgement
  // not too old.
  ghost predicate Clear(ar: Arith, file: seq<Chunk>, st: State, e: Event) {
    && Short(ar, file)
    && (e.Net? && e.e.AckArrives? && e.e.at < |st.acks| ==> Usable(ar, file, st.server, st.acks[e.e.at].num))
  }

  lemma StepKeeps(ar: Arith, file: seq<Chunk>, st: State, e: Event)
    requires Inv(file, st) && Enabled(ar, st, e) && Clear(ar, file, st, e)
    ensures Inv(file, Apply(ar, st, e))
  {
    hide Inv;
    match e
    case ClientWrites => WriteKeeps(ar, file, st);
    case Net(DataArrives(at)) => DataKeeps(ar, file, st, at);
    case Net(AckArrives(at)) => AckKeeps(ar, file, st, at);
    case Net(send) => SendKeeps(ar, file, st, send);
  }
}
