// src/server.py sending to tools/groupe_20/SRTPClient.py over two channels that
// keep the order of packets but may lose or duplicate them where they stand
// (the network of tests/proxy.py; a corrupted packet is a lost one, see
// Segments). Every claim is about all finite sequences of events.
module SlidingWindow {
  import opened SeqNums
  import opened Packets
  import opened ServerSession
  import opened SackClient

  datatype State = State(server: Server, data: seq<Data>, client: Client, acks: seq<Ack>)

  datatype Event =
    | ServerFills                 // the server reads a chunk and sends it, or meets the end of the file
    | ServerResends(ahead: nat)   // it sends again the packet numbered base + ahead
    | ServerEnds                  // it sends the end-of-file packet, or sends it again
    | DataLost(at: nat) | DataDoubled(at: nat)
    | ClientReceives              // the client takes one packet from its socket
    | ClientWrites                // it writes what is in order and acknowledges
    | AckLost(at: nat) | AckDoubled(at: nat)
    | ServerHears                 // the server takes one acknowledgement from its socket

  function Init(file: seq<Chunk>, window: int): State {
    State(NewServer(file, window), [], NewClient(), [])
  }

  function Lose<T>(s: seq<T>, at: nat): (r: seq<T>)
    requires at < |s|
    ensures |r| == |s| - 1 && forall i | 0 <= i < |r| :: r[i] == s[if i < at then i else i + 1]
  {
    s[..at] + s[at + 1..]
  }

  function Duplicate<T>(s: seq<T>, at: nat): (r: seq<T>)
    requires at < |s|
    ensures |r| == |s| + 1 && forall i | 0 <= i < |r| :: r[i] == s[if i <= at then i else i - 1]
  {
    s[..at + 1] + s[at..]
  }

  predicate Enabled(ar: Arith, st: State, e: Event) {
    match e
    case ServerFills => MayRead(st.server)
    case ServerResends(ahead) => Add(ar, st.server.base, ahead) in st.server.unacked && ahead < MODULUS
    case ServerEnds => MaySendFin(st.server)
    case DataLost(at) => at < |st.data|
    case DataDoubled(at) => at < |st.data|
    case ClientReceives => st.data != [] && !st.client.done && |st.client.window| < WINDOW_LEN
    case ClientWrites => !st.client.done
    case AckLost(at) => at < |st.acks|
    case AckDoubled(at) => at < |st.acks|
    case ServerHears => st.acks != []
  }

  function Apply(ar: Arith, st: State, e: Event): State
    requires Enabled(ar, st, e)
  {
    match e
    case ServerFills =>
      var (server, sent) := Fill(ar, st.server);
      st.(server := server, data := st.data + sent)
    case ServerResends(ahead) =>
      var num := Add(ar, st.server.base, ahead);
      st.(data := st.data + [Data(num, st.server.unacked[num])])
    case ServerEnds =>
      st.(server := st.server.(finSent := true), data := st.data + [Fin(st.server)])
    case DataLost(at) => st.(data := Lose(st.data, at))
    case DataDoubled(at) => st.(data := Duplicate(st.data, at))
    case ClientReceives =>
      var (client, sent) := OnData(ar, st.client, st.data[0]);
      st.(data := st.data[1..], client := client, acks := st.acks + sent)
    case ClientWrites =>
      var (client, sent) := ProcessWindow(ar, st.client);
      st.(client := client, acks := st.acks + sent)
    case AckLost(at) => st.(acks := Lose(st.acks, at))
    case AckDoubled(at) => st.(acks := Duplicate(st.acks, at))
    case ServerHears =>
      var a := st.acks[0];
      st.(server := OnAck(ar, st.server, a.num, a.window, Shown(a.sacks)), acks := st.acks[1..])
  }

  // The state after a sequence of events, or None if one was not possible.
  function Run(ar: Arith, st: State, es: seq<Event>): Option<State>
    decreases |es|
  {
    if es == [] then Some(st)
    else if Enabled(ar, st, es[0]) then Run(ar, Apply(ar, st, es[0]), es[1..])
    else None
  }

  // --- what every reachable state satisfies (unbounded numbers) ----------

  // The server knows that k was received.
  ghost predicate Known(s: Server, k: nat) {
    k < s.next && k !in s.unacked
  }

  // Acknowledgement a says that k was received.
  ghost predicate Told(a: Ack, k: nat) {
    k < a.num || k in a.sacks
  }

  // b says at least as much as a.
  ghost predicate NotBefore(a: Ack, b: Ack) {
    forall k :: Told(a, k) ==> Told(b, k)
  }

  ghost predicate ServerOk(file: seq<Chunk>, s: Server) {
    && s.base <= s.next <= |file|
    && s.unread == file[s.next..]
    && (s.eof ==> s.next == |file|)
    && (forall k | k in s.unacked :: s.base <= k < s.next && s.unacked[k] == file[k])
    && (s.base < s.next ==> s.base in s.unacked)
    // Packets known to be received above base plus the window fit in 63.
    && s.next - s.base - |s.unacked| + s.window <= MAX_WINDOW
    && s.next - s.base <= MAX_WINDOW
    && (s.finSent ==> s.eof && s.unacked == map[])
  }

  ghost predicate AckOk(s: Server, a: Ack) {
    && a.num <= s.next
    && (forall k | k in a.sacks :: a.num < k < s.next && k < a.num + WINDOW_LEN)
    && a.window == WINDOW_LEN - |a.sacks|
  }

  // A packet under way or in the client's window.
  ghost predicate Travels(file: seq<Chunk>, s: Server, d: Data) {
    && Genuine(file, d)
    && (d.num < s.next || (s.finSent && d.num == |file|))
  }

  // Everything the receiver has seen was sent less than 63 numbers above d.
  ghost predicate Recent(c: Client, d: Data) {
    c.expected <= d.num + WINDOW_LEN && forall k | k in Nums(c.window) :: k < d.num + WINDOW_LEN
  }

  // The server has heard nothing that a does not say.
  ghost predicate KnownBy(s: Server, a: Ack) {
    forall k | Known(s, k) :: Told(a, k)
  }

  // The acknowledgements under way say more and more, and last says the most.
  ghost predicate Growing(s: Server, acks: seq<Ack>, last: Ack) {
    && (forall i | 0 <= i < |acks| :: AckOk(s, acks[i]) && KnownBy(s, acks[i]) && NotBefore(acks[i], last))
    && (forall i, j | 0 <= i < j < |acks| :: NotBefore(acks[i], acks[j]))
  }

  ghost predicate AcksOk(st: State) {
    && AckOk(st.server, st.client.lastAck)
    && KnownBy(st.server, st.client.lastAck)
    && Growing(st.server, st.acks, st.client.lastAck)
    && (forall k | Told(st.client.lastAck, k) :: Holds(st.client, k))
  }

  ghost predicate DataOk(file: seq<Chunk>, st: State) {
    && (forall i | 0 <= i < |st.data| :: Travels(file, st.server, st.data[i]))
    && (forall i, j | 0 <= i < j < |st.data| :: st.data[i].num < st.data[j].num + WINDOW_LEN)
    && (!st.client.done ==> forall i | 0 <= i < |st.data| :: Recent(st.client, st.data[i]))
  }

  ghost predicate ReceiverOk(file: seq<Chunk>, st: State) {
    var c := st.client;
    if c.done then c.output == file && c.expected == |file| + 1
    else ClientOk(file, c) && c.lastAck.num == c.expected
         && forall d | d in c.window :: Travels(file, st.server, d)
  }

  ghost predicate Inv(file: seq<Chunk>, st: State) {
    && NoEmptyChunk(file)
    && ServerOk(file, st.server)
    && AcksOk(st)
    && DataOk(file, st)
    && ReceiverOk(file, st)
  }

  lemma InitInv(file: seq<Chunk>, window: int)
    requires NoEmptyChunk(file) && window <= MAX_WINDOW
    ensures Inv(file, Init(file, window))
  {
    assert file[0..] == file;
  }

  // An acknowledgement never tells of the number it asks for, so whatever the
  // server knows to be received keeps base at or below every acknowledgement.
  lemma AckAboveKnown(s: Server, a: Ack, upTo: nat)
    requires AckOk(s, a)
    requires forall k: nat | k < upTo :: Told(a, k)
    ensures upTo <= a.num
  {
    assert !Told(a, a.num);
  }

  // The end-of-file packet is sent only once the receiver wrote the whole file.
  lemma FinMeansAllWritten(file: seq<Chunk>, st: State)
    requires Inv(file, st) && st.server.unacked == map[] && st.server.eof
    ensures st.client.expected >= |file|
    ensures !st.client.done ==> st.client.output == file
  {
    assert forall k: nat | k < |file| :: Known(st.server, k);
    AckAboveKnown(st.server, st.client.lastAck, |file|);
    if !st.client.done {
      assert file[..|file|] == file;
    }
  }

  lemma BaseBehindClient(file: seq<Chunk>, st: State)
    requires Inv(file, st)
    ensures st.server.base <= st.client.lastAck.num
    ensures forall i | 0 <= i < |st.acks| :: st.server.base <= st.acks[i].num <= st.client.lastAck.num
  {
    assert forall k: nat | k < st.server.base :: Known(st.server, k);
    AckAboveKnown(st.server, st.client.lastAck, st.server.base);
    forall i | 0 <= i < |st.acks| ensures st.server.base <= st.acks[i].num <= st.client.lastAck.num {
      AckAboveKnown(st.server, st.acks[i], st.server.base);
      AckAboveKnown(st.server, st.client.lastAck, st.acks[i].num);
    }
  }

  // --- each event keeps the invariant -------------------------------------

  lemma OneMoreKey(m: map<nat, Chunk>, k: nat, v: Chunk)
    requires k !in m
    ensures |m[k := v]| == |m| + 1
  {
    assert m[k := v].Keys == m.Keys + {k};
    assert |m[k := v].Keys| == |m[k := v]|;
  }

  lemma FillServerOk(file: seq<Chunk>, s: Server)
    requires ServerOk(file, s) && MayRead(s)
    ensures ServerOk(file, Fill(Unbounded, s).0)
    ensures forall k :: Known(Fill(Unbounded, s).0, k) ==> Known(s, k)
  {
    if s.unread != [] {
      assert s.next !in s.unacked;
      assert s.unread[1..] == file[s.next + 1..];
      OneMoreKey(s.unacked, s.next, s.unread[0]);
    }
  }

  // While the server moves on, what travels goes on travelling.
  lemma TravelOn(file: seq<Chunk>, st: State, s: Server)
    requires DataOk(file, st) && ReceiverOk(file, st)
    requires st.server.next <= s.next && (st.server.finSent ==> s.finSent)
    ensures DataOk(file, st.(server := s)) && ReceiverOk(file, st.(server := s))
  {
    hide Recent, Genuine;
  }

  // A packet the server may send now is recent for everything before it.
  lemma SentIsRecent(file: seq<Chunk>, st: State, d: Data)
    requires Inv(file, st) && st.server.base <= d.num && (st.server.finSent ==> d.num == |file|)
    ensures !st.client.done ==> Recent(st.client, d)
    ensures forall i | 0 <= i < |st.data| :: st.data[i].num < d.num + WINDOW_LEN
  {
    BaseBehindClient(file, st);
    hide AcksOk;
    forall k | k in Nums(st.client.window) ensures !st.client.done ==> k <= st.server.next {
    }
  }

  lemma SendKeepsData(file: seq<Chunk>, st: State, st1: State, d: Data)
    requires Inv(file, st)
    requires st1 == st.(server := st1.server, data := st.data + [d])
    requires st.server.next <= st1.server.next && (st.server.finSent ==> st1.server.finSent)
    requires Travels(file, st1.server, d) && st.server.base <= d.num
    requires st.server.finSent ==> d.num == |file|
    ensures DataOk(file, st1) && ReceiverOk(file, st1)
  {
    hide ServerOk, AcksOk, Recent, Travels, ClientOk;
    TravelOn(file, st, st1.server);
    SentIsRecent(file, st, d);
  }

  // The acknowledgements stay valid while the server learns nothing new.
  lemma AcksStay(file: seq<Chunk>, st: State, st1: State)
    requires Inv(file, st)
    requires st1 == st.(server := st1.server, data := st1.data)
    requires st.server.next <= st1.server.next
    requires forall k :: Known(st1.server, k) ==> Known(st.server, k)
    ensures AcksOk(st1)
  {
  }

  lemma FillKeeps(file: seq<Chunk>, st: State)
    requires Inv(file, st) && Enabled(Unbounded, st, ServerFills)
    ensures Inv(file, Apply(Unbounded, st, ServerFills))
  {
    hide AcksOk, DataOk, ReceiverOk;
    var st1 := Apply(Unbounded, st, ServerFills);
    FillServerOk(file, st.server);
    AcksStay(file, st, st1);
    if st.server.unread != [] {
      SendKeepsData(file, st, st1, st1.data[|st.data|]);
    } else {
      TravelOn(file, st, st1.server);
      assert st.data + [] == st.data;
    }
  }

  lemma ResendKeeps(file: seq<Chunk>, st: State, e: Event)
    requires Inv(file, st) && Enabled(Unbounded, st, e) && (e.ServerResends? || e.ServerEnds?)
    ensures Inv(file, Apply(Unbounded, st, e))
  {
    hide AcksOk, DataOk, ReceiverOk;
    var st1 := Apply(Unbounded, st, e);
    AcksStay(file, st, st1);
    SendKeepsData(file, st, st1, st1.data[|st.data|]);
  }

  lemma ServerSendsKeeps(file: seq<Chunk>, st: State, e: Event)
    requires Inv(file, st) && Enabled(Unbounded, st, e)
    requires e.ServerFills? || e.ServerResends? || e.ServerEnds?
    ensures Inv(file, Apply(Unbounded, st, e))
  {
    hide Inv, Apply, Enabled;
    if e.ServerFills? {
      FillKeeps(file, st);
    } else {
      ResendKeeps(file, st, e);
    }
  }

  lemma DataOkLose(file: seq<Chunk>, st: State, at: nat)
    requires DataOk(file, st) && at < |st.data|
    ensures DataOk(file, st.(data := Lose(st.data, at)))
  {
    hide Travels, Recent;
  }

  lemma DataOkDuplicate(file: seq<Chunk>, st: State, at: nat)
    requires DataOk(file, st) && at < |st.data|
    ensures DataOk(file, st.(data := Duplicate(st.data, at)))
  {
    hide Travels, Recent;
  }

  lemma DataNetworkKeeps(file: seq<Chunk>, st: State, e: Event)
    requires Inv(file, st) && Enabled(Unbounded, st, e)
    requires e.DataLost? || e.DataDoubled?
    ensures Inv(file, Apply(Unbounded, st, e))
  {
    if e.DataLost? {
      DataOkLose(file, st, e.at);
    } else {
      DataOkDuplicate(file, st, e.at);
    }
    hide ServerOk, AcksOk, DataOk;
  }

  lemma GrowingLose(s: Server, acks: seq<Ack>, last: Ack, at: nat)
    requires Growing(s, acks, last) && at < |acks|
    ensures Growing(s, Lose(acks, at), last)
  {
    hide AckOk, KnownBy, NotBefore;
  }

  lemma GrowingDuplicate(s: Server, acks: seq<Ack>, last: Ack, at: nat)
    requires Growing(s, acks, last) && at < |acks|
    ensures Growing(s, Duplicate(acks, at), last)
  {
    assert NotBefore(acks[at], acks[at]);
    hide AckOk, KnownBy, NotBefore;
  }

  lemma AckNetworkKeeps(file: seq<Chunk>, st: State, e: Event)
    requires Inv(file, st) && Enabled(Unbounded, st, e)
    requires e.AckLost? || e.AckDoubled?
    ensures Inv(file, Apply(Unbounded, st, e))
  {
    if e.AckLost? {
      GrowingLose(st.server, st.acks, st.client.lastAck, e.at);
    } else {
      GrowingDuplicate(st.server, st.acks, st.client.lastAck, e.at);
    }
    hide Growing, ServerOk, AckOk, KnownBy;
    assert Apply(Unbounded, st, e) == st.(acks := Apply(Unbounded, st, e).acks);
  }

  lemma GrowingAppend(s: Server, acks: seq<Ack>, last: Ack, a: Ack)
    requires Growing(s, acks, last)
    requires AckOk(s, a) && KnownBy(s, a) && NotBefore(last, a)
    ensures Growing(s, acks + [a], a)
  {
    var more := acks + [a];
    forall i | 0 <= i < |more| ensures AckOk(s, more[i]) && KnownBy(s, more[i]) && NotBefore(more[i], a) {
      if i < |acks| {
        assert NotBefore(acks[i], last);
      }
    }
  }

  lemma ReceiveKeepsData(file: seq<Chunk>, st: State, c1: Client)
    requires Inv(file, st) && Enabled(Unbounded, st, ClientReceives)
    requires c1 == OnData(Unbounded, st.client, st.data[0]).0
    ensures DataOk(file, st.(data := st.data[1..], client := c1))
  {
    var rest := st.data[1..];
    NumsAppend(st.client.window, st.data[0]);
    forall i | 0 <= i < |rest| ensures Recent(c1, rest[i]) && Travels(file, st.server, rest[i]) {
      assert rest[i] == st.data[i + 1] && Recent(st.client, st.data[i + 1]);
    }
  }

  lemma ReceiveKeepsClient(file: seq<Chunk>, st: State, c1: Client)
    requires Inv(file, st) && Enabled(Unbounded, st, ClientReceives)
    requires c1 == OnData(Unbounded, st.client, st.data[0]).0
    ensures ReceiverOk(file, st.(client := c1))
    ensures c1.lastAck == st.client.lastAck && forall k :: Holds(st.client, k) ==> Holds(c1, k)
  {
    assert Travels(file, st.server, st.data[0]);
    NumsAppend(st.client.window, st.data[0]);
  }

  lemma ClientReceivesKeeps(file: seq<Chunk>, st: State)
    requires Inv(file, st) && Enabled(Unbounded, st, ClientReceives)
    ensures Inv(file, Apply(Unbounded, st, ClientReceives))
  {
    var st1 := Apply(Unbounded, st, ClientReceives);
    GrowingAppend(st.server, st.acks, st.client.lastAck, st.client.lastAck);
    ReceiveKeepsClient(file, st, st1.client);
    ReceiveKeepsData(file, st, st1.client);
  }

  // A fresh acknowledgement tells exactly what the client holds.
  lemma MakeAckOk(file: seq<Chunk>, s: Server, c: Client)
    requires ClientOk(file, c) && c.expected !in Nums(c.window)
    requires c.expected <= s.next && forall k | k in Nums(c.window) :: k < s.next
    ensures AckOk(s, MakeAck(c))
    ensures forall k :: Told(MakeAck(c), k) <==> Holds(c, k)
  {
    NumsSize(c.window);
  }

  // Once the end-of-file packet exists nothing else is left to deliver.
  lemma OnlyFinLeft(file: seq<Chunk>, st: State)
    requires Inv(file, st) && st.server.finSent && !st.client.done
    ensures st.client.expected == |file|
  {
    FinMeansAllWritten(file, st);
  }

  lemma FlushKeepsData(file: seq<Chunk>, st: State, f: Client)
    requires Inv(file, st) && !st.client.done && WrittenFrom(file, st.client, f) && !f.done
    ensures DataOk(file, st.(client := f))
    ensures forall d | d in f.window :: Travels(file, st.server, d)
    ensures f.expected <= st.server.next
  {
    forall d | d in f.window ensures Travels(file, st.server, d) {
      assert d.num in Nums(f.window);
    }
    if st.server.finSent {
      OnlyFinLeft(file, st);
    }
    forall i | 0 <= i < |st.data| ensures Recent(f, st.data[i]) {
      assert Recent(st.client, st.data[i]);
    }
    assert KnownBy(st.server, st.client.lastAck);
  }

  // The acknowledgement made after writing tells more than all before it.
  lemma FlushKeepsAcks(file: seq<Chunk>, st: State, f: Client)
    requires Inv(file, st) && !st.client.done && WrittenFrom(file, st.client, f) && !f.done
    requires f.expected !in Nums(f.window) && f.expected <= st.server.next
    requires forall d | d in f.window :: Travels(file, st.server, d)
    ensures AcksOk(st.(client := f.(lastAck := MakeAck(f)), acks := st.acks + [MakeAck(f)]))
  {
    if st.server.finSent {
      OnlyFinLeft(file, st);
    }
    MakeAckOk(file, st.server, f);
    GrowingAppend(st.server, st.acks, st.client.lastAck, MakeAck(f));
  }

  lemma DataAlone(file: seq<Chunk>, st: State, st1: State)
    requires DataOk(file, st)
    requires st1 == st.(client := st.client.(lastAck := st1.client.lastAck), acks := st1.acks)
    ensures DataOk(file, st1)
  {
    hide Travels;
    assert forall d | Recent(st.client, d) :: Recent(st1.client, d);
  }

  lemma WriteEndKeeps(file: seq<Chunk>, st: State, f: Client)
    requires Inv(file, st) && !st.client.done && WrittenFrom(file, st.client, f) && f.done
    ensures AcksOk(st.(client := f)) && DataOk(file, st.(client := f)) && f.output == file && f.expected == |file| + 1
  {
    hide Growing, KnownBy;
    forall k | Told(st.client.lastAck, k) ensures Holds(f, k) {
      assert Holds(st.client, k);
    }
  }

  lemma ClientWritesKeeps(file: seq<Chunk>, st: State)
    requires Inv(file, st) && Enabled(Unbounded, st, ClientWrites)
    ensures Inv(file, Apply(Unbounded, st, ClientWrites))
  {
    hide Flush, DataOk, AcksOk, ServerOk, Travels;
    var c := st.client;
    assert st.acks + [] == st.acks;
    if c.window != [] {
      var f := Flush(Unbounded, c);
      FlushKeeps(file, c);
      if f.done {
        WriteEndKeeps(file, st, f);
      } else {
        FlushKeepsData(file, st, f);
        FlushKeepsAcks(file, st, f);
        DataAlone(file, st.(client := f), Apply(Unbounded, st, ClientWrites));
      }
    }
  }

  // What an acknowledgement tells is what the server knows afterwards.
  lemma OnAckKnows(s: Server, a: Ack)
    requires AckOk(s, a) && KnownBy(s, a) && s.base <= a.num
    requires a.num - s.base <= MAX_WINDOW && forall k | k in s.unacked :: s.base <= k
    ensures var s1 := OnAck(Unbounded, s, a.num, a.window, Shown(a.sacks));
            && s1 == s.(base := a.num, window := a.window, unacked := s1.unacked)
            && KnownBy(s1, a)
            && (forall k | k in s1.unacked :: k >= a.num && k in s.unacked && s1.unacked[k] == s.unacked[k])
            && (a.num in s.unacked ==> a.num in s1.unacked)
  {
    var s1 := OnAck(Unbounded, s, a.num, a.window, Shown(a.sacks));
    var passed := Passed(Unbounded, s.base, a.num - s.base);
    forall k | s.base <= k < a.num ensures k in passed {
      assert k == Add(Unbounded, s.base, k - s.base);
    }
  }

  lemma OnAckServerOk(file: seq<Chunk>, s: Server, a: Ack)
    requires ServerOk(file, s) && AckOk(s, a) && KnownBy(s, a) && s.base <= a.num
    ensures ServerOk(file, OnAck(Unbounded, s, a.num, a.window, Shown(a.sacks)))
  {
    var s1 := OnAck(Unbounded, s, a.num, a.window, Shown(a.sacks));
    OnAckKnows(s, a);
    // Between the new base and next, only numbers named in the SACK are gone.
    var span := Range(a.num, s.next);
    forall k | k in span ensures k in s1.unacked.Keys + a.sacks {
      assert k !in s1.unacked ==> Known(s1, k);
    }
    SubsetSize(span, s1.unacked.Keys + a.sacks);
    UnionSize(s1.unacked.Keys, a.sacks);
    assert |s1.unacked| == |s1.unacked.Keys|;
    if a.num < s.next {
      assert !Told(a, a.num);
    }
  }

  lemma HearKeepsAcks(file: seq<Chunk>, st: State)
    requires Inv(file, st) && st.acks != [] && st.server.base <= st.acks[0].num
    ensures AcksOk(Apply(Unbounded, st, ServerHears))
    ensures var s := Apply(Unbounded, st, ServerHears).server;
            s.next == st.server.next && s.finSent == st.server.finSent
  {
    hide OnAck, DataOk, ReceiverOk;
    var st1 := Apply(Unbounded, st, ServerHears);
    var a := st.acks[0];
    OnAckKnows(st.server, a);
    hide ServerOk, Known, Told, Holds;
    forall i | 0 <= i < |st1.acks| ensures KnownBy(st1.server, st1.acks[i]) {
      assert NotBefore(a, st.acks[i + 1]);
      KnownByMore(st1.server, a, st1.acks[i]);
    }
    assert NotBefore(a, st.client.lastAck);
    KnownByMore(st1.server, a, st.client.lastAck);
  }

  lemma KnownByMore(s: Server, a: Ack, b: Ack)
    requires KnownBy(s, a) && NotBefore(a, b)
    ensures KnownBy(s, b)
  {
  }

  lemma ServerHearsKeeps(file: seq<Chunk>, st: State)
    requires Inv(file, st) && Enabled(Unbounded, st, ServerHears)
    ensures Inv(file, Apply(Unbounded, st, ServerHears))
  {
    hide OnAck, ServerOk, DataOk, ReceiverOk, AckOk;
    BaseBehindClient(file, st);
    OnAckServerOk(file, st.server, st.acks[0]);
    HearKeepsAcks(file, st);
    hide AcksOk;
    var st1 := Apply(Unbounded, st, ServerHears);
    TravelOn(file, st, st1.server);
    ReceiverAlone(file, st.(server := st1.server), st1);
  }

  // What is said of data and receiver does not depend on the acknowledgements.
  lemma ReceiverAlone(file: seq<Chunk>, st: State, st1: State)
    requires DataOk(file, st) && ReceiverOk(file, st) && st1 == st.(acks := st1.acks)
    ensures DataOk(file, st1) && ReceiverOk(file, st1)
  {
    hide Travels, Recent, Genuine;
  }

  lemma StepKeeps(file: seq<Chunk>, st: State, e: Event)
    requires Inv(file, st) && Enabled(Unbounded, st, e)
    ensures Inv(file, Apply(Unbounded, st, e))
  {
    match e
    case ServerFills => ServerSendsKeeps(file, st, e);
    case ServerResends(_) => ServerSendsKeeps(file, st, e);
    case ServerEnds => ServerSendsKeeps(file, st, e);
    case DataLost(_) => DataNetworkKeeps(file, st, e);
    case DataDoubled(_) => DataNetworkKeeps(file, st, e);
    case ClientReceives => ClientReceivesKeeps(file, st);
    case ClientWrites => ClientWritesKeeps(file, st);
    case AckLost(_) => AckNetworkKeeps(file, st, e);
    case AckDoubled(_) => AckNetworkKeeps(file, st, e);
    case ServerHears => ServerHearsKeeps(file, st);
  }

  lemma {:induction false} RunKeeps(file: seq<Chunk>, st: State, es: seq<Event>)
    requires Inv(file, st) && Run(Unbounded, st, es).Some?
    ensures Inv(file, Run(Unbounded, st, es).value)
    decreases |es|
  {
    if es != [] {
      StepKeeps(file, st, es[0]);
      RunKeeps(file, Apply(Unbounded, st, es[0]), es[1..]);
    }
  }

  // --- the programs, which wrap, behave like the unbounded reading ---------

  // w is u with every number reduced modulo 2048.
  ghost predicate StateWraps(w: State, u: State) {
    && ServerWraps(w.server, u.server)
    && w.data == WrapDatas(u.data)
    && w.client == WrapClient(u.client)
    && w.acks == WrapAcks(u.acks)
  }

  // Every DATA packet reaching the client is within 63 of what it expects, so
  // its residue cannot be mistaken for another number.
  lemma ArrivalsAreNear(file: seq<Chunk>, st: State)
    requires Inv(file, st) && !st.client.done
    ensures forall i | 0 <= i < |st.data| ::
              st.client.expected - 63 <= st.data[i].num <= st.client.expected + 62
  {
    BaseBehindClient(file, st);
    if st.server.finSent {
      OnlyFinLeft(file, st);
    }
    forall i | 0 <= i < |st.data|
      ensures st.client.expected - 63 <= st.data[i].num <= st.client.expected + 62
    {
      assert Travels(file, st.server, st.data[i]) && Recent(st.client, st.data[i]);
    }
  }

  lemma ResendWraps(file: seq<Chunk>, w: State, u: State, ahead: nat)
    requires Inv(file, u) && StateWraps(w, u)
    ensures Enabled(Wrapping, w, ServerResends(ahead)) == Enabled(Unbounded, u, ServerResends(ahead))
    ensures Enabled(Unbounded, u, ServerResends(ahead)) ==>
              StateWraps(Apply(Wrapping, w, ServerResends(ahead)), Apply(Unbounded, u, ServerResends(ahead)))
  {
    hide Inv, WrapDatas, WrapClient, ServerWraps, Narrow;
    SpanIsNarrow(file, u);
    if ahead < MODULUS {
      KeptWraps(w.server, u.server, ahead);
      if Enabled(Unbounded, u, ServerResends(ahead)) {
        WrapDatasAppend(u.data, [Data(u.server.base + ahead, u.server.unacked[u.server.base + ahead])]);
      }
    }
  }

  lemma SpanIsNarrow(file: seq<Chunk>, u: State)
    requires Inv(file, u)
    ensures Narrow(u.server)
  {
  }

  lemma WrapDatasAppend(a: seq<Data>, b: seq<Data>)
    ensures WrapDatas(a + b) == WrapDatas(a) + WrapDatas(b)
  {
  }

  lemma WrapAcksAppend(a: seq<Ack>, b: seq<Ack>)
    ensures WrapAcks(a + b) == WrapAcks(a) + WrapAcks(b)
  {
  }

  lemma ReceivesWraps(file: seq<Chunk>, w: State, u: State)
    requires Inv(file, u) && StateWraps(w, u) && Enabled(Unbounded, u, ClientReceives)
    ensures StateWraps(Apply(Wrapping, w, ClientReceives), Apply(Unbounded, u, ClientReceives))
  {
    hide ServerWraps, OnData, ServerOk, AcksOk, DataOk;
    ArrivalsAreNear(file, u);
    OnDataWraps(file, u.client, u.data[0]);
    assert w.data[1..] == WrapDatas(u.data[1..]);
    WrapAcksAppend(u.acks, OnData(Unbounded, u.client, u.data[0]).1);
  }

  lemma WritesWraps(file: seq<Chunk>, w: State, u: State)
    requires Inv(file, u) && StateWraps(w, u) && !u.client.done
    ensures StateWraps(Apply(Wrapping, w, ClientWrites), Apply(Unbounded, u, ClientWrites))
  {
    hide ServerWraps, ProcessWindow, ServerOk, AcksOk, DataOk;
    ProcessWindowWraps(file, u.client);
    WrapAcksAppend(u.acks, ProcessWindow(Unbounded, u.client).1);
  }

  lemma ClientWraps(file: seq<Chunk>, w: State, u: State, e: Event)
    requires Inv(file, u) && StateWraps(w, u) && (e == ClientReceives || e == ClientWrites)
    ensures Enabled(Wrapping, w, e) == Enabled(Unbounded, u, e)
    ensures Enabled(Unbounded, u, e) ==> StateWraps(Apply(Wrapping, w, e), Apply(Unbounded, u, e))
  {
    hide Inv, Apply, ServerWraps;
    if Enabled(Unbounded, u, e) {
      if e == ClientReceives {
        ReceivesWraps(file, w, u);
      } else {
        WritesWraps(file, w, u);
      }
    }
  }

  lemma ServerHearsWraps(file: seq<Chunk>, w: State, u: State)
    requires Inv(file, u) && StateWraps(w, u) && u.acks != []
    ensures StateWraps(Apply(Wrapping, w, ServerHears), Apply(Unbounded, u, ServerHears))
  {
    hide ServerWraps, OnAck, WrapClient, WrapDatas, DataOk, ReceiverOk;
    var a := u.acks[0];
    SpanIsNarrow(file, u);
    BaseBehindClient(file, u);
    FirstAckOk(file, u);
    hide Inv;
    ShownWraps(a.sacks);
    OnAckWraps(w.server, u.server, a.num, a.window, Shown(a.sacks));
    assert w.acks[1..] == WrapAcks(u.acks[1..]);
  }

  lemma FirstAckOk(file: seq<Chunk>, u: State)
    requires Inv(file, u) && u.acks != []
    ensures u.acks[0].num <= u.server.next && u.server.next <= u.server.base + MAX_WINDOW
    ensures forall k | k in u.acks[0].sacks :: u.acks[0].num < k < u.server.next
  {
    assert AckOk(u.server, u.acks[0]);
  }

  lemma NetworkWraps(w: State, u: State, e: Event)
    requires StateWraps(w, u) && (e.DataLost? || e.DataDoubled? || e.AckLost? || e.AckDoubled?)
    ensures Enabled(Wrapping, w, e) == Enabled(Unbounded, u, e)
    ensures Enabled(Unbounded, u, e) ==> StateWraps(Apply(Wrapping, w, e), Apply(Unbounded, u, e))
  {
    hide ServerWraps, WrapClient;
    match e
    case DataLost(at) =>
      if at < |u.data| { assert Lose(w.data, at) == WrapDatas(Lose(u.data, at)); }
    case DataDoubled(at) =>
      if at < |u.data| { assert Duplicate(w.data, at) == WrapDatas(Duplicate(u.data, at)); }
    case AckLost(at) =>
      if at < |u.acks| { assert Lose(w.acks, at) == WrapAcks(Lose(u.acks, at)); }
    case AckDoubled(at) =>
      if at < |u.acks| { assert Duplicate(w.acks, at) == WrapAcks(Duplicate(u.acks, at)); }
  }

  lemma ServerSendsWraps(file: seq<Chunk>, w: State, u: State, e: Event)
    requires Inv(file, u) && StateWraps(w, u) && (e == ServerFills || e == ServerEnds)
    ensures Enabled(Wrapping, w, e) == Enabled(Unbounded, u, e)
    ensures Enabled(Unbounded, u, e) ==> StateWraps(Apply(Wrapping, w, e), Apply(Unbounded, u, e))
  {
    SpanIsNarrow(file, u);
    hide Inv, WrapClient;
    MapWrapsSize(w.server.unacked, u.server.unacked, u.server.base);
    hide MapWraps;
    if e == ServerFills {
      FillWraps(w.server, u.server);
      hide Fill;
      WrapDatasAppend(u.data, Fill(Unbounded, u.server).1);
    } else {
      WrapDatasAppend(u.data, [Fin(u.server)]);
    }
  }

  lemma StepWraps(file: seq<Chunk>, w: State, u: State, e: Event)
    requires Inv(file, u) && StateWraps(w, u)
    ensures Enabled(Wrapping, w, e) == Enabled(Unbounded, u, e)
    ensures Enabled(Unbounded, u, e) ==> StateWraps(Apply(Wrapping, w, e), Apply(Unbounded, u, e))
  {
    hide Inv, Apply;
    match e
    case ServerFills => ServerSendsWraps(file, w, u, e);
    case ServerResends(ahead) => ResendWraps(file, w, u, ahead);
    case ServerEnds => ServerSendsWraps(file, w, u, e);
    case ClientReceives => ClientWraps(file, w, u, e);
    case ClientWrites => ClientWraps(file, w, u, e);
    case ServerHears =>
      if u.acks != [] { ServerHearsWraps(file, w, u); }
    case _ => NetworkWraps(w, u, e);
  }

  lemma {:induction false} RunWraps(file: seq<Chunk>, w: State, u: State, es: seq<Event>)
    requires Inv(file, u) && StateWraps(w, u)
    ensures Run(Wrapping, w, es).Some? == Run(Unbounded, u, es).Some?
    ensures Run(Unbounded, u, es).Some? ==>
              StateWraps(Run(Wrapping, w, es).value, Run(Unbounded, u, es).value)
    decreases |es|
  {
    if es != [] {
      StepWraps(file, w, u, es[0]);
      if Enabled(Unbounded, u, es[0]) {
        StepKeeps(file, u, es[0]);
        RunWraps(file, Apply(Wrapping, w, es[0]), Apply(Unbounded, u, es[0]), es[1..]);
      }
    }
  }

  // --- main results ---------------------------------------------------------

  // Refinement: for every file and every sequence of events, the wrapping
  // system can follow it exactly when the unbounded one can, and then every
  // number in it is the unbounded one's residue and nothing else differs.
  lemma WrappingBehavesLikeUnbounded(bytes: seq<byte>, window: int, es: seq<Event>)
    requires window <= MAX_WINDOW
    ensures var init := Init(Chunks(bytes), window);
            var w := Run(Wrapping, init, es);
            var u := Run(Unbounded, init, es);
            w.Some? == u.Some? && (u.Some? ==> StateWraps(w.value, u.value) && Inv(Chunks(bytes), u.value))
  {
    var file := Chunks(bytes);
    var init := Init(file, window);
    ChunksOfFile(bytes);
    assert forall i | 0 <= i < |file| :: file[i] in file;
    InitInv(file, window);
    RunWraps(file, init, init, es);
    if Run(Unbounded, init, es).Some? {
      RunKeeps(file, init, es);
    }
  }

  // Safety: what the client wrote is always a prefix of the file, and it is the
  // whole file as soon as the server sent the end-of-file packet or the client
  // accepted one.
  lemma OutputIsPrefixOfFile(bytes: seq<byte>, window: int, es: seq<Event>)
    requires window <= MAX_WINDOW
    requires Run(Wrapping, Init(Chunks(bytes), window), es).Some?
    ensures var w := Run(Wrapping, Init(Chunks(bytes), window), es).value;
            && Concat(w.client.output) <= bytes
            && (w.server.finSent || w.client.done ==> Concat(w.client.output) == bytes)
  {
    var file := Chunks(bytes);
    WrappingBehavesLikeUnbounded(bytes, window, es);
    var u := Run(Unbounded, Init(file, window), es).value;
    ChunksOfFile(bytes);
    ConcatPrefix(u.client.output, file);
    if u.server.finSent {
      FinMeansAllWritten(file, u);
    }
  }

  // The numbers in use: the span from base to next never exceeds 63 although
  // the server compares only the count of packets it keeps with the window, every
  // number in it is kept or was received, and base itself is always kept.
  lemma SpanIsBounded(bytes: seq<byte>, window: int, es: seq<Event>)
    requires window <= MAX_WINDOW
    requires Run(Unbounded, Init(Chunks(bytes), window), es).Some?
    ensures var u := Run(Unbounded, Init(Chunks(bytes), window), es).value;
            && u.server.base <= u.server.next <= u.server.base + 63
            && (u.server.base < u.server.next ==> u.server.base in u.server.unacked)
            && (forall k | u.server.base <= k < u.server.next ::
                  k in u.server.unacked || Holds(u.client, k))
            && (!u.client.done ==> forall i | 0 <= i < |u.data| ::
                  u.client.expected - 63 <= u.data[i].num <= u.client.expected + 62)
  {
    WrappingBehavesLikeUnbounded(bytes, window, es);
    var u := Run(Unbounded, Init(Chunks(bytes), window), es).value;
    forall k | u.server.base <= k < u.server.next && k !in u.server.unacked ensures Holds(u.client, k) {
      assert Known(u.server, k);
    }
    if !u.client.done {
      ArrivalsAreNear(Chunks(bytes), u);
    }
  }
}
