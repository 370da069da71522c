// A network that forgets nothing: whatever was sent may arrive at any time, any
// number of times, or never. src/server.py sends to a client of any kind.
module LogNetwork {
  import opened SeqNums
  import opened Packets
  import opened ServerSession

  // sent and acks are everything ever put on the network, in order.
  datatype LogState<C, A> = LogState(server: Server, client: C, sent: seq<Data>, acks: seq<A>)

  datatype Event =
    | ServerFills                 // the server reads a chunk and sends it, or meets the end of the file
    | ServerResends(ahead: nat)   // it sends again the packet numbered base + ahead
    | ServerEnds                  // it sends the end-of-file packet, or sends it again
    | DataArrives(at: nat)
    | AckArrives(at: nat)

  predicate Sends(e: Event) {
    e.ServerFills? || e.ServerResends? || e.ServerEnds?
  }

  predicate MaySend(ar: Arith, s: Server, e: Event)
    requires Sends(e)
  {
    match e
    case ServerFills => MayRead(s)
    case ServerResends(ahead) => Add(ar, s.base, ahead) in s.unacked && ahead < MODULUS
    case ServerEnds => MaySendFin(s)
  }

  // The server afterwards, and what it sends.
  function Send(ar: Arith, s: Server, e: Event): (Server, seq<Data>)
    requires Sends(e) && MaySend(ar, s, e)
  {
    match e
    case ServerFills => Fill(ar, s)
    case ServerResends(ahead) => (s, [Data(Add(ar, s.base, ahead), s.unacked[Add(ar, s.base, ahead)])])
    case ServerEnds => (s.(finSent := true), [Fin(s)])
  }

  function ApplySend<C, A>(ar: Arith, st: LogState<C, A>, e: Event): LogState<C, A>
    requires Sends(e) && MaySend(ar, st.server, e)
  {
    var (server, sent) := Send(ar, st.server, e);
    st.(server := server, sent := st.sent + sent)
  }

  // A packet of this session: a chunk already read, or the end marker.
  ghost predicate Travels(file: seq<Chunk>, s: Server, d: Data) {
    if d.payload == [] then s.finSent && d.num == |file|
    else d.num < s.next && d.num < |file| && d.payload == file[d.num]
  }

  ghost predicate AllTravel(file: seq<Chunk>, s: Server, sent: seq<Data>) {
    forall i | 0 <= i < |sent| :: Travels(file, s, sent[i])
  }

  // What travels goes on travelling while the server moves on.
  lemma TravelOn(file: seq<Chunk>, s: Server, t: Server, sent: seq<Data>, more: seq<Data>)
    requires AllTravel(file, s, sent) && AllTravel(file, t, more)
    requires s.next <= t.next && (s.finSent ==> t.finSent)
    ensures AllTravel(file, t, sent + more)
  {
    forall i | 0 <= i < |sent| ensures Travels(file, t, sent[i]) {
      assert Travels(file, s, sent[i]);
    }
  }

  // What a session sends is its own.
  lemma SendTravels(ar: Arith, file: seq<Chunk>, s: Server, e: Event)
    requires Sends(e) && MaySend(ar, s, e)
    requires s.next <= |file| && s.unread == file[s.next..] && (s.eof ==> s.next == |file|)
    requires ar.Wrapping? ==> |file| < MODULUS
    requires forall k | k in s.unacked :: k < s.next && s.unacked[k] == file[k]
    requires (forall i | 0 <= i < |file| :: file[i] != []) && (s.finSent ==> s.eof)
    ensures var (t, sent) := Send(ar, s, e);
            && AllTravel(file, t, sent)
            && t.base == s.base && s.next <= t.next && (s.finSent ==> t.finSent)
  {
  }

  // The first n packets of the file.
  function Firsts(file: seq<Chunk>, n: nat): (r: seq<Data>)
    requires n <= |file|
    ensures |r| == n && forall i | 0 <= i < n :: r[i] == Data(i, file[i])
  {
    seq(n, i requires 0 <= i < n => Data(i, file[i]))
  }

  // --- wrapping ----------------------------------------------------------------------

  lemma SentWraps(sent: seq<Data>, more: seq<Data>)
    ensures WrapDatas(sent + more) == WrapDatas(sent) + WrapDatas(more)
    ensures forall d :: WrapDatas([d]) == [WrapData(d)]
  {
  }

  // The server may send in one reading what it may send in the other ...
  lemma MaySendWraps(w: Server, u: Server, e: Event)
    requires ServerWraps(w, u) && Narrow(u) && Sends(e)
    ensures MaySend(Wrapping, w, e) <==> MaySend(Unbounded, u, e)
  {
    MapWrapsSize(w.unacked, u.unacked, u.base);
    if e.ServerResends? && e.ahead < MODULUS {
      KeptWraps(w, u, e.ahead);
    }
  }

  // ... and sends the same.
  lemma SendWraps(w: Server, u: Server, e: Event)
    requires ServerWraps(w, u) && Narrow(u) && Sends(e) && MaySend(Unbounded, u, e) && MaySend(Wrapping, w, e)
    ensures var (ws, wSent) := Send(Wrapping, w, e);
            var (us, uSent) := Send(Unbounded, u, e);
            ServerWraps(ws, us) && wSent == WrapDatas(uSent)
  {
    match e
    case ServerFills =>
      FillWraps(w, u);
    case ServerResends(ahead) =>
      KeptWraps(w, u, ahead);
    case ServerEnds =>
  }

  // --- the session -----------------------------------------------------------------

  // In the unbounded reading for every file, in the wrapping one for files short
  // enough that no number wraps.
  ghost predicate Straight(ar: Arith, file: seq<Chunk>) {
    ar.Wrapping? ==> |file| < MODULUS
  }

  ghost predicate SessionOk(file: seq<Chunk>, s: Server) {
    && s.base <= s.next <= |file|
    && s.unread == file[s.next..]
    && (s.eof ==> s.next == |file|)
    && (forall k | k in s.unacked :: s.base <= k < s.next && s.unacked[k] == file[k])
    && (s.finSent ==> s.eof && s.unacked == map[])
  }

  // The server was told of every packet it no longer keeps.
  ghost predicate Forgotten(s: Server, k: nat) {
    k < s.next && k !in s.unacked
  }

  lemma KeepsOneMore(m: map<nat, Chunk>, k: nat, v: Chunk)
    ensures |m[k := v]| <= |m| + 1
  {
    assert m[k := v].Keys == m.Keys + {k};
    assert |m.Keys| == |m| && |m[k := v].Keys| == |m[k := v]|;
  }

  // Memory grows by one packet at most, and only when the window has room.
  lemma SendKeepsRoom(ar: Arith, s: Server, e: Event)
    requires Sends(e) && MaySend(ar, s, e)
    ensures var t := Send(ar, s, e).0;
            t.unacked == s.unacked || (MayRead(s) && |t.unacked| <= |s.unacked| + 1)
  {
    if e.ServerFills? && s.unread != [] {
      KeepsOneMore(s.unacked, s.next, s.unread[0]);
    }
  }

  lemma FillKeepsSession(ar: Arith, file: seq<Chunk>, s: Server)
    requires SessionOk(file, s) && Straight(ar, file) && MayRead(s)
    ensures var t := Fill(ar, s).0;
            && SessionOk(file, t) && t.window == s.window && t.base == s.base
            && forall k: nat :: Forgotten(t, k) ==> Forgotten(s, k)
  {
    if s.unread != [] {
      assert s.unread[1..] == file[s.next + 1..];
      assert s.next < |file|;
      assert Add(ar, s.next, 1) == s.next + 1;
      hide Add;
    }
  }

  lemma SendKeepsSession(ar: Arith, file: seq<Chunk>, s: Server, e: Event)
    requires SessionOk(file, s) && Straight(ar, file) && Sends(e) && MaySend(ar, s, e)
    ensures var t := Send(ar, s, e).0;
            && SessionOk(file, t) && t.window == s.window && t.base == s.base
            && forall k: nat :: Forgotten(t, k) ==> Forgotten(s, k)
  {
    if e.ServerFills? {
      FillKeepsSession(ar, file, s);
      hide SessionOk, Fill, Forgotten;
    } else {
      hide Fill;
    }
  }

  lemma PassedIsRange(ar: Arith, base: nat, num: nat)
    requires base <= num && (ar.Wrapping? ==> num < MODULUS)
    ensures Passed(ar, base, num - base) == Range(base, num)
  {
    hide Range;
    forall k | k in Range(base, num) ensures k in Passed(ar, base, num - base) {
      assert k == Add(ar, base, k - base);
    }
  }

  // In the wrapping reading an acknowledgement must not be more than 1024 behind,
  // unless everything was acknowledged already.
  ghost predicate Usable(ar: Arith, file: seq<Chunk>, s: Server, num: nat) {
    ar.Wrapping? ==> s.base <= num + HALF_TURN || s.base == |file|
  }

  // What an acknowledgement leaves in the memory of a session.
  lemma OnAckMemory(ar: Arith, file: seq<Chunk>, s: Server, num: nat, window: int, shown: set<nat>)
    requires SessionOk(file, s) && Straight(ar, file) && num <= s.next && Usable(ar, file, s, num)
    ensures var t := OnAck(ar, s, num, window, shown);
            && t == s.(base := t.base, window := window, unacked := t.unacked)
            && (t.base == s.base || t.base == num)
            && (num >= s.base && num - s.base < HALF_TURN ==> t.base == num)
            && (forall k :: k in t.unacked <==> k in s.unacked && k !in shown && t.base <= k)
            && (forall k | k in t.unacked :: t.unacked[k] == s.unacked[k])
  {
    hide Passed, Range;
    var steps := Dist(ar, num, s.base);
    if num >= s.base {
      assert steps == num - s.base;
      PassedIsRange(ar, s.base, num);
    } else if ar.Wrapping? {
      assert steps == MODULUS + num - s.base;
      assert steps < HALF_TURN ==> forall k :: k !in s.unacked;
    }
  }

  // It removes only what lies below it or is shown.
  lemma OnAckKeepsSession(ar: Arith, file: seq<Chunk>, s: Server, num: nat, window: int, shown: set<nat>)
    requires SessionOk(file, s) && Straight(ar, file) && num <= s.next && Usable(ar, file, s, num)
    ensures var t := OnAck(ar, s, num, window, shown);
            && SessionOk(file, t)
            && (forall k: nat | Forgotten(t, k) :: Forgotten(s, k) || k < num || k in shown)
  {
    OnAckMemory(ar, file, s, num, window, shown);
    hide OnAck;
  }
}
