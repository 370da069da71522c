// src/server.py sending to groupe_20's client over a network that may lose,
// duplicate and reorder without any bound: how long a file may be for no run to
// do harm.
module SackSafeLength {
  import opened SeqNums
  import opened Packets
  import opened ServerSession
  import opened SackClient
  import opened LogNetwork
  import opened SackReordering

  // Up to this many chunks no network does harm. With an initial window of 1 no
  // acknowledgement of 0 can arise, which makes one chunk of difference.
  function SafeLength(window: int): nat {
    if window == 1 then HALF_TURN + 2 else HALF_TURN + 1
  }

  // --- short files ---------------------------------------------------------------------

  // With a window of 1 nothing but packet 0 can come first.
  ghost predicate OneByOne(file: seq<Chunk>, window: int, st: State) {
    window == 1 && file != [] ==>
      && (st.client.lastAck.num == 0 ==> st.server.window <= 1 && st.server.next <= 1)
      && forall i | 0 <= i < |st.acks| :: st.acks[i].num >= 1
  }

  ghost predicate ShortInv(file: seq<Chunk>, window: int, st: State) {
    window >= 1 && |file| <= SafeLength(window) && Inv(file, st) && OneByOne(file, window, st)
  }

  // No acknowledgement can come too late, except at the end.
  lemma ShortIsClear(file: seq<Chunk>, window: int, st: State, e: SackReordering.Event)
    requires ShortInv(file, window, st)
    ensures Clear(Wrapping, file, st, e)
  {
    hide Inv;
    BaseIsTold(file, st);
  }

  // A window of 1 lets packet 1 leave only when packet 0 was acknowledged.
  lemma SendOneByOne(file: seq<Chunk>, window: int, st: State, e: LogNetwork.Event)
    requires Inv(file, st) && OneByOne(file, window, st) && Sends(e) && MaySend(Wrapping, st.server, e)
    ensures OneByOne(file, window, ApplySend(Wrapping, st, e))
  {
    hide Travels, ClientOk, AcksOlder, AllTravel;
    if st.client.lastAck.num == 0 && st.server.next > 0 {
      assert !Told(st.client.lastAck, 0);
      assert !Forgotten(st.server, 0);
      assert 0 in st.server.unacked.Keys && |st.server.unacked| == |st.server.unacked.Keys|;
    }
  }

  lemma AckOneByOne(file: seq<Chunk>, window: int, st: State, at: nat)
    requires Inv(file, st) && OneByOne(file, window, st) && at < |st.acks|
    ensures OneByOne(file, window, Apply(Wrapping, st, Net(AckArrives(at))))
  {
    AcksBelowNext(file, st, at);
    hide Inv, Shown;
  }

  // The first packet to come is packet 0, and it is in the window.
  lemma FirstIsZero(file: seq<Chunk>, window: int, st: State, d: Data)
    requires Inv(file, st) && OneByOne(file, window, st) && Travels(file, st.server, d)
    ensures window == 1 && file != [] && st.client.lastAck.num == 0 ==> d.num == 0
  {
    if d.payload == [] {
      EndMeansWritten(file, st);
    }
  }

  lemma DataOneByOne(file: seq<Chunk>, window: int, st: State, at: nat)
    requires Inv(file, st) && OneByOne(file, window, st) && Enabled(Wrapping, st, Net(DataArrives(at)))
    ensures OneByOne(file, window, Apply(Wrapping, st, Net(DataArrives(at))))
  {
    assert Travels(file, st.server, st.sent[at]);
    FirstIsZero(file, window, st, st.sent[at]);
    ClientFacts(file, st);
    hide Inv, Travels;
  }

  // Whoever holds packet 0 and writes is past it.
  lemma WriteOneByOne(file: seq<Chunk>, window: int, st: State)
    requires Inv(file, st) && Short(Wrapping, file) && OneByOne(file, window, st) && !st.client.done
    ensures OneByOne(file, window, Apply(Wrapping, st, ClientWrites))
  {
    hide Flush, Travels, SessionOk, AllTravel, AcksOlder, Genuine;
    var c := st.client;
    if window == 1 && file != [] && c.window != [] {
      assert c.window[0] in c.window;
      FirstIsZero(file, window, st, c.window[0]);
      ClientFacts(file, st);
      FlushIsUnbounded(Wrapping, file, st.server, c);
      FlushKeeps(file, c);
      var f := Flush(Unbounded, c);
      assert Holds(c, c.window[0].num);
      assert !f.done ==> Holds(f, c.window[0].num);
    }
  }

  lemma StepKeepsShort(file: seq<Chunk>, window: int, st: State, e: SackReordering.Event)
    requires ShortInv(file, window, st) && Enabled(Wrapping, st, e)
    ensures ShortInv(file, window, Apply(Wrapping, st, e))
  {
    ShortIsClear(file, window, st, e);
    StepKeeps(Wrapping, file, st, e);
    hide Inv, OneByOne;
    match e
    case ClientWrites => WriteOneByOne(file, window, st);
    case Net(DataArrives(at)) => DataOneByOne(file, window, st, at);
    case Net(AckArrives(at)) => AckOneByOne(file, window, st, at);
    case Net(send) => SendOneByOne(file, window, st, send);
  }

  lemma InitShort(file: seq<Chunk>, window: int)
    requires window >= 1 && |file| <= SafeLength(window) && NoEmptyChunk(file)
    ensures ShortInv(file, window, Init(file, window))
  {
    InitOk(file, window);
    hide Inv;
  }

  lemma ShortIsSound(file: seq<Chunk>, window: int, st: State)
    requires ShortInv(file, window, st)
    ensures Sound(file, st)
  {
    InvIsSound(file, st);
  }

  lemma {:induction false} RunKeepsShort(file: seq<Chunk>, window: int, st: State, es: seq<SackReordering.Event>)
    requires ShortInv(file, window, st) && Run(Wrapping, st, es).Some?
    ensures ShortInv(file, window, Run(Wrapping, st, es).value)
    decreases |es|
  {
    hide ShortInv, Apply;
    if es != [] {
      StepKeepsShort(file, window, st, es[0]);
      RunKeepsShort(file, window, Apply(Wrapping, st, es[0]), es[1..]);
    }
  }

  // --- longer files ------------------------------------------------------------------------

  // The first k chunks went through one at a time and were acknowledged.
  ghost predicate Delivered(file: seq<Chunk>, k: nat, st: State) {
    && k <= |file| && |st.sent| == k && st.server.window >= 1
    && st.client == Client(k % MODULUS, [], st.client.lastAck, file[..k], false)
    && st.server == Server(k % MODULUS, k % MODULUS, map[], st.server.window, file[k..], false, false)
  }

  lemma TakeNext(c: Client, chunk: Chunk)
    requires c.window == [] && c.expected < MODULUS && !c.done && chunk != []
    ensures OnData(Wrapping, c, Data(c.expected, chunk)) == (c.(window := [Data(c.expected, chunk)]), [])
    ensures var next := Add(Wrapping, c.expected, 1);
            ProcessWindow(Wrapping, c.(window := [Data(c.expected, chunk)]))
            == (Client(next, [], Ack(next, 63, {}), c.output + [chunk], false), [Ack(next, 63, {})])
  {
    var d := Data(c.expected, chunk);
    var full := c.(window := [d]);
    var written := Client(Add(Wrapping, c.expected, 1), [], c.lastAck, c.output + [chunk], false);
    assert [] + [d] == [d];
    assert Without([d], 0) == [];
    assert WriteOne(Wrapping, full) == written;
    assert Flush(Wrapping, written) == written;
    assert Flush(Wrapping, full) == written;
    assert Nums([]) == {};
  }

  lemma HearNext(s: Server, chunk: Chunk)
    requires s.base < MODULUS && s.unacked == map[s.base := chunk]
    ensures var next := Add(Wrapping, s.base, 1);
            OnAck(Wrapping, s, next, 63, Shown({})) == s.(base := next, window := 63, unacked := map[])
  {
    var next := Add(Wrapping, s.base, 1);
    assert Dist(Wrapping, next, s.base) == 1;
    assert Add(Wrapping, s.base, 0) in Passed(Wrapping, s.base, 1);
  }

  lemma OneChunkGoes(file: seq<Chunk>, k: nat, st: State) returns (es: seq<SackReordering.Event>, t: State)
    requires Delivered(file, k, st) && k < |file| && file[k] != []
    ensures Run(Wrapping, st, es) == Some(t) && Delivered(file, k + 1, t)
    ensures t.acks == st.acks + [Ack((k + 1) % MODULUS, 63, {})]
  {
    hide OnData, ProcessWindow, OnAck, Run;
    RunNothing(Wrapping, st);
    var num := k % MODULUS;
    assert Add(Wrapping, num, 1) == (k + 1) % MODULUS;
    assert file[k..][1..] == file[k + 1..] && file[..k + 1] == file[..k] + [file[k]];
    var st1 := Apply(Wrapping, st, Net(ServerFills));
    RunOneMore(Wrapping, st, [], st, Net(ServerFills));
    assert st1.sent[k] == Data(num, file[k]);
    TakeNext(st.client, file[k]);
    var st2 := Apply(Wrapping, st1, Net(DataArrives(k)));
    RunOneMore(Wrapping, st, [] + [Net(ServerFills)], st1, Net(DataArrives(k)));
    assert st2.acks == st.acks;
    var st3 := Apply(Wrapping, st2, ClientWrites);
    RunOneMore(Wrapping, st, [] + [Net(ServerFills)] + [Net(DataArrives(k))], st2, ClientWrites);
    HearNext(st3.server, file[k]);
    var e := Net(AckArrives(|st.acks|));
    t := Apply(Wrapping, st3, e);
    RunOneMore(Wrapping, st, [] + [Net(ServerFills)] + [Net(DataArrives(k))] + [ClientWrites], st3, e);
    es := [] + [Net(ServerFills)] + [Net(DataArrives(k))] + [ClientWrites] + [e];
  }

  function Replies(m: nat, n: nat): (r: seq<Ack>)
    requires m <= n
    ensures |r| == n - m && forall i | 0 <= i < n - m :: r[i] == Ack((m + 1 + i) % MODULUS, 63, {})
  {
    seq(n - m, i requires 0 <= i < n - m => Ack((m + 1 + i) % MODULUS, 63, {}))
  }

  lemma {:induction false} DeliverUpTo(file: seq<Chunk>, m: nat, st: State, n: nat)
    returns (es: seq<SackReordering.Event>, t: State)
    requires Delivered(file, m, st) && m <= n <= |file| && NoEmptyChunk(file)
    ensures Run(Wrapping, st, es) == Some(t) && Delivered(file, n, t) && t.acks == st.acks + Replies(m, n)
    decreases n - m
  {
    hide Run;
    if m == n {
      es, t := [], st;
      RunNothing(Wrapping, st);
      assert st.acks + Replies(m, n) == st.acks;
    } else {
      var first, mid := OneChunkGoes(file, m, st);
      hide Delivered;
      var rest;
      rest, t := DeliverUpTo(file, m + 1, mid, n);
      RunAppend(Wrapping, st, first, rest);
      es := first + rest;
      assert Replies(m, n) == [Ack((m + 1) % MODULUS, 63, {})] + Replies(m + 1, n);
    }
  }

  // Chunk 1 overtakes chunk 0: the client asks for 0 although it is on its way.
  lemma StartSwapped(file: seq<Chunk>, window: int) returns (es: seq<SackReordering.Event>, t: State)
    requires window >= 2 && |file| >= 2 && file[0] != [] && file[1] != []
    ensures Run(Wrapping, Init(file, window), es) == Some(t) && Delivered(file, 2, t)
    ensures t.acks == [Ack(0, 62, {1}), Ack(2, 63, {})]
  {
    hide OnData, ProcessWindow, OnAck, Run;
    var s0 := Init(file, window);
    RunNothing(Wrapping, s0);
    assert file[0..] == file && file[..2] == [file[0], file[1]];
    var s1 := Apply(Wrapping, s0, Net(ServerFills));
    RunOneMore(Wrapping, s0, [], s0, Net(ServerFills));
    var s2 := Apply(Wrapping, s1, Net(ServerFills));
    RunOneMore(Wrapping, s0, [] + [Net(ServerFills)], s1, Net(ServerFills));
    assert s2.server == Server(0, 2, map[0 := file[0], 1 := file[1]], window, file[2..], false, false);
    assert s2.sent == [Data(0, file[0]), Data(1, file[1])];
    TakeSecond(file[1]);
    TakeFirst(file[0], file[1]);
    var s3 := Apply(Wrapping, s2, Net(DataArrives(1)));
    RunOneMore(Wrapping, s0, [] + [Net(ServerFills)] + [Net(ServerFills)], s2, Net(DataArrives(1)));
    var s4 := Apply(Wrapping, s3, ClientWrites);
    RunOneMore(Wrapping, s0, [] + [Net(ServerFills)] + [Net(ServerFills)] + [Net(DataArrives(1))], s3, ClientWrites);
    var run := [] + [Net(ServerFills)] + [Net(ServerFills)] + [Net(DataArrives(1))] + [ClientWrites];
    var s5 := Apply(Wrapping, s4, Net(DataArrives(0)));
    RunOneMore(Wrapping, s0, run, s4, Net(DataArrives(0)));
    var s6 := Apply(Wrapping, s5, ClientWrites);
    RunOneMore(Wrapping, s0, run + [Net(DataArrives(0))], s5, ClientWrites);
    HearTwo(s6.server, file[0], file[1]);
    t := Apply(Wrapping, s6, Net(AckArrives(1)));
    RunOneMore(Wrapping, s0, run + [Net(DataArrives(0))] + [ClientWrites], s6, Net(AckArrives(1)));
    es := run + [Net(DataArrives(0))] + [ClientWrites] + [Net(AckArrives(1))];
  }

  // The client holding chunk 1 only, and having asked for chunk 0.
  function Asking(b: Chunk): Client {
    NewClient().(window := [Data(1, b)], lastAck := Ack(0, 62, {1}))
  }

  lemma NumsOfOne(d: Data)
    ensures Nums([d]) == {d.num}
  {
    assert d in [d];
  }

  lemma FlushNothing(c: Client)
    requires IndexOf(c.window, c.expected) == |c.window|
    ensures Flush(Wrapping, c) == c
  {
    hide IndexOf, WriteOne;
  }

  lemma TakeSecond(b: Chunk)
    ensures OnData(Wrapping, NewClient(), Data(1, b)) == (NewClient().(window := [Data(1, b)]), [])
    ensures ProcessWindow(Wrapping, NewClient().(window := [Data(1, b)])) == (Asking(b), [Ack(0, 62, {1})])
  {
    hide Nums, Flush;
    assert [] + [Data(1, b)] == [Data(1, b)];
    assert IndexOf([Data(1, b)][1..], 0) == 0;
    NumsOfOne(Data(1, b));
    FlushNothing(NewClient().(window := [Data(1, b)]));
  }

  lemma FlushNext(c: Client)
    requires !c.done && IndexOf(c.window, c.expected) < |c.window|
    ensures Flush(Wrapping, c) == Flush(Wrapping, WriteOne(Wrapping, c))
  {
    hide WriteOne;
  }

  lemma WriteBoth(a: Chunk, b: Chunk)
    requires a != [] && b != []
    ensures Flush(Wrapping, Asking(b).(window := [Data(1, b), Data(0, a)]))
            == Client(2, [], Ack(0, 62, {1}), [a, b], false)
  {
    var both := Asking(b).(window := [Data(1, b), Data(0, a)]);
    var one := Client(1, [Data(1, b)], Ack(0, 62, {1}), [a], false);
    var none := Client(2, [], Ack(0, 62, {1}), [a, b], false);
    assert [Data(1, b), Data(0, a)][1..] == [Data(0, a)] && IndexOf([Data(0, a)], 0) == 0;
    assert Without([Data(1, b), Data(0, a)], 1) == [Data(1, b)] && Without([Data(1, b)], 0) == [];
    assert WriteOne(Wrapping, both) == one && WriteOne(Wrapping, one) == none;
    FlushNext(both);
    FlushNext(one);
  }

  lemma TakeFirst(a: Chunk, b: Chunk)
    requires a != [] && b != []
    ensures var both := Asking(b).(window := [Data(1, b), Data(0, a)]);
            && OnData(Wrapping, Asking(b), Data(0, a)) == (both, [])
            && ProcessWindow(Wrapping, both) == (Client(2, [], Ack(2, 63, {}), [a, b], false), [Ack(2, 63, {})])
  {
    hide Flush;
    WriteBoth(a, b);
    assert [Data(1, b)] + [Data(0, a)] == [Data(1, b), Data(0, a)];
    assert IndexOf([Data(1, b)][1..], 0) == 0;
    assert Nums([]) == {};
  }

  lemma HearTwo(s: Server, a: Chunk, b: Chunk)
    requires s.base == 0 && s.unacked == map[0 := a, 1 := b]
    ensures OnAck(Wrapping, s, 2, 63, Shown({})) == s.(base := 2, window := 63, unacked := map[])
  {
    assert Add(Wrapping, 0, 0) in Passed(Wrapping, 0, 2) && Add(Wrapping, 0, 1) in Passed(Wrapping, 0, 2);
  }

  // All chunks but the last went through, the last was sent, and some old
  // acknowledgement is 1025 behind.
  ghost predicate LastUnderWay(file: seq<Chunk>, st: State, late: nat) {
    && file != [] && late < |st.acks| && st.acks[late].window >= 1 && st.client.output == file[..|file| - 1]
    && st.server.base < MODULUS && Dist(Wrapping, st.acks[late].num, st.server.base) == HALF_TURN - 1
    && st.server.unacked.Keys == {st.server.base} && st.server.unread == [] && !st.server.eof && !st.server.finSent
  }

  lemma SendLast(file: seq<Chunk>, window: int, es: seq<SackReordering.Event>, st: State, late: nat) returns (t: State)
    requires file != [] && Delivered(file, |file| - 1, st) && Run(Wrapping, Init(file, window), es) == Some(st)
    requires late < |st.acks| && st.acks[late].window >= 1
    requires Dist(Wrapping, st.acks[late].num, (|file| - 1) % MODULUS) == HALF_TURN - 1
    ensures Run(Wrapping, Init(file, window), es + [Net(ServerFills)]) == Some(t) && LastUnderWay(file, t, late)
  {
    hide Run;
    t := Apply(Wrapping, st, Net(ServerFills));
    RunOneMore(Wrapping, Init(file, window), es, st, Net(ServerFills));
  }

  lemma ReachLast(file: seq<Chunk>, window: int) returns (es: seq<SackReordering.Event>, late: nat, t: State)
    requires window >= 1 && |file| > SafeLength(window) && NoEmptyChunk(file)
    ensures Run(Wrapping, Init(file, window), es) == Some(t) && LastUnderWay(file, t, late)
  {
    hide Run, Delivered, LastUnderWay;
    var init, n := Init(file, window), |file| - 1;
    var run, st;
    if |file| == HALF_TURN + 2 {
      var first, two := StartSwapped(file, window);
      var rest;
      rest, st := DeliverUpTo(file, 2, two, n);
      RunAppend(Wrapping, init, first, rest);
      run := first + rest;
      late := 0;
    } else {
      StartInOrder(file, window);
      run, st := DeliverUpTo(file, 0, init, n);
      late := n - HALF_TURN - 2;
      assert st.acks[late] == Replies(0, n)[late];
      DistWraps(late + 1, n);
    }
    t := SendLast(file, window, run, st, late);
    es := run + [Net(ServerFills)];
  }

  lemma StartInOrder(file: seq<Chunk>, window: int)
    requires window >= 1
    ensures Delivered(file, 0, Init(file, window)) && Init(file, window).acks == []
  {
    assert file[0..] == file;
  }

  lemma OneLess(m: map<nat, Chunk>, k: nat, gone: set<nat>, shown: set<nat>)
    requires m.Keys == {k} && k in gone
    ensures m - gone - shown == map[]
  {
    assert (m - gone).Keys == {};
    assert (m - gone - shown).Keys == {};
  }

  lemma TooFarAround(s: Server, num: nat, window: int, shown: set<nat>)
    requires Dist(Wrapping, num, s.base) == HALF_TURN - 1 && s.base < MODULUS && s.unacked.Keys == {s.base}
    ensures var t := OnAck(Wrapping, s, num, window, shown);
            t.unacked == map[] && t == s.(base := t.base, window := window, unacked := t.unacked)
  {
    var gone := Passed(Wrapping, s.base, HALF_TURN - 1);
    assert Add(Wrapping, s.base, 0) in gone;
    hide Passed;
    OneLess(s.unacked, s.base, gone, shown);
    hide Add, Dist;
  }

  function AfterLateAck(late: nat): seq<SackReordering.Event> {
    [] + [Net(AckArrives(late))] + [Net(ServerFills)] + [Net(ServerEnds)]
  }

  lemma LateAckEnds(file: seq<Chunk>, st: State, late: nat)
    requires LastUnderWay(file, st, late)
    ensures Run(Wrapping, st, AfterLateAck(late)).Some? && !Sound(file, Run(Wrapping, st, AfterLateAck(late)).value)
  {
    hide OnAck, Run;
    var a := st.acks[late];
    TooFarAround(st.server, a.num, a.window, Shown(a.sacks));
    RunNothing(Wrapping, st);
    var st1 := Apply(Wrapping, st, Net(AckArrives(late)));
    RunOneMore(Wrapping, st, [], st, Net(AckArrives(late)));
    var st2 := Apply(Wrapping, st1, Net(ServerFills));
    RunOneMore(Wrapping, st, [] + [Net(AckArrives(late))], st1, Net(ServerFills));
    RunOneMore(Wrapping, st, [] + [Net(AckArrives(late))] + [Net(ServerFills)], st2, Net(ServerEnds));
    assert |file[..|file| - 1]| != |file|;
  }

  // Main result: with loss, duplication and reordering of any age, every run is
  // sound if and only if the file has at most SafeLength chunks.
  lemma SafeLengthIsExact(file: seq<Chunk>, window: int)
    requires window >= 1 && NoEmptyChunk(file)
    ensures |file| <= SafeLength(window) <==>
              forall es | Run(Wrapping, Init(file, window), es).Some? ::
                Sound(file, Run(Wrapping, Init(file, window), es).value)
  {
    hide Run, Sound, ShortInv, LastUnderWay;
    var init := Init(file, window);
    if |file| <= SafeLength(window) {
      InitShort(file, window);
      forall es | Run(Wrapping, init, es).Some? ensures Sound(file, Run(Wrapping, init, es).value) {
        RunKeepsShort(file, window, init, es);
        ShortIsSound(file, window, Run(Wrapping, init, es).value);
      }
    } else {
      var es, late, t := ReachLast(file, window);
      LateAckEnds(file, t, late);
      RunAppend(Wrapping, init, es, AfterLateAck(late));
    }
  }
}
