// The span of SackPunctual is exact: files long enough reach it with nothing late.
module SackSpan {
  import opened SeqNums
  import opened Packets
  import opened ServerSession
  import opened SackClient
  import opened LogNetwork
  import opened SackReordering
  import opened SackPunctual
  import opened SackCompletion

  // Where the server stands when it keeps exactly these numbers.
  ghost predicate Keeps(file: seq<Chunk>, s: Server, base: nat, next: nat, kept: set<nat>) {
    && s.base == base && s.next == next <= |file| && s.unread == file[next..] && !s.eof && !s.finSent
    && s.unacked.Keys == kept && forall k | k in kept :: k < next && s.unacked[k] == file[k]
  }

  ghost predicate SentFirst(file: seq<Chunk>, sent: seq<Data>, n: nat) {
    n <= |file| && sent == Firsts(file, n)
  }

  lemma SentOneMore(file: seq<Chunk>, sent: seq<Data>, n: nat)
    requires SentFirst(file, sent, n) && n < |file|
    ensures SentFirst(file, sent + [Data(n, file[n])], n + 1)
  {
    assert Firsts(file, n + 1) == Firsts(file, n) + [Data(n, file[n])];
  }

  lemma KeepsOneMoreSent(file: seq<Chunk>, s: Server, base: nat, next: nat, kept: set<nat>)
    requires Keeps(file, s, base, next, kept) && next < |file| && |kept| < s.window
    ensures MayRead(s) && Keeps(file, Fill(Unbounded, s).0, base, next + 1, kept + {next})
    ensures Fill(Unbounded, s).1 == [Data(next, file[next])] && Fill(Unbounded, s).0.window == s.window
  {
    assert |s.unacked| == |s.unacked.Keys|;
    assert file[next..][1..] == file[next + 1..];
    assert s.unacked[next := file[next]].Keys == kept + {next};
  }

  lemma FillOnce(file: seq<Chunk>, st: State, base: nat, next: nat, kept: set<nat>)
    requires Keeps(file, st.server, base, next, kept) && next < |file| && |kept| < st.server.window
    requires SentFirst(file, st.sent, next)
    ensures Enabled(Unbounded, st, Net(ServerFills))
    ensures var t := Apply(Unbounded, st, Net(ServerFills));
            && t == st.(server := t.server, sent := t.sent) && t.server.window == st.server.window
            && Keeps(file, t.server, base, next + 1, kept + {next}) && SentFirst(file, t.sent, next + 1)
  {
    hide Keeps, SentFirst, Fill, MayRead;
    KeepsOneMoreSent(file, st.server, base, next, kept);
    SentOneMore(file, st.sent, next);
  }

  // The server fills its window up to the number upTo.
  lemma {:induction false} FillUp(file: seq<Chunk>, st: State, base: nat, next: nat, kept: set<nat>, upTo: nat)
    returns (es: seq<SackReordering.Event>, t: State)
    requires Keeps(file, st.server, base, next, kept) && next <= upTo <= |file|
    requires SentFirst(file, st.sent, next) && |kept| + (upTo - next) <= st.server.window
    ensures Leads(st, es, t) && t == st.(server := t.server, sent := t.sent) && t.server.window == st.server.window
    ensures Keeps(file, t.server, base, upTo, kept + Range(next, upTo)) && SentFirst(file, t.sent, upTo)
    decreases upTo - next
  {
    hide Leads, Range, Keeps, SentFirst, Apply, Enabled;
    LeadsNowhere(st);
    if next == upTo {
      es, t := [], st;
      assert kept + Range(next, upTo) == kept;
    } else {
      FillOnce(file, st, base, next, kept);
      LeadsOneMore(st, [], st, Net(ServerFills));
      var m := Apply(Unbounded, st, Net(ServerFills));
      UnionSize(kept, {next});
      var rest;
      rest, t := FillUp(file, m, base, next + 1, kept + {next}, upTo);
      LeadsOn(st, [] + [Net(ServerFills)], m, rest, t);
      es := [] + [Net(ServerFills)] + rest;
      assert kept + {next} + Range(next + 1, upTo) == kept + Range(next, upTo);
    }
  }

  // The client lacks packet 1 and holds those from 2 on.
  ghost predicate Lacks(c: Client, upTo: nat) {
    c.expected == 1 && !c.done && Nums(c.window) == Range(2, upTo) && |c.window| == upTo - 2
  }

  lemma LacksMore(c: Client, k: nat, chunk: Chunk)
    requires 2 <= k < 64 && Lacks(c, k)
    ensures var t := c.(window := c.window + [Data(k, chunk)]);
            OnData(Unbounded, c, Data(k, chunk)) == (t, []) && Lacks(t, k + 1)
  {
    hide Range;
    IndexedIffHeld(c.window, k);
    NumsAppend(c.window, Data(k, chunk));
    assert Range(2, k) + {k} == Range(2, k + 1);
  }

  lemma ArriveOnce(file: seq<Chunk>, st: State, k: nat, n: nat)
    requires SentFirst(file, st.sent, n) && 2 <= k < n <= 64 && Lacks(st.client, k)
    ensures var e := Net(DataArrives(k));
            Enabled(Unbounded, st, e) && InTime(st, e)
    ensures var t := Apply(Unbounded, st, Net(DataArrives(k)));
            t == st.(client := t.client) && Lacks(t.client, k + 1)
  {
    hide OnData, Range, Nums;
    assert st.sent[k] == Data(k, file[k]);
    LacksMore(st.client, k, file[k]);
    assert st.acks + [] == st.acks;
  }

  lemma {:induction false} ArriveUpTo(file: seq<Chunk>, st: State, k: nat, n: nat)
    returns (es: seq<SackReordering.Event>, t: State)
    requires SentFirst(file, st.sent, n) && 2 <= k <= n <= 64 && Lacks(st.client, k)
    ensures Leads(st, es, t) && t == st.(client := t.client) && Lacks(t.client, n)
    decreases n - k
  {
    hide Leads;
    LeadsNowhere(st);
    if k == n {
      es, t := [], st;
    } else {
      ArriveOnce(file, st, k, n);
      var e := Net(DataArrives(k));
      LeadsOneMore(st, [], st, e);
      var m := Apply(Unbounded, st, e);
      hide Apply, Enabled, Lacks, InTime, SentFirst;
      var rest;
      rest, t := ArriveUpTo(file, m, k + 1, n);
      LeadsOn(st, [] + [e], m, rest, t);
      es := [] + [e] + rest;
    }
  }

  // Packet 0 goes through alone.
  ghost predicate FirstThrough(file: seq<Chunk>, st: State) {
    && Keeps(file, st.server, 1, 1, {}) && st.server.window == MAX_WINDOW && SentFirst(file, st.sent, 1)
    && Lacks(st.client, 2) && st.acks == [Ack(1, MAX_WINDOW, {})]
  }

  lemma WriteFirst(chunk: Chunk)
    requires chunk != []
    ensures OnData(Unbounded, NewClient(), Data(0, chunk)) == (NewClient().(window := [Data(0, chunk)]), [])
    ensures var c := Client(1, [], Ack(1, MAX_WINDOW, {}), [chunk], false);
            ProcessWindow(Unbounded, NewClient().(window := [Data(0, chunk)])) == (c, [c.lastAck])
  {
    var full := NewClient().(window := [Data(0, chunk)]);
    var written := Client(1, [], NewClient().lastAck, [chunk], false);
    assert [] + [Data(0, chunk)] == [Data(0, chunk)] && Without([Data(0, chunk)], 0) == [] && [] + [chunk] == [chunk];
    assert WriteOne(Unbounded, full) == written;
    assert Flush(Unbounded, written) == written;
    assert Flush(Unbounded, full) == written;
    assert Nums([]) == {};
  }

  lemma HearFirst(file: seq<Chunk>, s: Server)
    requires Keeps(file, s, 0, 1, {0})
    ensures Keeps(file, OnAck(Unbounded, s, 1, MAX_WINDOW, Shown({})), 1, 1, {})
    ensures OnAck(Unbounded, s, 1, MAX_WINDOW, Shown({})).window == MAX_WINDOW
  {
    assert Add(Unbounded, 0, 0) in Passed(Unbounded, 0, 1);
  }

  lemma StartFirst(file: seq<Chunk>, window: int)
    requires window >= 1
    ensures Keeps(file, Init(file, window).server, 0, 0, {}) && SentFirst(file, [], 0)
  {
    assert file[0..] == file;
  }

  lemma FirstGoes(file: seq<Chunk>, window: int) returns (es: seq<SackReordering.Event>, t: State)
    requires window >= 1 && file != [] && NoEmptyChunk(file)
    ensures Leads(Init(file, window), es, t) && FirstThrough(file, t)
  {
    hide Leads, OnData, ProcessWindow, OnAck, Keeps;
    var st := Init(file, window);
    LeadsNowhere(st);
    StartFirst(file, window);
    FillOnce(file, st, 0, 0, {});
    LeadsOneMore(st, [], st, Net(ServerFills));
    var st1 := Apply(Unbounded, st, Net(ServerFills));
    assert {} + {0 as nat} == {0 as nat};
    WriteFirst(file[0]);
    LeadsOneMore(st, [] + [Net(ServerFills)], st1, Net(DataArrives(0)));
    var st2 := Apply(Unbounded, st1, Net(DataArrives(0)));
    LeadsOneMore(st, [] + [Net(ServerFills)] + [Net(DataArrives(0))], st2, ClientWrites);
    var st3 := Apply(Unbounded, st2, ClientWrites);
    assert st3.acks == [Ack(1, MAX_WINDOW, {})];
    HearFirst(file, st3.server);
    ServerAtZero(file, st3.server);
    es := [] + [Net(ServerFills)] + [Net(DataArrives(0))] + [ClientWrites];
    LeadsOneMore(st, es, st3, Net(AckArrives(0)));
    t := Apply(Unbounded, st3, Net(AckArrives(0)));
    es := es + [Net(AckArrives(0))];
    assert Nums([]) == Range(2, 2);
  }

  lemma ServerAtZero(file: seq<Chunk>, s: Server)
    requires Keeps(file, s, 0, 1, {0})
    ensures s.base == 0
  {
  }

  // The client answers that 2 to 63 are there and there is room for one more ...
  lemma WritesNothing(c: Client)
    requires Lacks(c, 64)
    ensures var a := Ack(1, 1, Range(2, 64));
            ProcessWindow(Unbounded, c) == (c.(lastAck := a), [a])
  {
    hide Range;
    IndexedIffHeld(c.window, 1);
    assert Flush(Unbounded, c) == c;
  }

  // ... the server forgets them, and an older answer opens the window again.
  lemma HearBoth(file: seq<Chunk>, s: Server)
    requires Keeps(file, s, 1, 64, Range(1, 64))
    ensures var t := OnAck(Unbounded, s, 1, 1, Shown(Range(2, 64)));
            && Keeps(file, t, 1, 64, {1})
            && Keeps(file, OnAck(Unbounded, t, 1, MAX_WINDOW, Shown({})), 1, 64, {1})
            && OnAck(Unbounded, t, 1, MAX_WINDOW, Shown({})).window == MAX_WINDOW
  {
    hide Range;
    assert Passed(Unbounded, 1, 0) == {};
    assert 3 in Range(2, 64);
    assert Shown(Range(2, 64)) == Range(2, 64);
    assert Range(1, 64) - {} - Range(2, 64) == {1};
  }

  // Main result: for every file of 126 chunks or more some run with nothing late
  // reaches the span that SackPunctual allows.
  lemma SpanIsReached(file: seq<Chunk>, window: int)
    requires 1 <= window <= MAX_WINDOW && NoEmptyChunk(file) && |file| > MAX_SPAN
    ensures exists es :: Punctual(Init(file, window), es) && Run(Wrapping, Init(file, window), es).Some?
              && Run(Unbounded, Init(file, window), es).Some?
              && var s := Run(Unbounded, Init(file, window), es).value.server; s.next - s.base == MAX_SPAN
  {
    var st := Init(file, window);
    var es, t := ReachSpan(file, window);
    InitSpread(file, window);
    InitWraps(file, window);
    hide InvSpread, StateWraps, Apply, Enabled, Punctual, Run;
    RunWraps(file, st, st, es);
  }

  lemma ReachSpan(file: seq<Chunk>, window: int) returns (es: seq<SackReordering.Event>, t: State)
    requires 1 <= window <= MAX_WINDOW && NoEmptyChunk(file) && |file| > MAX_SPAN
    ensures Leads(Init(file, window), es, t) && t.server.next - t.server.base == MAX_SPAN
  {
    hide Leads, OnData, ProcessWindow, OnAck, Range, SentFirst, Lacks;
    var st := Init(file, window);
    var st1, st2, more;
    es, st1 := FirstGoes(file, window);
    more, st2 := FillUp(file, st1, 1, 1, {}, 64);
    LeadsOn(st, es, st1, more, st2);
    es := es + more;
    var st3;
    more, st3 := ArriveUpTo(file, st2, 2, 64);
    LeadsOn(st, es, st2, more, st3);
    es := es + more;
    assert {} + Range(1, 64) == Range(1, 64);
    var st5;
    more, st5 := ReopenWindow(file, st3);
    LeadsOn(st, es, st3, more, st5);
    es := es + more;
    more, t := FillUp(file, st5, 1, 64, {1}, MAX_SPAN + 1);
    LeadsOn(st, es, st5, more, t);
    es := es + more;
  }

  lemma ReopenWindow(file: seq<Chunk>, st: State) returns (es: seq<SackReordering.Event>, t: State)
    requires Keeps(file, st.server, 1, 64, Range(1, 64)) && SentFirst(file, st.sent, 64)
    requires Lacks(st.client, 64) && st.acks == [Ack(1, MAX_WINDOW, {})]
    ensures Leads(st, es, t) && Keeps(file, t.server, 1, 64, {1}) && t.sent == st.sent
    ensures t.server.window == MAX_WINDOW
  {
    hide Leads, OnData, ProcessWindow, OnAck, Range, Keeps;
    LeadsNowhere(st);
    WritesNothing(st.client);
    LeadsOneMore(st, [], st, ClientWrites);
    var st1 := Apply(Unbounded, st, ClientWrites);
    HearBoth(file, st1.server);
    BaseIsOne(file, st1.server);
    LeadsOneMore(st, [] + [ClientWrites], st1, Net(AckArrives(1)));
    var st2 := Apply(Unbounded, st1, Net(AckArrives(1)));
    LeadsOneMore(st, [] + [ClientWrites] + [Net(AckArrives(1))], st2, Net(AckArrives(0)));
    t := Apply(Unbounded, st2, Net(AckArrives(0)));
    es := [] + [ClientWrites] + [Net(AckArrives(1))] + [Net(AckArrives(0))];
  }

  lemma BaseIsOne(file: seq<Chunk>, s: Server)
    requires Keeps(file, s, 1, 64, Range(1, 64))
    ensures s.base == 1 && OnAck(Unbounded, s, 1, 1, Shown(Range(2, 64))).base == 1
  {
    HearBoth(file, s);
    hide OnAck;
  }
}
