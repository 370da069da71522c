// No deadlock in the system of SackPunctual: every punctual run can be continued
// punctually until the file is written.
module SackCompletion {
  import opened SeqNums
  import opened Packets
  import opened ServerSession
  import opened SackClient
  import opened LogNetwork
  import opened SackReordering
  import opened SackPunctual

  // es leads from s to t in the unbounded reading, and nothing in it is late.
  ghost predicate Leads(s: State, es: seq<SackReordering.Event>, t: State) {
    Punctual(s, es) && Run(Unbounded, s, es) == Some(t)
  }

  lemma LeadsNowhere(s: State)
    ensures Leads(s, [], s)
  {
  }

  lemma {:induction false} LeadsOn(s: State, a: seq<SackReordering.Event>, m: State,
                                   b: seq<SackReordering.Event>, t: State)
    requires Leads(s, a, m) && Leads(m, b, t)
    ensures Leads(s, a + b, t)
    decreases |a|
  {
    hide Apply, Enabled, InTime;
    if a == [] {
      assert a + b == b;
    } else {
      assert (a + b)[0] == a[0] && (a + b)[1..] == a[1..] + b;
      LeadsOn(Apply(Unbounded, s, a[0]), a[1..], m, b, t);
    }
  }

  lemma LeadsOneMore(s: State, es: seq<SackReordering.Event>, m: State, e: SackReordering.Event)
    requires Leads(s, es, m) && Enabled(Unbounded, m, e) && InTime(m, e)
    ensures Leads(s, es + [e], Apply(Unbounded, m, e))
  {
    var t := Apply(Unbounded, m, e);
    hide Apply, Enabled, InTime;
    assert [e][1..] == [];
    LeadsNowhere(t);
    assert Leads(m, [e], t);
    hide Leads;
    LeadsOn(s, es, m, [e], t);
  }

  // The window the server knows of stays open.
  ghost predicate Open(file: seq<Chunk>, st: State) {
    InvSpread(file, st) && st.server.window >= 1
  }

  // Every acknowledgement advertises room.
  lemma HearKeepsOpen(file: seq<Chunk>, st: State, at: nat)
    requires Open(file, st) && at < |st.acks|
    ensures Apply(Unbounded, st, Net(AckArrives(at))).server.window >= 1
  {
    AckSaid(st.server, st.acks, at);
    hide Inv, Spread, Shown, Passed;
  }

  lemma StepKeepsOpen(file: seq<Chunk>, st: State, e: SackReordering.Event)
    requires Open(file, st) && Enabled(Unbounded, st, e)
    ensures Open(file, Apply(Unbounded, st, e))
  {
    StepKeepsSpread(file, st, e);
    if e.Net? && e.e.AckArrives? {
      HearKeepsOpen(file, st, e.e.at);
      hide Apply;
    }
    hide InvSpread, OnAck, OnData, ProcessWindow;
  }

  lemma {:induction false} RunKeepsOpen(file: seq<Chunk>, st: State, es: seq<SackReordering.Event>)
    requires Open(file, st) && Run(Unbounded, st, es).Some?
    ensures Open(file, Run(Unbounded, st, es).value)
    decreases |es|
  {
    hide Enabled, Apply, Open;
    if es != [] {
      StepKeepsOpen(file, st, es[0]);
      RunKeepsOpen(file, Apply(Unbounded, st, es[0]), es[1..]);
    }
  }

  // --- the client -----------------------------------------------------------------------

  // It waits for the packet it expects and has room for it.
  ghost predicate Waits(c: Client) {
    !c.done && c.expected !in Nums(c.window) && |c.window| < WINDOW_LEN
  }

  lemma WritingMakesRoom(file: seq<Chunk>, st: State)
    requires Open(file, st) && !st.client.done
    ensures var t := Apply(Unbounded, st, ClientWrites);
            && t.server == st.server && t.sent == st.sent && st.acks <= t.acks
            && (t.client.done || Waits(t.client))
  {
    ClientFacts(file, st);
    FlushKeeps(file, st.client);
    var f := Flush(Unbounded, st.client);
    hide Flush, ClientOk;
    if st.client.window != [] && !f.done {
      NewAckFits(file, st, f);
    }
    hide InvSpread;
  }

  // Once the packet it waits for is in the window, writing gets past it.
  lemma WritesPast(file: seq<Chunk>, c: Client)
    requires NoEmptyChunk(file) && ClientOk(file, c) && !c.done && c.expected in Nums(c.window)
    ensures var f := Flush(Unbounded, c);
            f.done || f.expected > c.expected
  {
    FlushKeeps(file, c);
    hide Flush, ClientOk;
    assert Holds(c, c.expected);
  }

  // A packet numbered at most what the client waits for is answered, at once or
  // when the client writes, by an acknowledgement above it.
  lemma OfferIsAnswered(file: seq<Chunk>, st: State, at: nat)
    requires Open(file, st) && Waits(st.client) && at < |st.sent| && st.sent[at].num <= st.client.expected
    ensures var m := Apply(Unbounded, st, Net(DataArrives(at)));
            var t := Apply(Unbounded, m, ClientWrites);
            && m.server == st.server && t.server == st.server && !m.client.done
            && (t.client.done || (|t.acks| > |st.acks| && t.acks[|st.acks|].num > st.sent[at].num))
  {
    ClientFacts(file, st);
    var c, d := st.client, st.sent[at];
    var m := Apply(Unbounded, st, Net(DataArrives(at)));
    StepKeepsOpen(file, st, Net(DataArrives(at)));
    WritingMakesRoom(file, m);
    if d.num == c.expected {
      IndexedIffHeld(c.window, d.num);
      NumsAppend(c.window, d);
      ClientFacts(file, m);
      WritesPast(file, m.client);
    }
    hide Open, Flush, ClientOk;
  }

  // --- completion -------------------------------------------------------------------------

  // The oldest packet still kept is sent again, or at the end the end marker.
  function Offer(s: Server): LogNetwork.Event {
    if s.base < s.next then ServerResends(0) else ServerEnds
  }

  lemma MayOffer(file: seq<Chunk>, st: State)
    requires Open(file, st) && (st.server.base < st.server.next || st.server.eof)
    ensures MaySend(Unbounded, st.server, Offer(st.server))
    ensures var t := ApplySend(Unbounded, st, Offer(st.server));
            && |t.sent| == |st.sent| + 1 && t.sent[|st.sent|].num == st.server.base
            && t == st.(server := t.server, sent := t.sent) && t.server.base == st.server.base
  {
    InvIsTight(file, st);
    hide ClientTold, Spread;
    assert st.server.base == st.server.next ==> st.server.unacked == map[];
  }

  lemma ClientNear(file: seq<Chunk>, st: State)
    requires Open(file, st) && !st.client.done
    ensures st.server.base <= st.client.expected <= st.server.base + MAX_SPAN
    ensures st.server.base <= st.server.next <= |file|
  {
    BaseIsTold(file, st);
    ClientFacts(file, st);
    hide ClientOk;
  }

  lemma AckAdvances(file: seq<Chunk>, st: State, at: nat)
    requires Open(file, st) && at < |st.acks| && st.acks[at].num > st.server.base
    ensures Apply(Unbounded, st, Net(AckArrives(at))).server.base == st.acks[at].num <= |file|
  {
    BaseIsTold(file, st);
    AcksBelowNext(file, st, at);
    hide ClientTold, Inv, OnAck;
    var a := st.acks[at];
    BaseAfterAck(st.server, a.num, a.window, Shown(a.sacks));
  }

  // From a client that waits: offer, deliver, write, and deliver the answer.
  lemma OfferAdvances(file: seq<Chunk>, st: State) returns (es: seq<SackReordering.Event>, t: State)
    requires Open(file, st) && Waits(st.client) && (st.server.base < st.server.next || st.server.eof)
    ensures Leads(st, es, t) && Open(file, t)
    ensures t.client.done || (st.server.base < t.server.base <= |file|)
  {
    ClientNear(file, st);
    MayOffer(file, st);
    LeadsNowhere(st);
    hide Open, Leads, OnData, ProcessWindow, OnAck, MaySend, Send;
    var offer := Net(Offer(st.server));
    var st1 := Apply(Unbounded, st, offer);
    LeadsOneMore(st, [], st, offer);
    StepKeepsOpen(file, st, offer);
    var at := |st.sent|;
    OfferIsAnswered(file, st1, at);
    var st2 := Apply(Unbounded, st1, Net(DataArrives(at)));
    LeadsOneMore(st, [] + [offer], st1, Net(DataArrives(at)));
    StepKeepsOpen(file, st1, Net(DataArrives(at)));
    t := Apply(Unbounded, st2, ClientWrites);
    LeadsOneMore(st, [] + [offer] + [Net(DataArrives(at))], st2, ClientWrites);
    StepKeepsOpen(file, st2, ClientWrites);
    es := [] + [offer] + [Net(DataArrives(at))] + [ClientWrites];
    if !t.client.done {
      var e := Net(AckArrives(|st1.acks|));
      AckAdvances(file, t, |st1.acks|);
      LeadsOneMore(st, es, t, e);
      StepKeepsOpen(file, t, e);
      es, t := es + [e], Apply(Unbounded, t, e);
    }
  }

  // Each round brings base forward or ends the transfer.
  lemma RoundAdvancesBase(file: seq<Chunk>, st: State) returns (es: seq<SackReordering.Event>, t: State)
    requires Open(file, st) && !st.client.done && (st.server.base < st.server.next || st.server.eof)
    ensures Leads(st, es, t) && Open(file, t)
    ensures t.client.done || (st.server.base < t.server.base <= |file|)
  {
    LeadsNowhere(st);
    WritingMakesRoom(file, st);
    StepKeepsOpen(file, st, ClientWrites);
    hide Open, Leads, ProcessWindow, Waits;
    var m := Apply(Unbounded, st, ClientWrites);
    LeadsOneMore(st, [], st, ClientWrites);
    es, t := [] + [ClientWrites], m;
    if !m.client.done {
      var rest;
      rest, t := OfferAdvances(file, m);
      LeadsOn(st, es, m, rest, t);
      es := es + rest;
    }
  }

  lemma FillGoesOn(file: seq<Chunk>, st: State)
    requires Open(file, st) && st.server.base == st.server.next && !st.server.eof
    ensures Leads(st, [Net(ServerFills)], Apply(Unbounded, st, Net(ServerFills)))
    ensures var t := Apply(Unbounded, st, Net(ServerFills));
            Open(file, t) && t.server.base == st.server.base && (t.server.eof || t.server.base < t.server.next)
  {
    assert st.server.unacked == map[];
    LeadsNowhere(st);
    hide Leads, InvSpread;
    LeadsOneMore(st, [], st, Net(ServerFills));
    StepKeepsOpen(file, st, Net(ServerFills));
    assert [] + [Net(ServerFills)] == [Net(ServerFills)];
  }

  lemma BaseInFile(file: seq<Chunk>, st: State)
    requires Open(file, st)
    ensures st.server.base <= st.server.next <= |file|
  {
  }

  lemma {:induction false} Completes(file: seq<Chunk>, st: State) returns (es: seq<SackReordering.Event>, t: State)
    requires Open(file, st)
    ensures Leads(st, es, t) && t.client.done
    decreases |file| - st.server.base, !st.server.eof, st.server.base == st.server.next
  {
    BaseInFile(file, st);
    hide Open, Leads, Apply;
    if st.client.done {
      es, t := [], st;
      LeadsNowhere(st);
    } else {
      var m;
      if st.server.base < st.server.next || st.server.eof {
        es, m := RoundAdvancesBase(file, st);
      } else {
        FillGoesOn(file, st);
        es, m := [Net(ServerFills)], Apply(Unbounded, st, Net(ServerFills));
      }
      t := m;
      if !m.client.done {
        var rest;
        rest, t := Completes(file, m);
        LeadsOn(st, es, m, rest, t);
        es := es + rest;
      }
    }
  }

  // Main result: whatever the wrapping system did with nothing late, some
  // continuation with nothing late ends with exactly the file written.
  lemma PunctualRunsComplete(bytes: seq<byte>, window: int, es: seq<SackReordering.Event>)
    requires 1 <= window <= MAX_WINDOW && Punctual(Init(Chunks(bytes), window), es)
    requires Run(Wrapping, Init(Chunks(bytes), window), es).Some?
    ensures exists more, w :: Punctual(Init(Chunks(bytes), window), es + more)
              && Run(Wrapping, Init(Chunks(bytes), window), es + more) == Some(w)
              && w.client.done && Concat(w.client.output) == bytes
  {
    hide Punctual, Run, Chunks, Concat, InvSpread, StateWraps, Tight;
    var file := Chunks(bytes);
    var init := Init(file, window);
    ChunksOfFile(bytes);
    assert forall i | 0 <= i < |file| :: file[i] in file;
    InitSpread(file, window);
    PunctualRunsAreSafe(bytes, window, es);
    RunKeepsOpen(file, init, es);
    var u := Run(Unbounded, init, es).value;
    var more, t := Completes(file, u);
    LeadsOn(init, es, u, more, t);
    PunctualRunsAreSafe(bytes, window, es + more);
    SameEnd(Run(Wrapping, init, es + more).value, t);
    assert Run(Wrapping, init, es + more) == Some(Run(Wrapping, init, es + more).value);
  }

  lemma SameEnd(w: State, u: State)
    requires StateWraps(w, u)
    ensures w.client.done == u.client.done
  {
    hide ServerWraps;
  }
}
