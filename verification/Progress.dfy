// No deadlock: from every reachable state of the system in SlidingWindow some
// finite sequence of events without loss or duplication delivers the file.
module Progress {
  import opened SeqNums
  import opened Packets
  import opened ServerSession
  import opened SackClient
  import opened SlidingWindow

  predicate Undisturbed(e: Event) {
    !e.DataLost? && !e.DataDoubled? && !e.AckLost? && !e.AckDoubled?
  }

  predicate LossFree(es: seq<Event>) {
    forall e | e in es :: Undisturbed(e)
  }

  // t follows from s by events among which nothing is lost or duplicated.
  ghost predicate Reaches(s: State, t: State) {
    exists es :: LossFree(es) && Run(Unbounded, s, es) == Some(t)
  }

  lemma {:induction false} RunAppend(ar: Arith, s: State, a: seq<Event>, b: seq<Event>)
    requires Run(ar, s, a).Some?
    ensures Run(ar, s, a + b) == Run(ar, Run(ar, s, a).value, b)
    decreases |a|
  {
    if a == [] {
      assert a + b == b;
    } else {
      assert (a + b)[0] == a[0] && (a + b)[1..] == a[1..] + b;
      RunAppend(ar, Apply(ar, s, a[0]), a[1..], b);
    }
  }

  lemma ReachesSelf(s: State)
    ensures Reaches(s, s)
  {
    assert LossFree([]) && Run(Unbounded, s, []) == Some(s);
  }

  lemma ReachesTrans(s: State, m: State, t: State)
    requires Reaches(s, m) && Reaches(m, t)
    ensures Reaches(s, t)
  {
    var a :| LossFree(a) && Run(Unbounded, s, a) == Some(m);
    var b :| LossFree(b) && Run(Unbounded, m, b) == Some(t);
    RunAppend(Unbounded, s, a, b);
    assert LossFree(a + b);
  }

  // One event more.
  lemma ReachesStep(s: State, m: State, e: Event)
    requires Reaches(s, m) && Undisturbed(e) && Enabled(Unbounded, m, e)
    ensures Reaches(s, Apply(Unbounded, m, e))
  {
    var t := Apply(Unbounded, m, e);
    var one := [e];
    assert one[1..] == [] && Run(Unbounded, t, []) == Some(t);
    assert LossFree(one) && Run(Unbounded, m, one) == Some(t);
    ReachesTrans(s, m, t);
  }

  // The invariant, with a window that lets the server send.
  ghost predicate Open(file: seq<Chunk>, st: State) {
    Inv(file, st) && st.server.window >= 1
  }

  // The receiver never advertises an empty window.
  lemma AdvertisesRoom(s: Server, a: Ack)
    requires AckOk(s, a)
    ensures a.window >= 1 && a.window + |a.sacks| == 63
  {
    assert a.sacks <= Range(a.num + 1, a.num + WINDOW_LEN);
    SubsetSize(a.sacks, Range(a.num + 1, a.num + WINDOW_LEN));
  }

  lemma StepKeepsOpen(file: seq<Chunk>, st: State, e: Event)
    requires Open(file, st) && Enabled(Unbounded, st, e)
    ensures Open(file, Apply(Unbounded, st, e))
  {
    StepKeeps(file, st, e);
    if e == ServerHears {
      AdvertisesRoom(st.server, st.acks[0]);
    }
  }

  // A full window always contains the packet that is next in order.
  lemma FullWindowIsReady(file: seq<Chunk>, c: Client)
    requires ClientOk(file, c) && |c.window| >= WINDOW_LEN
    ensures c.expected in Nums(c.window)
  {
    NumsSize(c.window);
    if c.expected !in Nums(c.window) {
      var above := Range(c.expected + 1, c.expected + WINDOW_LEN);
      forall k | k in Nums(c.window) ensures k in above {}
      SubsetSize(Nums(c.window), above);
    }
  }

  // Writing when the next packet is there moves the client forward.
  lemma WritingAdvances(file: seq<Chunk>, st: State)
    requires Inv(file, st) && !st.client.done && st.client.expected in Nums(st.client.window)
    ensures var t := Apply(Unbounded, st, ClientWrites);
            && t.client.expected > st.client.expected
            && t.server == st.server && t.data == st.data
            && (!t.client.done ==> t.acks == st.acks + [t.client.lastAck])
  {
    hide AcksOk, DataOk, ServerOk, Flush;
    var c := st.client;
    assert c.window != [];
    FlushKeeps(file, c);
    assert Holds(c, c.expected);
    assert Holds(Flush(Unbounded, c), c.expected) || Flush(Unbounded, c).done;
  }

  // Both channels empty and nothing ready to be written.
  ghost predicate Quiet(st: State) {
    st.data == [] && st.acks == [] && st.client.expected !in Nums(st.client.window)
  }

  // The server's side changed only by hearing acknowledgements.
  ghost predicate OnlyHeard(s: Server, t: Server) {
    t.base >= s.base && t.next == s.next && t.eof == s.eof
  }

  // Everything under way can be delivered.
  lemma {:induction false} Drain(file: seq<Chunk>, st: State) returns (t: State)
    requires Open(file, st) && !st.client.done
    ensures Reaches(st, t) && Open(file, t) && OnlyHeard(st.server, t.server)
    ensures t.client.done || Quiet(t)
    decreases |st.data|, |file| + 1 - st.client.expected, |st.acks|
  {
    ReachesSelf(st);
    if st.client.expected in Nums(st.client.window) {
      t := DrainAfter(file, st, ClientWrites);
    } else if st.data != [] {
      if |st.client.window| >= WINDOW_LEN {
        FullWindowIsReady(file, st.client);
      }
      t := DrainAfter(file, st, ClientReceives);
    } else if st.acks != [] {
      t := DrainAfter(file, st, ServerHears);
    } else {
      t := st;
    }
  }

  lemma {:induction false} DrainAfter(file: seq<Chunk>, st: State, e: Event) returns (t: State)
    requires Open(file, st) && !st.client.done && Enabled(Unbounded, st, e)
    requires e == ClientReceives || e == ServerHears
             || (e == ClientWrites && st.client.expected in Nums(st.client.window))
    ensures Reaches(st, t) && Open(file, t) && OnlyHeard(st.server, t.server)
    ensures t.client.done || Quiet(t)
    decreases |st.data|, |file| + 1 - st.client.expected, |st.acks|, 0
  {
    var m := Apply(Unbounded, st, e);
    ReachesSelf(st);
    ReachesStep(st, st, e);
    StepKeepsOpen(file, st, e);
    if e == ClientWrites {
      WritingAdvances(file, st);
    }
    if e == ServerHears {
      BaseBehindClient(file, st);
    }
    if m.client.done {
      t := m;
    } else {
      t := Drain(file, m);
      ReachesTrans(st, m, t);
    }
  }

  lemma RunOneMore(ar: Arith, s: State, es: seq<Event>, m: State, e: Event)
    requires Run(ar, s, es) == Some(m) && Enabled(ar, m, e)
    ensures Run(ar, s, es + [e]) == Some(Apply(ar, m, e))
  {
    hide Enabled, Apply;
    var t := Apply(ar, m, e);
    assert [e][1..] == [] && Run(ar, t, []) == Some(t);
    assert Run(ar, m, [e]) == Some(t);
    RunAppend(ar, s, es, [e]);
  }

  // The server resends base to a quiet client, which takes it from its socket.
  lemma BaseArrives(file: seq<Chunk>, st: State) returns (t: State)
    requires Open(file, st) && !st.client.done && Quiet(st)
    requires st.server.base < st.server.next
    ensures Run(Unbounded, st, [ServerResends(0), ClientReceives]) == Some(t)
    ensures Open(file, t) && !t.client.done && t.server == st.server && t.data == []
    ensures t.client.expected == st.client.expected
    ensures if st.server.base < st.client.expected then t.acks == [st.client.lastAck] && t.client == st.client
            else t.acks == [] && t.client.expected in Nums(t.client.window)
  {
    assert Run(Unbounded, st, []) == Some(st);
    var t1 := Apply(Unbounded, st, ServerResends(0));
    RunOneMore(Unbounded, st, [], st, ServerResends(0));
    StepKeepsOpen(file, st, ServerResends(0));
    if |st.client.window| >= WINDOW_LEN {
      FullWindowIsReady(file, st.client);
    }
    t := Apply(Unbounded, t1, ClientReceives);
    RunOneMore(Unbounded, st, [] + [ServerResends(0)], t1, ClientReceives);
    StepKeepsOpen(file, t1, ClientReceives);
    assert [] + [ServerResends(0)] + [ClientReceives] == [ServerResends(0), ClientReceives];
    BaseBehindClient(file, st);
    if st.server.base == st.client.expected {
      NumsAppend(st.client.window, t1.data[0]);
      ReceivedNext(st.client, t1.data[0]);
    }
  }

  // Hearing an acknowledgement above base moves base to it.
  lemma HearingAdvances(file: seq<Chunk>, st: State)
    requires Open(file, st) && st.acks != [] && st.acks[0].num > st.server.base
    ensures Open(file, Apply(Unbounded, st, ServerHears))
    ensures Apply(Unbounded, st, ServerHears).server.base == st.acks[0].num
  {
    hide DataOk, ReceiverOk;
    StepKeepsOpen(file, st, ServerHears);
    assert AckOk(st.server, st.acks[0]) && KnownBy(st.server, st.acks[0]);
    hide AcksOk, AckOk;
  }

  // Before the end-of-file packet exists the client cannot hold it.
  lemma EndIsNotHeld(file: seq<Chunk>, st: State)
    requires Inv(file, st) && !st.client.done && st.server.base < st.server.next
    ensures |file| !in Nums(st.client.window)
  {
    forall d | d in st.client.window ensures d.num != |file| {
      assert Travels(file, st.server, d);
    }
  }

  // So writing cannot end the transfer.
  lemma WritingGoesOn(file: seq<Chunk>, st: State)
    requires Inv(file, st) && !st.client.done && st.server.base < st.server.next
    ensures !Apply(Unbounded, st, ClientWrites).client.done
  {
    EndIsNotHeld(file, st);
    FlushKeeps(file, st.client);
    hide Inv, Flush, Nums;
  }

  lemma LastAckAsks(file: seq<Chunk>, st: State)
    requires Inv(file, st) && !st.client.done
    ensures st.client.lastAck.num == st.client.expected && st.server.base <= st.client.expected
  {
    BaseBehindClient(file, st);
  }

  // One round without loss: resend base, deliver it, let the client repeat its
  // acknowledgement or write, deliver the acknowledgement.
  function Round(st: State): seq<Event> {
    if st.server.base < st.client.expected then [ServerResends(0), ClientReceives] + [ServerHears]
    else [ServerResends(0), ClientReceives] + [ClientWrites] + [ServerHears]
  }

  // With nothing under way and base unacknowledged, that round is possible and
  // strictly increases base.
  lemma RoundAdvancesBase(file: seq<Chunk>, st: State) returns (t: State)
    requires Open(file, st) && !st.client.done && Quiet(st)
    requires st.server.base < st.server.next
    ensures LossFree(Round(st)) && Run(Unbounded, st, Round(st)) == Some(t)
    ensures Open(file, t) && !t.client.done && t.server.base > st.server.base
  {
    hide Inv, Run, Nums, Reaches;
    var t1 := BaseArrives(file, st);
    LastAckAsks(file, st);
    if st.server.base < st.client.expected {
      t := AnswerArrives(file, st, [ServerResends(0), ClientReceives], t1);
    } else {
      WritingAdvances(file, t1);
      WritingGoesOn(file, t1);
      var t2 := Apply(Unbounded, t1, ClientWrites);
      RunOneMore(Unbounded, st, [ServerResends(0), ClientReceives], t1, ClientWrites);
      StepKeepsOpen(file, t1, ClientWrites);
      LastAckAsks(file, t2);
      t := AnswerArrives(file, st, [ServerResends(0), ClientReceives] + [ClientWrites], t2);
    }
  }

  lemma AnswerArrives(file: seq<Chunk>, st: State, es: seq<Event>, m: State) returns (t: State)
    requires Run(Unbounded, st, es) == Some(m) && Open(file, m) && !m.client.done
    requires m.acks != [] && m.acks[0].num > m.server.base == st.server.base
    ensures Run(Unbounded, st, es + [ServerHears]) == Some(t)
    ensures Open(file, t) && !t.client.done && t.server.base > st.server.base
  {
    hide Run, Inv;
    HearingAdvances(file, m);
    t := Apply(Unbounded, m, ServerHears);
    RunOneMore(Unbounded, st, es, m, ServerHears);
  }

  lemma ReceivedNext(c: Client, d: Data)
    requires d.num == c.expected && c.expected !in Nums(c.window)
    ensures OnData(Unbounded, c, d) == (c.(window := c.window + [d]), [])
  {
    IndexedIffHeld(c.window, d.num);
  }

  lemma FlushFin(c: Client)
    requires !c.done && c.window == [Data(c.expected, [])]
    ensures Flush(Unbounded, c).done
  {
    assert IndexOf(c.window, c.expected) == 0;
    assert Flush(Unbounded, c) == Flush(Unbounded, WriteOne(Unbounded, c));
  }

  // The end-of-file packet, once sent to a quiet client, ends the transfer.
  lemma FinEnds(file: seq<Chunk>, st: State) returns (t: State)
    requires Open(file, st) && !st.client.done && Quiet(st) && MaySendFin(st.server)
    ensures Reaches(st, t) && Open(file, t) && t.client.done
  {
    ReachesSelf(st);
    var t1 := Apply(Unbounded, st, ServerEnds);
    ReachesStep(st, st, ServerEnds);
    StepKeepsOpen(file, st, ServerEnds);
    OnlyFinLeft(file, t1);
    var c := st.client;
    NumsSize(c.window);
    assert Nums(c.window) == {};
    ReceivedNext(c, t1.data[0]);
    var t2 := Apply(Unbounded, t1, ClientReceives);
    ReachesStep(st, t1, ClientReceives);
    StepKeepsOpen(file, t1, ClientReceives);
    FlushFin(t2.client);
    t := Apply(Unbounded, t2, ClientWrites);
    ReachesStep(st, t2, ClientWrites);
    StepKeepsOpen(file, t2, ClientWrites);
  }

  // A quiet system either advances or completes.
  lemma QuietGoesOn(file: seq<Chunk>, q: State) returns (t: State)
    requires Open(file, q) && !q.client.done && Quiet(q)
    ensures Reaches(q, t) && Open(file, t)
    ensures t.client.done || t.server.base > q.server.base
            || (t.server.base == q.server.base == q.server.next && !q.server.eof
                && (t.server.eof || t.server.base < t.server.next))
  {
    if q.server.base < q.server.next {
      t := RoundAdvancesBase(file, q);
      assert Reaches(q, t);
    } else if q.server.eof {
      assert q.server.unacked.Keys == {};
      t := FinEnds(file, q);
    } else {
      assert q.server.unacked.Keys == {};
      ReachesSelf(q);
      t := Apply(Unbounded, q, ServerFills);
      ReachesStep(q, q, ServerFills);
      StepKeepsOpen(file, q, ServerFills);
    }
  }

  // From every state of the invariant the transfer can be completed.
  lemma {:induction false} Completes(file: seq<Chunk>, st: State) returns (t: State)
    requires Open(file, st)
    ensures Reaches(st, t) && t.client.done
    decreases |file| - st.server.base, !st.server.eof, st.server.base == st.server.next
  {
    if st.client.done {
      ReachesSelf(st);
      t := st;
    } else {
      var q := Drain(file, st);
      if q.client.done {
        t := q;
      } else {
        var m := QuietGoesOn(file, q);
        ReachesTrans(st, q, m);
        if m.client.done {
          t := m;
        } else {
          t := Completes(file, m);
          ReachesTrans(st, m, t);
        }
      }
    }
  }

  // Main result, for the wrapping system: whatever happened so far, some
  // continuation without loss ends with the whole file written.
  lemma AlwaysCompletable(bytes: seq<byte>, window: int, es: seq<Event>)
    requires 1 <= window <= MAX_WINDOW
    requires Run(Wrapping, Init(Chunks(bytes), window), es).Some?
    ensures exists more, w :: LossFree(more)
              && Run(Wrapping, Init(Chunks(bytes), window), es + more) == Some(w)
              && w.client.done && Concat(w.client.output) == bytes
  {
    var file := Chunks(bytes);
    var init := Init(file, window);
    WrappingBehavesLikeUnbounded(bytes, window, es);
    var u := Run(Unbounded, init, es).value;
    ChunksOfFile(bytes);
    assert forall i | 0 <= i < |file| :: file[i] in file;
    InitInv(file, window);
    RunKeepsOpen(file, init, es);
    var t := Completes(file, u);
    var more :| LossFree(more) && Run(Unbounded, u, more) == Some(t);
    RunAppend(Unbounded, init, es, more);
    WrappingBehavesLikeUnbounded(bytes, window, es + more);
    OutputIsPrefixOfFile(bytes, window, es + more);
    assert Run(Wrapping, init, es + more) == Some(Run(Wrapping, init, es + more).value);
  }

  lemma {:induction false} RunKeepsOpen(file: seq<Chunk>, st: State, es: seq<Event>)
    requires Open(file, st) && Run(Unbounded, st, es).Some?
    ensures Open(file, Run(Unbounded, st, es).value)
    decreases |es|
  {
    if es != [] {
      StepKeepsOpen(file, st, es[0]);
      RunKeepsOpen(file, Apply(Unbounded, st, es[0]), es[1..]);
    }
  }
}
