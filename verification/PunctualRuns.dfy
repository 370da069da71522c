// No deadlock under reordering: every punctual run of the system in Reordering
// can be continued punctually until the file is written.
module PunctualRuns {
  import opened SeqNums
  import opened Packets
  import opened ServerSession
  import opened CumulativeClient
  import opened LogNetwork
  import opened Reordering

  // es leads from s to t in the unbounded reading, and nothing in it is late.
  ghost predicate Leads(size: nat, s: State, es: seq<Event>, t: State)
    requires size < MODULUS
  {
    Punctual(size, s, es) && Run(Unbounded, size, s, es) == Some(t)
  }

  lemma LeadsNowhere(size: nat, s: State)
    requires size < MODULUS
    ensures Leads(size, s, [], s)
  {
  }

  lemma {:induction false} LeadsOn(size: nat, s: State, a: seq<Event>, m: State, b: seq<Event>, t: State)
    requires size < MODULUS && Leads(size, s, a, m) && Leads(size, m, b, t)
    ensures Leads(size, s, a + b, t)
    decreases |a|
  {
    hide Apply, Enabled, InTime;
    if a == [] {
      assert a + b == b;
    } else {
      assert (a + b)[0] == a[0] && (a + b)[1..] == a[1..] + b;
      LeadsOn(size, Apply(Unbounded, size, s, a[0]), a[1..], m, b, t);
    }
  }

  lemma LeadsOne(size: nat, s: State, e: Event)
    requires size < MODULUS && Enabled(Unbounded, s, e) && InTime(size, s, e)
    ensures Leads(size, s, [e], Apply(Unbounded, size, s, e))
  {
    hide Apply, Enabled, InTime;
    assert [e][1..] == [];
    LeadsNowhere(size, Apply(Unbounded, size, s, e));
  }

  lemma LeadsOneMore(size: nat, s: State, es: seq<Event>, m: State, e: Event)
    requires size < MODULUS && Leads(size, s, es, m) && Enabled(Unbounded, m, e) && InTime(size, m, e)
    ensures Leads(size, s, es + [e], Apply(Unbounded, size, m, e))
  {
    hide Leads, Apply, Enabled, InTime;
    LeadsOne(size, m, e);
    LeadsOn(size, s, es, m, [e], Apply(Unbounded, size, m, e));
  }

  // --- the window stays open -------------------------------------------------------

  ghost predicate Open(file: seq<Chunk>, size: nat, st: State) {
    && 0 < size <= MAX_WINDOW && Inv(file, size, st) && st.server.window >= 1
    && forall i | 0 <= i < |st.acks| :: st.acks[i].window >= 1
  }

  // The receiver always advertises room.
  lemma AdvertisesRoom(file: seq<Chunk>, next: nat, size: nat, r: Receiver)
    requires BufferOk(file, next, size, r) && r.expected !in r.buffer && 0 < size <= MAX_WINDOW
    ensures 1 <= Free(size, r) <= size
  {
    hide Range;
    var inside := Range(r.expected + 1, r.expected + size);
    assert forall k | k in r.buffer.Keys :: k in inside;
    SubsetSize(r.buffer.Keys, inside);
    assert |r.buffer.Keys| == |r.buffer|;
  }

  lemma ArrivalKeepsOpen(file: seq<Chunk>, size: nat, st: State, at: nat)
    requires Open(file, size, st) && Enabled(Unbounded, st, DataArrives(at))
    ensures Open(file, size, Apply(Unbounded, size, st, DataArrives(at)))
  {
    hide OnData, BufferOk, ServerOk, Travels;
    StepKeeps(file, size, st, DataArrives(at));
    OnDataKeeps(file, size, st.server, st.client, st.sent[at]);
    AdvertisesRoom(file, st.server.next, size, OnData(Unbounded, size, st.client, st.sent[at]).0);
  }

  lemma StepKeepsOpen(file: seq<Chunk>, size: nat, st: State, e: Event)
    requires Open(file, size, st) && Enabled(Unbounded, st, e)
    ensures Open(file, size, Apply(Unbounded, size, st, e))
  {
    hide Inv;
    StepKeeps(file, size, st, e);
    if e.DataArrives? {
      ArrivalKeepsOpen(file, size, st, e.at);
    }
  }

  lemma {:induction false} RunKeepsOpen(file: seq<Chunk>, size: nat, st: State, es: seq<Event>)
    requires Open(file, size, st) && Run(Unbounded, size, st, es).Some?
    ensures Open(file, size, Run(Unbounded, size, st, es).value)
    decreases |es|
  {
    hide Enabled, Apply, Inv;
    if es != [] {
      StepKeepsOpen(file, size, st, es[0]);
      RunKeepsOpen(file, size, Apply(Unbounded, size, st, es[0]), es[1..]);
    }
  }

  // --- completion ---------------------------------------------------------------------

  // Send base again, deliver it and deliver the answer.
  function Round(st: State): seq<Event> {
    [ServerResends(0), DataArrives(|st.sent|), AckArrives(|st.acks|)]
  }

  lemma BaseArrives(file: seq<Chunk>, size: nat, st: State) returns (st2: State)
    requires Open(file, size, st) && !st.client.done && st.server.base < st.server.next
    ensures Leads(size, st, [ServerResends(0), DataArrives(|st.sent|)], st2) && Open(file, size, st2)
    ensures st2.server == st.server && st2.acks == st.acks + [Answer(size, st2.client)]
    ensures st2.client.expected > st.server.base
  {
    hide OnData, BufferOk, Travels, Leads, Run, Punctual, Range;
    var s := st.server;
    assert s.base in s.unacked.Keys;
    AcksBelowNext(file, size, st);
    var d := Data(s.base, s.unacked[s.base]);
    var st1 := Apply(Unbounded, size, st, ServerResends(0));
    assert st1 == st.(sent := st.sent + [d]);
    LeadsOne(size, st, ServerResends(0));
    StepKeepsOpen(file, size, st, ServerResends(0));
    assert Travels(file, s, d) by {
      assert st1.sent[|st.sent|] == d && AllTravel(file, s, st1.sent);
    }
    OnDataKeeps(file, size, s, st.client, d);
    PayloadSent(file, size, st, d);
    var e := DataArrives(|st.sent|);
    st2 := Apply(Unbounded, size, st1, e);
    LeadsOneMore(size, st, [ServerResends(0)], st1, e);
    StepKeepsOpen(file, size, st1, e);
    assert [ServerResends(0)] + [e] == [ServerResends(0), e];
  }

  // A chunk does not end the transfer.
  lemma PayloadSent(file: seq<Chunk>, size: nat, st: State, d: Data)
    requires Inv(file, size, st) && !st.client.done && d.num < |file| && d.payload == file[d.num]
    ensures !OnData(Unbounded, size, st.client, d).0.done
  {
    hide Take;
    TakeKeepsDone(Unbounded, size, st.client, d);
  }

  lemma TakeKeepsDone(ar: Arith, size: nat, r: Receiver, d: Data)
    ensures Take(ar, size, r, d).done == r.done
  {
    hide Flush, InWindow;
    if d.num == r.expected {
      FlushKeepsDone(ar, r.(output := r.output + [d.payload], expected := Add(ar, r.expected, 1)));
    }
  }

  lemma {:induction false} FlushKeepsDone(ar: Arith, r: Receiver)
    ensures Flush(ar, r).done == r.done
    decreases |r.buffer|
  {
    if r.expected in r.buffer {
      FlushOnce(ar, r);
      FlushKeepsDone(ar, WriteOne(ar, r));
    }
  }

  // A round strictly increases base.
  lemma RoundAdvancesBase(file: seq<Chunk>, size: nat, st: State) returns (t: State)
    requires Open(file, size, st) && !st.client.done && st.server.base < st.server.next
    ensures Leads(size, st, Round(st), t) && Open(file, size, t)
    ensures t.server.base > st.server.base && t.server.base <= |file|
  {
    hide BufferOk, AllTravel, Leads, OnAck, Range;
    var st2 := BaseArrives(file, size, st);
    var e := AckArrives(|st.acks|);
    t := Apply(Unbounded, size, st2, e);
    AcksBelowNext(file, size, st2);
    OnAckKeeps(file, size, st2.server, st2.acks[|st.acks|].num, st2.acks[|st.acks|].window);
    LeadsOneMore(size, st, [ServerResends(0), DataArrives(|st.sent|)], st2, e);
    StepKeepsOpen(file, size, st2, e);
    assert [ServerResends(0), DataArrives(|st.sent|)] + [e] == Round(st);
  }

  lemma EndIsAccepted(file: seq<Chunk>, size: nat, st: State) returns (t: State)
    requires Open(file, size, st) && !st.client.done && st.server.base == st.server.next && st.server.eof
    ensures Leads(size, st, [ServerEnds, DataArrives(|st.sent|)], t) && Open(file, size, t) && t.client.done
  {
    hide Range, Leads, BufferOk, Travels;
    KeysSize(st.server.unacked, st.server.base, st.server.next);
    AcksBelowNext(file, size, st);
    var st1 := Apply(Unbounded, size, st, ServerEnds);
    LeadsOne(size, st, ServerEnds);
    StepKeepsOpen(file, size, st, ServerEnds);
    var e := DataArrives(|st.sent|);
    assert st1.sent[|st.sent|] == Fin(st.server);
    t := Apply(Unbounded, size, st1, e);
    LeadsOneMore(size, st, [ServerEnds], st1, e);
    StepKeepsOpen(file, size, st1, e);
    assert [ServerEnds] + [e] == [ServerEnds, e];
  }

  lemma FillGoesOn(file: seq<Chunk>, size: nat, st: State)
    requires Open(file, size, st) && st.server.base == st.server.next && !st.server.eof
    ensures Leads(size, st, [ServerFills], Apply(Unbounded, size, st, ServerFills))
    ensures var t := Apply(Unbounded, size, st, ServerFills);
            Open(file, size, t) && t.server.base == st.server.base && (t.server.eof || t.server.base < t.server.next)
  {
    hide Range, Leads;
    KeysSize(st.server.unacked, st.server.base, st.server.next);
    LeadsOne(size, st, ServerFills);
    StepKeepsOpen(file, size, st, ServerFills);
  }

  lemma BaseInFile(file: seq<Chunk>, size: nat, st: State)
    requires Open(file, size, st)
    ensures st.server.base <= st.server.next <= |file|
  {
  }

  lemma {:induction false} Completes(file: seq<Chunk>, size: nat, st: State) returns (es: seq<Event>, t: State)
    requires Open(file, size, st)
    ensures Leads(size, st, es, t) && t.client.done
    decreases |file| - st.server.base, !st.server.eof, st.server.base == st.server.next
  {
    BaseInFile(file, size, st);
    hide Open, Leads, Apply;
    if st.client.done {
      es, t := [], st;
      LeadsNowhere(size, st);
    } else if st.server.base < st.server.next {
      var m := RoundAdvancesBase(file, size, st);
      var rest;
      rest, t := Completes(file, size, m);
      LeadsOn(size, st, Round(st), m, rest, t);
      es := Round(st) + rest;
    } else if st.server.eof {
      t := EndIsAccepted(file, size, st);
      es := [ServerEnds, DataArrives(|st.sent|)];
    } else {
      FillGoesOn(file, size, st);
      var m := Apply(Unbounded, size, st, ServerFills);
      var rest;
      rest, t := Completes(file, size, m);
      LeadsOn(size, st, [ServerFills], m, rest, t);
      es := [ServerFills] + rest;
    }
  }

  // Main result: whatever the wrapping system did with nothing late, some
  // continuation with nothing late ends with exactly the file written.
  lemma PunctualRunsComplete(bytes: seq<byte>, size: nat, es: seq<Event>)
    requires 0 < size <= MAX_WINDOW && Punctual(size, Init(Chunks(bytes), size), es)
    requires Run(Wrapping, size, Init(Chunks(bytes), size), es).Some?
    ensures exists more, w :: Punctual(size, Init(Chunks(bytes), size), es + more)
              && Run(Wrapping, size, Init(Chunks(bytes), size), es + more) == Some(w)
              && w.client.done && Concat(w.client.output) == bytes
  {
    hide Punctual, Run, Chunks, Concat, Inv;
    var file := Chunks(bytes);
    var init := Init(file, size);
    ChunksOfFile(bytes);
    assert forall i | 0 <= i < |file| :: file[i] in file;
    InitOk(file, size);
    PunctualRunsAreSafe(bytes, size, es);
    RunKeepsOpen(file, size, init, es);
    var u := Run(Unbounded, size, init, es).value;
    var more, t := Completes(file, size, u);
    LeadsOn(size, init, es, u, more, t);
    PunctualRunsAreSafe(bytes, size, es + more);
    assert Run(Wrapping, size, init, es + more) == Some(Run(Wrapping, size, init, es + more).value);
  }
}
