// The session of src/server.py in memory: the fields of the per-address
// dictionary and the statements of the server loop that change them. Every
// turn of the loop is a run of the system in SlidingWindow.
module ServerLoop {
  import opened SeqNums
  import opened Packets
  import opened ServerSession
  import SackCodec
  import opened SlidingWindow
  import Progress

  class Session {
    var base: nat
    var next: nat                  // prochain_seqnum
    var memory: map<nat, Chunk>    // memoire_envoi: the packets
    var timers: map<nat, real>     // memoire_envoi: when each was last sent
    var order: seq<nat>            // memoire_envoi: its keys, in the order they came in
    var window: int                // remote_window
    var unread: seq<Chunk>         // what the file has yet to return
    var eof: bool                  // fichier_fini
    var finSent: bool              // fin_envoye
    var rtt: real
    var lastContact: real          // dernier_contact

    ghost function Model(): Server
      reads this
    {
      Server(base, next, memory, window, unread, eof, finSent)
    }

    ghost predicate Valid()
      reads this
    {
      && Wrapped(Model()) && 0.0 < rtt < 10.0
      && timers.Keys == memory.Keys && EachOnce(order, memory.Keys)
    }

    constructor (file: seq<Chunk>, window: int, now: real)
      ensures Valid() && Model() == NewServer(file, window) && rtt == 2.0 && lastContact == now
    {
      base, next, memory, this.window := 0, 0, map[], window;
      unread, eof, finSent := file, false, false;
      timers, order, rtt, lastContact := map[], [], 2.0, now;
    }

    // Deletes a key of memory if it is there.
    method Delete(key: nat)
      requires Valid()
      modifies `memory, `timers, `order
      ensures Valid() && memory == old(memory) - {key}
      ensures order == Among(old(order), memory.Keys) && timers == old(timers) - {key}
    {
      hide EachOnce, Among;
      AmongEachOnce(order, memory.Keys, memory.Keys - {key});
      AmongAll(order, memory.Keys);
      KeysWithout(memory, key);
      KeysWithout(timers, key);
      if key in memory {
        memory, timers := memory - {key}, timers - {key};
        order := Among(order, memory.Keys);
      }
    }

    // Puts the next packet into memory at the time given.
    method Remember(chunk: Chunk, time: real)
      requires Valid()
      modifies `next, `memory, `timers, `order
      ensures Valid() && next == Add(Wrapping, old(next), 1)
      ensures memory == old(memory)[old(next) := chunk] && timers == old(timers)[old(next) := time]
      ensures order == if old(next) in old(order) then old(order) else old(order) + [old(next)]
    {
      hide EachOnce;
      OneMoreListed(order, memory.Keys, next);
      order := if next in memory then order else order + [next];
      memory, timers := memory[next := chunk], timers[next := time];
      assert memory.Keys == old(memory).Keys + {next};
      next := (next + 1) % MODULUS;
    }

    // Moves base on step by step and forgets the packet it leaves behind.
    method AdvanceBase(steps: nat)
      requires Valid()
      modifies `base, `memory, `timers, `order
      ensures Valid()
      ensures base == Add(Wrapping, old(base), steps) && memory == old(memory) - Passed(Wrapping, old(base), steps)
      ensures order == Among(old(order), memory.Keys) && timers == old(timers) - Passed(Wrapping, old(base), steps)
    {
      hide Passed, Add, EachOnce, Among;
      PassedNothing(base);
      AmongAll(order, memory.Keys);
      for i := 0 to steps
        invariant Valid()
        invariant base == Add(Wrapping, old(base), i) && memory == old(memory) - Passed(Wrapping, old(base), i)
        invariant order == Among(old(order), memory.Keys) && timers == old(timers) - Passed(Wrapping, old(base), i)
      {
        ForgetsOneMore(old(memory), old(base), i);
        ForgetsOneMore(old(timers), old(base), i);
        AmongTwice(old(order), memory.Keys, (memory - {base}).Keys);
        Delete(base);
        base := (base + 1) % MODULUS;
      }
    }

    // Forgets the packets a SACK names.
    method Forget(shown: seq<nat>)
      requires Valid()
      modifies `memory, `timers, `order
      ensures Valid() && memory == old(memory) - SackCodec.ToSet(shown)
      ensures order == Among(old(order), memory.Keys) && timers == old(timers) - SackCodec.ToSet(shown)
    {
      hide EachOnce, Among;
      AmongAll(order, memory.Keys);
      for i := 0 to |shown|
        invariant Valid() && memory == old(memory) - SackCodec.ToSet(shown[..i])
        invariant order == Among(old(order), memory.Keys) && timers == old(timers) - SackCodec.ToSet(shown[..i])
      {
        assert shown[..i + 1] == shown[..i] + [shown[i]];
        assert SackCodec.ToSet(shown[..i + 1]) == SackCodec.ToSet(shown[..i]) + {shown[i]};
        AmongTwice(old(order), memory.Keys, (memory - {shown[i]}).Keys);
        Delete(shown[i]);
      }
      assert shown[..|shown|] == shown;
    }

    // What is advertised is taken over, then the two deletion loops.
    method Acknowledge(window: int, num: nat, shown: seq<nat>)
      requires Valid()
      modifies `base, `memory, `timers, `order, `window
      ensures Valid()
      ensures Model() == OnAck(Wrapping, old(Model()), num, window, SackCodec.ToSet(shown))
      ensures order == Among(old(order), memory.Keys) && timers == Only(old(timers), memory.Keys)
    {
      hide Passed, EachOnce, Among, SackCodec.ToSet;
      this.window := window;
      AmongAll(order, memory.Keys);
      var steps: nat := (num - base) % MODULUS;
      OnlyLeft(memory, timers, Passed(Wrapping, base, steps), SackCodec.ToSet(shown));
      if steps < HALF_TURN {
        AdvanceBase(steps);
      }
      AmongTwice(old(order), memory.Keys, (memory - SackCodec.ToSet(shown)).Keys);
      hide Only, Wrapped;
      Forget(shown);
    }

    // An ACK or SACK of this session, read at the time now and answering a packet
    // stamped stamp; nowMs is the clock in milliseconds.
    method HandleAck(isSack: bool, window: int, num: nat, payload: seq<byte>, stamp: nat, now: real, nowMs: nat)
      requires Valid()
      modifies `base, `memory, `timers, `order, `window, `rtt, `lastContact
      ensures Valid()
      ensures Model() == OnAck(Wrapping, old(Model()), num, window,
                               if isSack then SackCodec.ToSet(SackCodec.DecodeSack(payload)) else {})
      ensures order == Among(old(order), memory.Keys) && timers == Only(old(timers), memory.Keys)
      ensures lastContact == now && Smoothed(old(rtt), (nowMs - stamp) % 0x1_0000_0000, rtt)
      ensures HeardBy(old(Model()), num, window, if isSack then SackCodec.DecodeSack(payload) else [], Model())
    {
      hide SackCodec.DecodeSack, SackCodec.ToSet, OnAck, EachOnce, Among, Only, Averaged, HeardBy, Smoothed;
      AveragedIsSmoothed(rtt, nowMs, stamp);
      OnAckOutcome(Model(), num, window, if isSack then SackCodec.DecodeSack(payload) else []);
      lastContact := now;
      rtt := Averaged(rtt, Sample(nowMs, stamp));
      var shown := [];
      NothingShown();
      if isSack {
        shown := SackCodec.DecodeSackList(payload);
      }
      Acknowledge(window, num, shown);
    }

    // The loop that sends while the window has room; clock(i) is the time at which
    // the packet number i of the loop is put into memory.
    method SendNew(clock: nat -> real) returns (sent: seq<Data>)
      requires Valid()
      modifies `next, `memory, `timers, `order, `unread, `eof
      ensures Valid() && (Model(), sent) == FillWindow(Wrapping, old(Model()))
      ensures order == Listed(old(order), sent) && timers == Started(old(timers), sent, clock)
      ensures AllNew(old(order), sent) ==> PutLast(old(order), sent, clock, order, timers)
    {
      hide FillWindow, EachOnce, Listed, Started, AllNew, PutLast;
      sent := [];
      ghost var (t, all) := FillWindow(Wrapping, Model());
      assert sent + all == all;
      NothingListed(order, timers, clock);
      while |memory| < window && !eof
        invariant Valid()
        invariant order == Listed(old(order), sent) && timers == Started(old(timers), sent, clock)
        invariant FillWindow(Wrapping, Model()).0 == t && sent + FillWindow(Wrapping, Model()).1 == all
        decreases |unread|, !eof
      {
        ghost var before := Model();
        FillWindowStarts(before, sent);
        if unread == [] {
          eof := true;
          assert Model() == Fill(Wrapping, before).0 && sent + [] == sent;
          break;
        }
        var chunk := unread[0];
        unread := unread[1..];
        OneMoreStarted(old(order), old(timers), sent, Data(next, chunk), clock);
        sent := sent + [Data(next, chunk)];
        Remember(chunk, clock(|sent| - 1));
        assert Model() == Fill(Wrapping, before).0;
      }
      FillWindowEnds(Model());
      assert sent + [] == sent;
      if AllNew(old(order), sent) {
        ListedLast(old(order), old(timers), sent, clock);
      }
    }

    // The packets whose own timer expired, in the order they are kept.
    method Retransmit(now: real, timeout: real) returns (sent: seq<Data>)
      requires Valid()
      modifies `timers
      ensures Valid()
      ensures sent == Kept(memory, Among(order, set k | k in memory && now - old(timers)[k] > timeout))
      ensures forall k | k in memory :: timers[k] == if now - old(timers)[k] > timeout then now else old(timers)[k]
    {
      hide Among, EachOnce;
      sent := [];
      ghost var due := set k | k in memory && now - old(timers)[k] > timeout;
      InMemory(order, memory.Keys);
      AmongNothing(due);
      for i := 0 to |order|
        invariant sent == Kept(memory, Among(order[..i], due))
        invariant timers.Keys == memory.Keys
        invariant forall k | k in timers :: timers[k] == if k in due && k in order[..i] then now else old(timers)[k]
      {
        var seqnum := order[i];
        assert order[..i + 1] == order[..i] + [seqnum];
        AmongOneMore(order[..i], seqnum, due);
        NotYetListed(order, memory.Keys, i);
        if now - timers[seqnum] > timeout {
          sent := sent + [Data(seqnum, memory[seqnum])];
          timers := timers[seqnum := now];
        }
      }
      assert order[..|order|] == order;
    }

    // The end-of-file packet leaves twice the first time.
    method SendFin() returns (sent: seq<Data>)
      requires Valid()
      modifies `finSent
      ensures Valid()
      ensures Model() == old(Model()).(finSent := old(finSent || (eof && |memory| == 0)))
      ensures sent == Copies(Fin(old(Model())), if old(eof && |memory| == 0 && !finSent) then 2 else 0)
    {
      sent := [];
      if eof && |memory| == 0 && !finSent {
        var fin := Data(next, []);
        sent := [fin];
        finSent := true;
        sent := sent + [fin];
        finSent := true;
      }
    }

    // What leaves when the receiver has been silent for too long: everything kept,
    // in order, or the end-of-file packet five times.
    method SendAgain(now: real) returns (sent: seq<Data>)
      requires Valid()
      modifies `timers, `lastContact
      ensures Valid() && lastContact == now
      ensures finSent ==> sent == Copies(Fin(Model()), 5) && timers == old(timers)
      ensures !finSent ==> sent == Kept(memory, order) && timers == map k | k in memory :: now
    {
      hide EachOnce;
      sent := [];
      InMemory(order, memory.Keys);
      if !finSent {
        for i := 0 to |order|
          invariant sent == Kept(memory, order[..i])
        {
          assert order[..i + 1] == order[..i] + [order[i]];
          sent := sent + [Data(order[i], memory[order[i]])];
        }
        assert order[..|order|] == order;
        timers := map k | k in memory :: now;
      } else {
        sent := Copies(Data(next, []), 5);
      }
      lastContact := now;
    }

    // The first half of a turn: what is new, then what is overdue.
    method SendPackets(now: real, timeout: real, clock: nat -> real)
      returns (firsts: seq<Data>, overdue: seq<Data>, ghost es: seq<Event>)
      requires Valid()
      modifies `next, `memory, `timers, `order, `unread, `eof
      ensures Valid() && Emits(old(Model()), es, Model(), firsts + overdue) && BySending(es)
      ensures ReadAndSent(old(Model()), Model(), firsts)
      ensures OverdueSent(memory, old(timers), firsts, now, timeout, overdue)
      ensures forall k | k in old(memory) && now - old(timers)[k] > timeout :: Data(k, memory[k]) in firsts + overdue
      ensures forall k | k in old(memory) && k !in Nums(firsts) ::
                k in memory && timers[k] == if now - old(timers)[k] > timeout then now else old(timers)[k]
    {
      hide Emits, FillWindow, EachOnce, Among, Kept, Listed, Started, Stored, ReadAndSent, OverdueSent, Nums, BySending;
      hide Distinct, Wrapped;
      ghost var s0 := Model();
      NextFits(s0);
      firsts := SendNew(clock);
      es := FillRun(s0);
      FillEmits(s0);
      FillOutcome(s0);
      FillRunSends(s0);
      StartedOutcome(old(timers), firsts, clock);
      ghost var s1, timers1 := Model(), timers;
      overdue := Retransmit(now, timeout);
      KeptIsStored(s1, order, set k | k in memory && now - timers1[k] > timeout);
      OverdueOutcome(s0, s1, old(timers), timers1, firsts, now, timeout, overdue);
      ResendEmits(s1, overdue);
      EmitsMore(s0, es, s1, firsts, Resends(base, overdue), s1, overdue);
      OthersSend(base, overdue, 0);
      SendingMore(es, Resends(base, overdue));
      es := es + Resends(base, overdue);
    }

    // The second half: the end-of-file packet, and everything again after a silence.
    method SendClosing(now: real, timeout: real) returns (ends: seq<Data>, late: seq<Data>, ghost es: seq<Event>)
      requires Valid()
      modifies `timers, `finSent, `lastContact
      ensures Valid() && Emits(old(Model()), es, Model(), ends + late) && BySending(es)
      ensures finSent == (old(finSent) || (eof && |memory| == 0))
      ensures ends == if finSent && !old(finSent) then [Data(next, []), Data(next, [])] else []
      ensures var silent := now - old(lastContact) > timeout;
              && SentAfterSilence(Model(), silent, late)
              && lastContact == (if silent then now else old(lastContact))
              && forall k | k in memory :: timers[k] == if silent && !finSent then now else old(timers)[k]
    {
      hide Emits, EachOnce, Kept, Stored, BySending, SentAfterSilence, Copies, Wrapped;
      ghost var s1 := Model();
      ends := SendFin();
      ghost var s2 := Model();
      es := Ends(|ends|);
      CopiesWritten(Data(next, []));
      EndEmits(s1, |ends|);
      OthersSend(base, [], |ends|);
      late := [];
      LateWritten(s2, []);
      assert ends + late == ends;
      if now - lastContact > timeout {
        late := SendAgain(now);
        ghost var more := if finSent then Ends(|late|) else Resends(base, late);
        if finSent {
          EndEmits(s2, |late|);
          LateWritten(s2, late);
        } else {
          AllIsStored(s2, order);
          AllKeptLeave(s2, order);
          ResendEmits(s2, late);
        }
        EmitsMore(s1, es, s2, ends, more, s2, late);
        OthersSend(base, late, |late|);
        SendingMore(es, more);
        es := es + more;
      }
    }

    // One turn of the server loop for this session, at the time now: what it does
    // is a run of the system, whatever is in the channels. It sends what is new,
    // what is overdue, the end-of-file packet when its time has come and, after too
    // long a silence, everything again.
    method Turn(now: real, clock: nat -> real) returns (sent: seq<Data>, ghost es: seq<Event>, ghost parts: Parts)
      requires Valid()
      modifies `next, `memory, `timers, `order, `unread, `eof, `finSent, `lastContact
      ensures Valid() && Emits(old(Model()), es, Model(), sent) && BySending(es)
      ensures sent == parts.firsts + parts.overdue + parts.ends + parts.late
      ensures TurnTaken(old(Model()), old(timers), old(lastContact), rtt, now, parts, Model(), timers, lastContact)
    {
      hide Emits, EachOnce, ReadAndSent, OverdueSent, Nums, BySending, SentAfterSilence, Wrapped, TurnTaken;
      ghost var s0 := Model();
      var timeout := Timeout(rtt);
      var firsts, overdue;
      firsts, overdue, es := SendPackets(now, timeout, clock);
      ghost var s1 := Model();
      ghost var timers1 := timers;
      KeptOn(s0, s1, firsts);
      var ends, late;
      ghost var more;
      ends, late, more := SendClosing(now, timeout);
      EmitsMore(s0, es, s1, firsts + overdue, more, Model(), ends + late);
      SendingMore(es, more);
      sent, es := firsts + overdue + ends + late, es + more;
      assert firsts + overdue + (ends + late) == sent;
      parts := Parts(firsts, overdue, ends, late);
      TurnIsTaken(s0, old(timers), old(lastContact), rtt, now, parts, s1, timers1, Model(), timers, lastContact);
    }
  }

  // What one turn sends, in the order of sending.
  datatype Parts = Parts(firsts: seq<Data>, overdue: seq<Data>, ends: seq<Data>, late: seq<Data>)

  // The session read on from s to t until memory reached the window or the file its
  // end, and sent each chunk it read under the next number ...
  ghost predicate ReadOn(s: Server, t: Server, firsts: seq<Data>) {
    && |firsts| <= |s.unread| && t.unread == s.unread[|firsts|..]
    && (forall i | 0 <= i < |firsts| :: firsts[i] == Data((s.next + i) % 2048, s.unread[i]))
    && (|t.unacked| >= t.window || t.eof) && (firsts != [] ==> |t.unacked| <= t.window)
    && t.next == (s.next + |firsts|) % 2048 && t.base == s.base && t.window == s.window
    && (s.eof ==> t.eof && firsts == []) && (t.eof && !s.eof ==> t.unread == [])
  }

  // ... and keeps what it kept and what it sent.
  ghost predicate KeptAndSent(before: map<nat, Chunk>, after: map<nat, Chunk>, firsts: seq<Data>) {
    && (forall k | k in before :: k in after && (k !in Nums(firsts) ==> after[k] == before[k]))
    && (forall k | k in after :: (k in before && k !in Nums(firsts)) || Data(k, after[k]) in firsts)
  }

  ghost predicate ReadAndSent(s: Server, t: Server, firsts: seq<Data>) {
    ReadOn(s, t, firsts) && KeptAndSent(s.unacked, t.unacked, firsts)
  }

  // Of the packets that were kept before, exactly those last sent longer than
  // timeout ago are sent again, each once and unchanged.
  ghost predicate OverdueSent(memory: map<nat, Chunk>, timers: map<nat, real>, firsts: seq<Data>,
                              now: real, timeout: real, overdue: seq<Data>) {
    && Distinct(overdue)
    && (forall d | d in overdue :: d.num in memory && memory[d.num] == d.payload)
    && (forall k | k in timers && k !in Nums(firsts) :: k in Nums(overdue) <==> now - timers[k] > timeout)
  }

  // After too long a silence every kept packet leaves once more, or the end-of-file
  // packet five times when it was sent before.
  ghost predicate SentAfterSilence(t: Server, silent: bool, late: seq<Data>) {
    if !silent then late == []
    else if t.finSent then
      late == [Data(t.next, []), Data(t.next, []), Data(t.next, []), Data(t.next, []), Data(t.next, [])]
    else
      && Distinct(late) && (forall k | k in t.unacked :: Data(k, t.unacked[k]) in late)
      && forall d | d in late :: d.num in t.unacked && t.unacked[d.num] == d.payload
  }

  // What a turn at the time now does to a session, and in which parts it sends: the
  // packets read for the first time, those overdue, the end-of-file packet twice as
  // soon as memory is empty at the end of the file, and everything after a silence.
  ghost predicate TurnTaken(s: Server, timers: map<nat, real>, contact: real, rtt: real, now: real, parts: Parts,
                            t: Server, timersAfter: map<nat, real>, contactAfter: real)
    requires timers.Keys == s.unacked.Keys && timersAfter.Keys == t.unacked.Keys
  {
    var timeout := if 2.5 * rtt > 0.5 then 2.5 * rtt else 0.5;
    var silent := now - contact > timeout;
    && ReadAndSent(s, t, parts.firsts)
    && OverdueSent(t.unacked, timers, parts.firsts, now, timeout, parts.overdue)
    && (forall k | k in s.unacked && now - timers[k] > timeout ::
          k in t.unacked && Data(k, t.unacked[k]) in parts.firsts + parts.overdue)
    && t.finSent == (s.finSent || (t.eof && |t.unacked| == 0))
    && parts.ends == (if t.finSent && !s.finSent then [Data(t.next, []), Data(t.next, [])] else [])
    && SentAfterSilence(t, silent, parts.late)
    && contactAfter == (if silent then now else contact)
    && forall k | k in s.unacked && k !in Nums(parts.firsts) ::
         k in t.unacked
         && timersAfter[k] == if now - timers[k] > timeout || (silent && !t.finSent) then now else timers[k]
  }

  // What an acknowledgement num with this window does to a session: it takes the
  // window over, moves base to num if that is less than 1024 ahead, and deletes the
  // numbers passed and those it names.
  ghost predicate HeardBy(s: Server, num: nat, window: int, named: seq<nat>, t: Server) {
    var ahead := (num - s.base) % 2048;
    && t.window == window
    && t.base == (if ahead < 1024 then num % 2048 else s.base)
    && (forall k :: k in t.unacked <==>
          k in s.unacked && !(ahead < 1024 && (k - s.base) % 2048 < ahead) && k !in named)
    && (forall k | k in t.unacked :: t.unacked[k] == s.unacked[k])
    && t.next == s.next && t.unread == s.unread && t.eof == s.eof && t.finSent == s.finSent
  }

  lemma OnAckOutcome(s: Server, num: nat, window: int, named: seq<nat>)
    requires Wrapped(s)
    ensures HeardBy(s, num, window, named, OnAck(Wrapping, s, num, window, SackCodec.ToSet(named)))
  {
    var ahead: nat := (num - s.base) % 2048;
    assert Dist(Wrapping, num, s.base) == ahead;
    assert Add(Wrapping, s.base, ahead) == num % 2048;
    forall k: nat | k < 2048 ensures k in Passed(Wrapping, s.base, ahead) <==> (k - s.base) % 2048 < ahead {
      PassedByDistance(s.base, ahead, k);
    }
    hide Passed, Add, Dist;
  }

  lemma NothingRead(s: Server)
    requires s.next < 2048 && (!MayRead(s) || s.unread == [])
    ensures var (t, firsts) := FillWindow(Wrapping, s);
            ReadAndSent(s, t, firsts) && t.finSent == s.finSent
  {
    if MayRead(s) {
      var m := Fill(Wrapping, s).0;
      assert FillWindow(Wrapping, m) == (m, []) && FillWindow(Wrapping, s) == (m, []);
    }
  }

  lemma SameKept(before: map<nat, Chunk>, after: map<nat, Chunk>)
    requires KeptAndSent(before, after, [])
    ensures |after| == |before|
  {
    assert after.Keys == before.Keys;
    assert |after| == |after.Keys| && |before| == |before.Keys|;
  }

  lemma KeptOneMore(before: map<nat, Chunk>, after: map<nat, Chunk>, d: Data, rest: seq<Data>)
    requires KeptAndSent(before[d.num := d.payload], after, rest)
    ensures KeptAndSent(before, after, [d] + rest)
  {
    NumsPrepend(d, rest);
    hide Nums;
  }

  lemma OneMoreSize(m: map<nat, Chunk>, k: nat, v: Chunk)
    ensures |m[k := v]| <= |m| + 1
  {
    assert m[k := v].Keys == m.Keys + {k};
    assert |m[k := v]| == |m[k := v].Keys| && |m| == |m.Keys|;
  }

  // The places of the numbers sent.
  lemma FirstsOneMore(next: nat, unread: seq<Chunk>, rest: seq<Data>)
    requires next < 2048 && unread != [] && |rest| < |unread|
    requires forall i | 0 <= i < |rest| :: rest[i] == Data(((next + 1) % 2048 + i) % 2048, unread[1..][i])
    ensures var firsts := [Data(next, unread[0])] + rest;
            forall i | 0 <= i < |firsts| :: firsts[i] == Data((next + i) % 2048, unread[i])
  {
    var firsts := [Data(next, unread[0])] + rest;
    forall i | 0 <= i < |firsts| ensures firsts[i] == Data((next + i) % 2048, unread[i]) {
      if i > 0 {
        assert firsts[i] == rest[i - 1];
        NextPlace(next, i);
      }
    }
  }

  lemma NumsPrepend(d: Data, rest: seq<Data>)
    ensures Nums([d] + rest) == {d.num} + Nums(rest)
    ensures d in [d] + rest && forall x | x in rest :: x in [d] + rest
  {
    assert ([d] + rest)[0] == d;
    forall x | x in rest ensures x in [d] + rest {
      var i :| 0 <= i < |rest| && rest[i] == x;
      assert ([d] + rest)[i + 1] == x;
    }
  }

  lemma DropOneMore(unread: seq<Chunk>, n: nat)
    requires n < |unread|
    ensures unread[1..][n..] == unread[n + 1..]
  {
  }

  lemma RoomKept(s: Server, t: Server, rest: seq<Data>)
    requires MayRead(s) && s.unread != [] && KeptAndSent(Fill(Wrapping, s).0.unacked, t.unacked, rest)
    ensures rest == [] ==> |t.unacked| <= s.window
  {
    if rest == [] {
      SameKept(Fill(Wrapping, s).0.unacked, t.unacked);
      OneMoreSize(s.unacked, s.next, s.unread[0]);
    }
  }

  lemma ReadOnMore(s: Server, m: Server, t: Server, rest: seq<Data>)
    requires s.next < 2048 && !s.eof && s.unread != [] && ReadOn(m, t, rest)
    requires m.next == (s.next + 1) % 2048 && m.unread == s.unread[1..]
    requires m.base == s.base && m.window == s.window && m.eof == s.eof
    requires rest == [] ==> |t.unacked| <= s.window
    ensures ReadOn(s, t, [Data(s.next, s.unread[0])] + rest)
  {
    FirstsOneMore(s.next, s.unread, rest);
    NextPlace(s.next, |rest| + 1);
    DropOneMore(s.unread, |rest|);
  }

  lemma OneMoreRead(s: Server, t: Server, rest: seq<Data>)
    requires s.next < 2048 && MayRead(s) && s.unread != [] && ReadAndSent(Fill(Wrapping, s).0, t, rest)
    ensures ReadAndSent(s, t, [Data(s.next, s.unread[0])] + rest)
  {
    hide KeptAndSent, ReadOn;
    RoomKept(s, t, rest);
    KeptOneMore(s.unacked, t.unacked, Data(s.next, s.unread[0]), rest);
    ReadOnMore(s, Fill(Wrapping, s).0, t, rest);
  }

  lemma {:induction false} FillOutcome(s: Server)
    requires s.next < 2048
    ensures var (t, firsts) := FillWindow(Wrapping, s);
            ReadAndSent(s, t, firsts) && t.finSent == s.finSent
    decreases |s.unread|, !s.eof
  {
    hide ReadAndSent;
    if MayRead(s) && s.unread != [] {
      FillOutcome(Fill(Wrapping, s).0);
      OneMoreRead(s, FillWindow(Wrapping, Fill(Wrapping, s).0).0, FillWindow(Wrapping, Fill(Wrapping, s).0).1);
    } else {
      NothingRead(s);
    }
  }

  // The two halves of a turn make the whole.
  lemma TurnIsTaken(s: Server, timers: map<nat, real>, contact: real, rtt: real, now: real, parts: Parts,
                    m: Server, timers1: map<nat, real>, t: Server, timers2: map<nat, real>, contact2: real)
    requires timers.Keys == s.unacked.Keys && timers1.Keys == timers2.Keys == m.unacked.Keys
    requires t == m.(finSent := t.finSent) && ReadAndSent(s, m, parts.firsts) && m.finSent == s.finSent
    requires OverdueSent(m.unacked, timers, parts.firsts, now, Timeout(rtt), parts.overdue)
    requires forall k | k in s.unacked && now - timers[k] > Timeout(rtt) ::
               k in m.unacked && Data(k, m.unacked[k]) in parts.firsts + parts.overdue
    requires forall k | k in s.unacked && k !in Nums(parts.firsts) ::
               k in m.unacked && timers1[k] == if now - timers[k] > Timeout(rtt) then now else timers[k]
    requires t.finSent == (m.finSent || (m.eof && |m.unacked| == 0))
    requires parts.ends == if t.finSent && !m.finSent then [Data(t.next, []), Data(t.next, [])] else []
    requires var silent := now - contact > Timeout(rtt);
             && SentAfterSilence(t, silent, parts.late) && contact2 == (if silent then now else contact)
             && forall k | k in m.unacked :: timers2[k] == if silent && !t.finSent then now else timers1[k]
    ensures TurnTaken(s, timers, contact, rtt, now, parts, t, timers2, contact2)
  {
    hide OverdueSent, SentAfterSilence, Nums;
    EndOfTurn(s, m, t, parts.firsts);
    hide ReadAndSent;
  }

  lemma NextFits(s: Server)
    requires Wrapped(s)
    ensures s.next < 2048
  {
  }

  lemma KeptOn(s: Server, t: Server, firsts: seq<Data>)
    requires ReadAndSent(s, t, firsts)
    ensures forall k | k in s.unacked :: k in t.unacked
  {
  }

  lemma {:induction false} StartedOutcome(timers: map<nat, real>, firsts: seq<Data>, clock: nat -> real)
    ensures forall k | k in timers :: k in Started(timers, firsts, clock)
    ensures forall k | k in timers && k !in Nums(firsts) :: Started(timers, firsts, clock)[k] == timers[k]
  {
    if firsts != [] {
      var init, last := firsts[..|firsts| - 1], firsts[|firsts| - 1];
      assert firsts == init + [last];
      StartedOutcome(timers, init, clock);
      NumsAppend(init, last);
    }
  }

  // Every packet that was overdue before the turn leaves in it.
  lemma OverdueOutcome(s: Server, t: Server, before: map<nat, real>, timers: map<nat, real>, firsts: seq<Data>,
                       now: real, timeout: real, again: seq<Data>)
    requires ReadAndSent(s, t, firsts) && before.Keys == s.unacked.Keys && timers.Keys == t.unacked.Keys
    requires forall k | k in before && k !in Nums(firsts) :: timers[k] == before[k]
    requires Stored(t, again) && Distinct(again)
    requires Nums(again) == t.unacked.Keys * set k | k in t.unacked && now - timers[k] > timeout
    ensures OverdueSent(t.unacked, before, firsts, now, timeout, again)
    ensures forall k | k in s.unacked && now - before[k] > timeout :: Data(k, t.unacked[k]) in firsts + again
  {
    forall d | d in again ensures d.num in t.unacked && t.unacked[d.num] == d.payload {
    }
    forall k | k in s.unacked && now - before[k] > timeout ensures Data(k, t.unacked[k]) in firsts + again {
      if k in Nums(firsts) {
        assert Data(k, t.unacked[k]) in firsts;
      } else {
        assert k in Nums(again);
        var d :| d in again && d.num == k;
      }
    }
  }

  lemma EndOfTurn(s: Server, m: Server, t: Server, firsts: seq<Data>)
    requires ReadAndSent(s, m, firsts) && t == m.(finSent := t.finSent)
    ensures ReadAndSent(s, t, firsts)
  {
  }

  lemma AllKeptLeave(s: Server, order: seq<nat>)
    requires EachOnce(order, s.unacked.Keys) && !s.finSent
    ensures (forall k | k in order :: k in s.unacked) && SentAfterSilence(s, true, Kept(s.unacked, order))
  {
    var late := Kept(s.unacked, order);
    forall k | k in s.unacked ensures Data(k, s.unacked[k]) in late {
      var i :| 0 <= i < |order| && order[i] == k;
      assert late[i] in late;
    }
  }

  lemma LateWritten(t: Server, late: seq<Data>)
    ensures SentAfterSilence(t, false, [])
    ensures t.finSent && late == Copies(Data(t.next, []), 5) ==> SentAfterSilence(t, true, late)
  {
  }

  lemma CopiesWritten(d: Data)
    ensures Copies(d, 0) == [] && Copies(d, 2) == [d, d] && Copies(d, 5) == [d, d, d, d, d]
  {
  }

  // Events by which the server sends.
  predicate BySending(es: seq<Event>) {
    forall e | e in es :: e.ServerFills? || e.ServerResends? || e.ServerEnds?
  }

  lemma SendingMore(a: seq<Event>, b: seq<Event>)
    requires BySending(a) && BySending(b)
    ensures BySending(a + b)
  {
  }

  lemma {:induction false} FillRunSends(s: Server)
    ensures BySending(FillRun(s))
    decreases |s.unread|, !s.eof
  {
    if MayRead(s) {
      FillRunSends(Fill(Wrapping, s).0);
    }
  }

  lemma OthersSend(base: nat, sent: seq<Data>, n: nat)
    ensures BySending(Resends(base, sent)) && BySending(Ends(n))
  {
  }

  // --- the clock ---------------------------------------------------------------------

  // Seconds since a packet stamped stamp was sent, told by 32-bit milliseconds.
  function Sample(nowMs: nat, stamp: nat): real {
    ((nowMs % 0x1_0000_0000 - stamp) % 0x1_0000_0000) as real / 1000.0
  }

  // The running average of the round trip; senseless samples are ignored.
  function Averaged(rtt: real, sample: real): (r: real)
    ensures 0.0 < rtt < 10.0 ==> 0.0 < r < 10.0
  {
    if 0.0 < sample < 10.0 then 0.875 * rtt + 0.125 * sample else rtt
  }

  // A sample between 0 and 10 seconds counts one eighth.
  ghost predicate Smoothed(before: real, ms: int, after: real) {
    if 0 < ms < 10000 then 8.0 * after == 7.0 * before + ms as real / 1000.0 else after == before
  }

  lemma AveragedIsSmoothed(rtt: real, nowMs: nat, stamp: nat)
    ensures Smoothed(rtt, (nowMs - stamp) % 0x1_0000_0000, Averaged(rtt, Sample(nowMs, stamp)))
  {
    var ms := (nowMs - stamp) % 0x1_0000_0000;
    assert (nowMs % 0x1_0000_0000 - stamp) % 0x1_0000_0000 == ms;
  }

  function Timeout(rtt: real): (r: real)
    ensures r >= 0.5 && (rtt < 10.0 ==> r < 25.0)
  {
    if rtt * 2.5 > 0.5 then rtt * 2.5 else 0.5
  }

  // The packets that were last sent longer than timeout ago.
  function Due(timers: map<nat, real>, now: real, timeout: real): set<nat> {
    set k | k in timers && now - timers[k] > timeout
  }

  // Whatever was measured, a packet is sent again when it waited 25 seconds, and
  // never within half a second.
  lemma DueByAge(timers: map<nat, real>, now: real, rtt: real)
    requires 0.0 < rtt < 10.0
    ensures forall k | k in timers :: now - timers[k] >= 25.0 ==> k in Due(timers, now, Timeout(rtt))
    ensures forall k | k in Due(timers, now, Timeout(rtt)) :: now - timers[k] > 0.5
  {
    hide Timeout;
  }

  function Only(timers: map<nat, real>, keys: set<nat>): map<nat, real> {
    map k | k in timers && k in keys :: timers[k]
  }

  lemma OnlyLeft<V>(m: map<nat, V>, timers: map<nat, real>, a: set<nat>, b: set<nat>)
    requires timers.Keys == m.Keys
    ensures timers - b == Only(timers, (m - b).Keys) && timers - a - b == Only(timers, (m - a - b).Keys)
  {
  }

  // --- the keys of memory in order ------------------------------------------------------

  ghost predicate EachOnce(order: seq<nat>, keys: set<nat>) {
    && (forall i, j | 0 <= i < j < |order| :: order[i] != order[j])
    && (forall k :: k in order <==> k in keys)
  }

  // Those of the list that are in keys.
  function Among(order: seq<nat>, keys: set<nat>): (r: seq<nat>)
    ensures forall k | k in r :: k in order && k in keys
  {
    if order == [] then []
    else Among(order[..|order| - 1], keys) + if order[|order| - 1] in keys then [order[|order| - 1]] else []
  }

  lemma AmongNothing(keys: set<nat>)
    ensures Among([], keys) == []
  {
  }

  lemma AmongOneMore(order: seq<nat>, k: nat, keys: set<nat>)
    ensures Among(order + [k], keys) == Among(order, keys) + if k in keys then [k] else []
  {
    assert (order + [k])[..|order|] == order;
  }

  lemma {:induction false} AmongMembers(order: seq<nat>, keys: set<nat>)
    ensures forall k :: k in Among(order, keys) <==> k in order && k in keys
  {
    if order != [] {
      AmongMembers(order[..|order| - 1], keys);
      assert order == order[..|order| - 1] + [order[|order| - 1]];
    }
  }

  lemma AmongAll(order: seq<nat>, keys: set<nat>)
    requires EachOnce(order, keys)
    ensures Among(order, keys) == order
  {
    assert forall i | 0 <= i < |order| :: order[i] in order;
    AllAmong(order, keys);
  }

  lemma {:induction false} AllAmong(order: seq<nat>, keys: set<nat>)
    requires forall i | 0 <= i < |order| :: order[i] in keys
    ensures Among(order, keys) == order
  {
    hide Among;
    AmongNothing(keys);
    if order != [] {
      var init, last := order[..|order| - 1], order[|order| - 1];
      assert order == init + [last] && last in keys;
      AllAmong(init, keys);
      AmongOneMore(init, last, keys);
    }
  }

  lemma {:induction false} AmongTwice(order: seq<nat>, keys: set<nat>, fewer: set<nat>)
    requires fewer <= keys
    ensures Among(Among(order, keys), fewer) == Among(order, fewer)
  {
    if order != [] {
      var init, last := order[..|order| - 1], order[|order| - 1];
      AmongTwice(init, keys, fewer);
      assert init + [last] == order;
      AmongOneMore(init, last, keys);
      AmongOneMore(init, last, fewer);
      AmongOneMore(Among(init, keys), last, fewer);
      hide Among;
      assert Among(init, keys) + [] == Among(init, keys);
    }
  }

  lemma {:induction false} AmongDistinct(order: seq<nat>, keys: set<nat>)
    requires forall i, j | 0 <= i < j < |order| :: order[i] != order[j]
    ensures forall i, j | 0 <= i < j < |Among(order, keys)| :: Among(order, keys)[i] != Among(order, keys)[j]
  {
    if order != [] {
      var init, last := order[..|order| - 1], order[|order| - 1];
      AmongDistinct(init, keys);
      var some := Among(init, keys);
      forall i | 0 <= i < |some| ensures some[i] != last {
        assert some[i] in some && some[i] in init;
      }
      AmongOneMore(init, last, keys);
      assert init + [last] == order;
    }
  }

  lemma AmongEachOnce(order: seq<nat>, keys: set<nat>, fewer: set<nat>)
    requires EachOnce(order, keys) && fewer <= keys
    ensures EachOnce(Among(order, fewer), fewer)
  {
    AmongDistinct(order, fewer);
    AmongMembers(order, fewer);
  }

  lemma InMemory(order: seq<nat>, keys: set<nat>)
    requires EachOnce(order, keys)
    ensures forall k :: k in order <==> k in keys
  {
  }

  lemma NotYetListed(order: seq<nat>, keys: set<nat>, i: nat)
    requires EachOnce(order, keys) && i < |order|
    ensures order[i] !in order[..i] && order[i] in keys
  {
  }

  lemma OneMoreListed(order: seq<nat>, keys: set<nat>, k: nat)
    requires EachOnce(order, keys)
    ensures EachOnce(if k in keys then order else order + [k], keys + {k}) && (k in order <==> k in keys)
  {
  }

  // A key that is assigned again keeps its place.
  function Listed(order: seq<nat>, sent: seq<Data>): seq<nat> {
    if sent == [] then order
    else
      var before, num := Listed(order, sent[..|sent| - 1]), sent[|sent| - 1].num;
      if num in before then before else before + [num]
  }

  function Started(timers: map<nat, real>, sent: seq<Data>, clock: nat -> real): map<nat, real> {
    if sent == [] then timers
    else Started(timers, sent[..|sent| - 1], clock)[sent[|sent| - 1].num := clock(|sent| - 1)]
  }

  lemma NothingListed(order: seq<nat>, timers: map<nat, real>, clock: nat -> real)
    ensures Listed(order, []) == order && Started(timers, [], clock) == timers
  {
  }

  lemma OneMoreStarted(order: seq<nat>, timers: map<nat, real>, sent: seq<Data>, d: Data, clock: nat -> real)
    ensures Listed(order, sent + [d])
            == if d.num in Listed(order, sent) then Listed(order, sent) else Listed(order, sent) + [d.num]
    ensures Started(timers, sent + [d], clock) == Started(timers, sent, clock)[d.num := clock(|sent|)]
  {
    assert (sent + [d])[..|sent|] == sent;
  }

  // Every number sent is a new key, as in every run of the system.
  ghost predicate AllNew(order: seq<nat>, sent: seq<Data>) {
    Distinct(sent) && forall i | 0 <= i < |sent| :: sent[i].num !in order
  }

  // They come last in the order of sending, each with the time it was sent.
  ghost predicate PutLast(order: seq<nat>, sent: seq<Data>, clock: nat -> real, list: seq<nat>, times: map<nat, real>) {
    && |list| == |order| + |sent| && order <= list
    && forall i | 0 <= i < |sent| ::
         list[|order| + i] == sent[i].num && sent[i].num in times && times[sent[i].num] == clock(i)
  }

  lemma {:induction false} ListedLast(order: seq<nat>, timers: map<nat, real>, sent: seq<Data>, clock: nat -> real)
    requires AllNew(order, sent)
    ensures PutLast(order, sent, clock, Listed(order, sent), Started(timers, sent, clock))
  {
    if sent != [] {
      var init, last := sent[..|sent| - 1], sent[|sent| - 1];
      ListedLast(order, timers, init, clock);
      var list := Listed(order, init);
      forall i | 0 <= i < |list| ensures list[i] != last.num {
        assert if i < |order| then list[i] == order[i] else list[i] == init[i - |order|].num;
      }
    }
  }

  lemma KeysWithout<V>(m: map<nat, V>, key: nat)
    ensures (m - {key}).Keys == m.Keys - {key} && (key !in m ==> m - {key} == m)
  {
  }

  // The packets with these numbers, in this order.
  function Kept(memory: map<nat, Chunk>, nums: seq<nat>): (sent: seq<Data>)
    requires forall k | k in nums :: k in memory
    ensures |sent| == |nums| && forall i | 0 <= i < |nums| :: sent[i] == Data(nums[i], memory[nums[i]])
  {
    seq(|nums|, i requires 0 <= i < |nums| => Data(nums[i], memory[nums[i]]))
  }

  // Numbers as the program keeps them.
  ghost predicate Wrapped(s: Server) {
    s.base < MODULUS && s.next < MODULUS && forall k | k in s.unacked :: k < MODULUS
  }

  lemma NothingShown()
    ensures SackCodec.ToSet([]) == {}
  {
  }

  function Copies(d: Data, n: nat): seq<Data> {
    seq(n, _ => d)
  }

  lemma PassedNothing(base: nat)
    requires base < MODULUS
    ensures Add(Wrapping, base, 0) == base && Passed(Wrapping, base, 0) == {}
  {
  }

  lemma ForgetsOneMore<V>(m: map<nat, V>, base: nat, steps: nat)
    ensures var here := Add(Wrapping, base, steps);
            && here < MODULUS && Add(Wrapping, base, steps + 1) == (here + 1) % MODULUS
            && m - Passed(Wrapping, base, steps + 1) == m - Passed(Wrapping, base, steps) - {here}
  {
    PassedOneMore(Wrapping, base, steps);
  }

  lemma FillWindowStarts(s: Server, before: seq<Data>)
    requires MayRead(s)
    ensures var (t, sent) := Fill(Wrapping, s);
            && FillWindow(Wrapping, s).0 == FillWindow(Wrapping, t).0
            && before + FillWindow(Wrapping, s).1 == before + sent + FillWindow(Wrapping, t).1
  {
  }

  lemma FillWindowEnds(s: Server)
    ensures !MayRead(s) ==> FillWindow(Wrapping, s) == (s, [])
  {
  }

  // Every packet is in memory, with that payload.
  ghost predicate Stored(s: Server, sent: seq<Data>) {
    forall i | 0 <= i < |sent| :: sent[i].num in s.unacked && s.unacked[sent[i].num] == sent[i].payload
  }

  lemma AllIsStored(s: Server, order: seq<nat>)
    requires EachOnce(order, s.unacked.Keys)
    ensures (forall k | k in order :: k in s.unacked) && Stored(s, Kept(s.unacked, order))
  {
  }

  // What is sent again was kept, every overdue packet once and no other.
  lemma KeptIsStored(s: Server, order: seq<nat>, due: set<nat>)
    requires EachOnce(order, s.unacked.Keys)
    ensures forall k | k in Among(order, due) :: k in s.unacked
    ensures var sent := Kept(s.unacked, Among(order, due));
            Stored(s, sent) && Distinct(sent) && Nums(sent) == s.unacked.Keys * due
  {
    AmongMembers(order, due);
    AmongDistinct(order, due);
    var nums := Among(order, due);
    var sent := Kept(s.unacked, nums);
    forall k | k in s.unacked.Keys * due ensures k in Nums(sent) {
      assert k in nums;
      var i :| 0 <= i < |nums| && nums[i] == k;
      assert sent[i] in sent;
    }
  }

  // --- the loop and the system -------------------------------------------------

  // From server state s the events es lead to server state t and put sent on
  // the data channel, whatever else the channels and the client hold.
  ghost predicate Emits(s: Server, es: seq<Event>, t: Server, sent: seq<Data>) {
    forall data, client, acks ::
      Run(Wrapping, State(s, data, client, acks), es) == Some(State(t, data + sent, client, acks))
  }

  lemma EmitsMore(s: Server, a: seq<Event>, m: Server, x: seq<Data>, b: seq<Event>, t: Server, y: seq<Data>)
    requires Emits(s, a, m, x) && Emits(m, b, t, y)
    ensures Emits(s, a + b, t, x + y)
  {
    hide Run;
    forall data, client, acks
      ensures Run(Wrapping, State(s, data, client, acks), a + b) == Some(State(t, data + (x + y), client, acks))
    {
      Progress.RunAppend(Wrapping, State(s, data, client, acks), a, b);
      assert data + (x + y) == data + x + y;
    }
  }

  lemma EmitsNothing(s: Server)
    ensures Emits(s, [], s, [])
  {
    forall data: seq<Data>, client, acks
      ensures Run(Wrapping, State(s, data, client, acks), []) == Some(State(s, data + [], client, acks))
    {
      assert data + [] == data;
    }
  }

  lemma EmitsOne(s: Server, e: Event, t: Server, sent: seq<Data>)
    requires forall data, client, acks :: Enabled(Wrapping, State(s, data, client, acks), e)
    requires forall data, client, acks ::
               Apply(Wrapping, State(s, data, client, acks), e) == State(t, data + sent, client, acks)
    ensures Emits(s, [e], t, sent)
  {
    hide Enabled, Apply;
    forall data, client, acks
      ensures Run(Wrapping, State(s, data, client, acks), [e]) == Some(State(t, data + sent, client, acks))
    {
      assert [e][0] == e && [e][1..] == [];
      assert Enabled(Wrapping, State(s, data, client, acks), e);
      assert Run(Wrapping, State(t, data + sent, client, acks), []) == Some(State(t, data + sent, client, acks));
    }
  }

  ghost function FillRun(s: Server): seq<Event>
    decreases |s.unread|, !s.eof
  {
    if MayRead(s) then [ServerFills] + FillRun(Fill(Wrapping, s).0) else []
  }

  lemma {:induction false} FillEmits(s: Server)
    ensures Emits(s, FillRun(s), FillWindow(Wrapping, s).0, FillWindow(Wrapping, s).1)
    decreases |s.unread|, !s.eof
  {
    if MayRead(s) {
      var (s1, sent) := Fill(Wrapping, s);
      EmitsOne(s, ServerFills, s1, sent);
      FillEmits(s1);
      hide Emits;
      EmitsMore(s, [ServerFills], s1, sent, FillRun(s1), FillWindow(Wrapping, s1).0, FillWindow(Wrapping, s1).1);
    } else {
      EmitsNothing(s);
    }
  }

  function Resends(base: nat, sent: seq<Data>): seq<Event> {
    seq(|sent|, i requires 0 <= i < |sent| => ServerResends((sent[i].num - base) % MODULUS))
  }

  lemma {:induction false} ResendEmits(s: Server, sent: seq<Data>)
    requires Wrapped(s) && Stored(s, sent)
    ensures Emits(s, Resends(s.base, sent), s, sent)
  {
    if sent == [] {
      EmitsNothing(s);
    } else {
      var init, last := sent[..|sent| - 1], sent[|sent| - 1];
      var e := ServerResends((last.num - s.base) % MODULUS);
      assert Add(Wrapping, s.base, (last.num - s.base) % MODULUS) == last.num;
      EmitsOne(s, e, s, [last]);
      ResendEmits(s, init);
      hide Emits;
      assert sent == init + [last] && Resends(s.base, sent) == Resends(s.base, init) + [e];
      EmitsMore(s, Resends(s.base, init), s, init, [e], s, [last]);
    }
  }

  function Ends(n: nat): seq<Event> {
    seq(n, _ => ServerEnds)
  }

  lemma {:induction false} EndEmits(s: Server, n: nat)
    requires n > 0 ==> MaySendFin(s)
    ensures Emits(s, Ends(n), if n > 0 then s.(finSent := true) else s, Copies(Fin(s), n))
  {
    if n == 0 {
      EmitsNothing(s);
      assert Copies(Fin(s), n) == [];
    } else {
      var t := s.(finSent := true);
      EndEmits(s, n - 1);
      var m := if n > 1 then t else s;
      EmitsOne(m, ServerEnds, t, [Fin(s)]);
      hide Emits;
      EmitsMore(s, Ends(n - 1), m, Copies(Fin(s), n - 1), [ServerEnds], t, [Fin(s)]);
      assert Ends(n) == Ends(n - 1) + [ServerEnds];
      assert Copies(Fin(s), n) == Copies(Fin(s), n - 1) + [Fin(s)];
    }
  }

  // --- the SACK bytes ------------------------------------------------------------

  // Bytes a receiver puts on the wire and the numbers a server takes out of
  // them: the decoder is what Shown says it is.
  lemma ShownIsDecoded(sacks: set<nat>)
    requires SackCodec.Encodable(sacks)
    ensures SackCodec.ToSet(SackCodec.DecodeSack(SackCodec.EncodeSet(sacks).value)) == Shown(sacks)
  {
    hide SackCodec.DecodeSack, SackCodec.EncodeSet, SackCodec.Sorted;
    SackCodec.SetReadBySrc(sacks);
    SortedSet(sacks);
    OnlyZero(sacks);
  }

  lemma SortedSet(sacks: set<nat>)
    ensures SackCodec.ToSet(SackCodec.Sorted(sacks)) == sacks
  {
    hide SackCodec.Sorted;
    var list := SackCodec.Sorted(sacks);
    assert forall k :: k in sacks <==> k in list;
  }

  lemma OnlyZero(sacks: set<nat>)
    requires forall k | k in sacks :: k < MODULUS
    ensures Shown(sacks) == if sacks == {0} then {} else sacks
  {
    if sacks != {0} && forall k | k in sacks :: k % MODULUS == 0 {
      assert forall k | k in sacks :: k == 0;
      assert sacks == {};
    }
  }
}
