// The ack loop of server_send in tools/groupe_20/SRTP.py: it turns 11-bit
// acknowledgement numbers back into positions in the file.
module Unwrapping {
  import opened SeqNums
  import opened Packets
  import opened SackCodec
  import opened Segments

  const MAX_ACK_ADVANCE: nat := 63

  const MAX_PROCESSED_ACKS: nat := 10
  const MAX_CONSECUTIVE_TIMEOUTS: nat := 50
  const TIMESTAMP_MODULO: nat := 0x1_0000_0000

  datatype Estimate = Estimate(srtt: real, rttvar: real)

  // The round-trip estimate, how long to wait for an acknowledgement, and how
  // often in a row that was in vain.
  datatype Timer = Timer(rtt: Option<Estimate>, timeout: real, silences: nat)

  datatype Sender = Sender(
    segment: nat,          // file_segment_num: the next chunk the receiver wants
    turns: nat,            // file_segment_num_mult: how often the numbers wrapped
    aboutToLoop: bool,
    window: nat,
    selective: seq<nat>,   // selective_acked
    timer: Timer)

  // A segment out of the queue and the clock in milliseconds when it is read.
  datatype Arrival = Arrival(segment: seq<byte>, now: nat)

  // How waiting for acknowledgements ends: the queue stayed empty too long, it did
  // so too often, or ten segments were read and the rest is thrown away.
  datatype Ending = Silent | GaveUp | Full

  function NewSender(): Sender {
    Sender(0, 0, false, 1, [], Timer(None, 1.0, 0))
  }

  // --- the clock -----------------------------------------------------------------------

  function Clamp(value: real, low: real, high: real): real {
    var v := if value < high then value else high;
    if v > low then v else low
  }

  // Seconds since a packet stamped sent was sent, told by 32-bit milliseconds.
  function Elapsed(now: nat, sent: nat): real {
    ((now % TIMESTAMP_MODULO - sent) % TIMESTAMP_MODULO) as real / 1000.0
  }

  function Absolute(x: real): real {
    if x < 0.0 then -x else x
  }

  // update_rtt_estimator, without the timeout it also returns.
  function Updated(rtt: Option<Estimate>, sample: real): Estimate {
    match rtt
    case None => Estimate(sample, sample / 2.0)
    case Some(e) => Estimate(0.875 * e.srtt + 0.125 * sample, 0.75 * e.rttvar + 0.25 * Absolute(e.srtt - sample))
  }

  // An acknowledgement of a packet of this batch is a sample.
  function Sampled(t: Timer, stamps: set<nat>, stamp: nat, now: nat): Timer {
    if stamp !in stamps then t
    else
      var e := Updated(t.rtt, Elapsed(now, stamp));
      t.(rtt := Some(e), timeout := Clamp(e.srtt + 4.0 * e.rttvar, 0.5, 2.0))
  }

  // --- the loop ------------------------------------------------------------------------

  // How far an acknowledgement moves the sender, in 11-bit arithmetic.
  function Advance(s: Sender, num: nat): nat {
    (num - s.segment % MODULUS) % MODULUS
  }

  // is_seqnum_in_window
  predicate SeqnumInWindow(num: nat, base: nat, window: int) {
    window > 0 && (num - base) % MODULUS < window
  }

  // Every selectively acknowledged number lies in the window above the ack.
  predicate CoherentSack(list: seq<nat>, ack: Packet) {
    forall i | 0 <= i < |list| ::
      SeqnumInWindow(list[i], ack.seqnum, if ack.window > 1 then ack.window else 1) && list[i] != ack.seqnum
  }

  // The acknowledgement passes every check and reaches the final assignment.
  predicate Taken(s: Sender, ack: Packet) {
    && (ack.ptype == PTYPE_ACK || ack.ptype == PTYPE_SACK)
    && Advance(s, ack.seqnum) <= MAX_ACK_ADVANCE
    && (ack.ptype == PTYPE_SACK ==>
          DecodeSet(ack.payload).Some? && CoherentSack(DecodeSet(ack.payload).value, ack))
  }

  // The acknowledgement is one the sender can have asked for.
  predicate Near(s: Sender, ack: Packet) {
    (ack.ptype == PTYPE_ACK || ack.ptype == PTYPE_SACK) && Advance(s, ack.seqnum) <= MAX_ACK_ADVANCE
  }

  // One acknowledgement read at time now.
  function OnAck20(s: Sender, stamps: set<nat>, ack: Packet, now: nat): Sender {
    if ack.ptype != PTYPE_ACK && ack.ptype != PTYPE_SACK then s
    else if Advance(s, ack.seqnum) > MAX_ACK_ADVANCE then s
    else
      var s1 := s.(window := ack.window, selective := [], timer := s.timer.(silences := 0));
      if ack.ptype == PTYPE_SACK && DecodeSet(ack.payload).None? then s1
      else
        var s2 := if ack.ptype == PTYPE_SACK then s1.(selective := DecodeSet(ack.payload).value) else s1;
        if ack.ptype == PTYPE_SACK && !CoherentSack(s2.selective, ack) then s2
        else
          var about := s2.aboutToLoop || ack.seqnum > 1000;
          var wraps := ack.seqnum < 64 && about;
          var turns := if wraps then s2.turns + 1 else s2.turns;
          s2.(timer := Sampled(s2.timer, stamps, ack.timestamp, now),
              aboutToLoop := about && !wraps, turns := turns, segment := turns * MODULUS + ack.seqnum)
  }

  // One turn of the loop: what cannot be decoded is passed over.
  function OnArrival(s: Sender, stamps: set<nat>, a: Arrival): Sender {
    match FromSegment20(a.segment)
    case None => s
    case Some(ack) => OnAck20(s, stamps, ack, a.now)
  }

  function OnArrivals(s: Sender, stamps: set<nat>, arrivals: seq<Arrival>): Sender
    decreases |arrivals|
  {
    if arrivals == [] then s else OnArrivals(OnArrival(s, stamps, arrivals[0]), stamps, arrivals[1..])
  }

  // What is read of the segments that come before the queue stays empty.
  function Read(arrivals: seq<Arrival>): seq<Arrival> {
    if |arrivals| < MAX_PROCESSED_ACKS then arrivals else arrivals[..MAX_PROCESSED_ACKS]
  }

  // Waiting once: everything read, and then perhaps a silence.
  function Wait(s: Sender, stamps: set<nat>, arrivals: seq<Arrival>): (Sender, Ending) {
    var t := OnArrivals(s.(selective := []), stamps, Read(arrivals));
    if |arrivals| >= MAX_PROCESSED_ACKS then (t, Full)
    else
      var timer := t.timer.(silences := t.timer.silences + 1);
      (t.(timer := timer), if timer.silences >= MAX_CONSECUTIVE_TIMEOUTS then GaveUp else Silent)
  }

  // The body of the loop for a segment that decodes.
  method ProcessAck(s: Sender, stamps: set<nat>, ack: Packet, now: nat) returns (r: Sender)
    ensures r == OnAck20(s, stamps, ack, now)
  {
    hide DecodeSet, CoherentSack, Sampled;
    r := s;
    if ack.ptype != PTYPE_ACK && ack.ptype != PTYPE_SACK {
      return;
    }
    var current := r.segment % MODULUS;
    var advance := (ack.seqnum - current) % MODULUS;
    if advance > MAX_ACK_ADVANCE {
      return;
    }
    r := r.(window := ack.window, timer := r.timer.(silences := 0), selective := []);
    if ack.ptype == PTYPE_SACK {
      var decoded := DecodeSackPayload(ack.payload);
      if decoded.None? {
        return;
      }
      r := r.(selective := decoded.value);
      if !CoherentSack(r.selective, ack) {
        return;
      }
    }
    r := r.(timer := Sampled(r.timer, stamps, ack.timestamp, now));
    if ack.seqnum > 1000 {
      r := r.(aboutToLoop := true);
    }
    if ack.seqnum < 64 && r.aboutToLoop {
      r := r.(aboutToLoop := false, turns := r.turns + 1);
    }
    r := r.(segment := r.turns * MODULUS + ack.seqnum);
  }

  // The loop as written, for one round of waiting: at most ten segments, left when
  // the queue stays empty.
  method ProcessAcks(s: Sender, stamps: set<nat>, arrivals: seq<Arrival>) returns (r: Sender, ending: Ending)
    ensures (r, ending) == Wait(s, stamps, arrivals)
    ensures Synced(s) ==> RoundDone(s, stamps, arrivals, r)
  {
    hide OnArrivals, OnAck20, FromSegment20, RoundDone, Synced;
    if Synced(s) {
      RoundOutcome(s, stamps, arrivals);
    }
    r := s.(selective := []);
    OnNothing(r, stamps);
    for i := 0 to MAX_PROCESSED_ACKS
      invariant i <= |arrivals|
      invariant r == OnArrivals(s.(selective := []), stamps, arrivals[..i])
    {
      if i == |arrivals| {
        assert arrivals[..i] == arrivals;
        r := r.(timer := r.timer.(silences := r.timer.silences + 1));
        return r, if r.timer.silences >= MAX_CONSECUTIVE_TIMEOUTS then GaveUp else Silent;
      }
      assert arrivals[..i + 1] == arrivals[..i] + [arrivals[i]];
      OnArrivalsAppend(s.(selective := []), stamps, arrivals[..i], arrivals[i]);
      var ack := FromSegment20(arrivals[i].segment);
      if ack.Some? {
        r := ProcessAck(r, stamps, ack.value, arrivals[i].now);
      }
    }
    assert |arrivals| == MAX_PROCESSED_ACKS ==> arrivals[..MAX_PROCESSED_ACKS] == arrivals;
    ending := Full;
  }

  lemma OnNothing(s: Sender, stamps: set<nat>)
    ensures OnArrivals(s, stamps, []) == s
  {
  }

  lemma {:induction false} OnArrivalsAppend(s: Sender, stamps: set<nat>, arrivals: seq<Arrival>, a: Arrival)
    ensures OnArrivals(s, stamps, arrivals + [a]) == OnArrival(OnArrivals(s, stamps, arrivals), stamps, a)
    decreases |arrivals|
  {
    hide OnArrival;
    var all := arrivals + [a];
    if arrivals == [] {
      assert all[1..] == [];
    } else {
      assert all[0] == arrivals[0] && all[1..] == arrivals[1..] + [a];
      OnArrivalsAppend(OnArrival(s, stamps, arrivals[0]), stamps, arrivals[1..], a);
    }
  }

  // --- positions -----------------------------------------------------------------------

  // The flag and the counter agree with the position.
  predicate Synced(s: Sender) {
    s.turns == s.segment / MODULUS && (s.aboutToLoop <==> s.segment % MODULUS > 1000)
  }

  // One acknowledgement: the position moves forward by exactly the 11-bit
  // advance, across a wrap as well, or not at all.
  lemma OneAckUnwraps(s: Sender, stamps: set<nat>, ack: Packet, now: nat)
    requires Synced(s) && ack.seqnum < MODULUS
    ensures var t := OnAck20(s, stamps, ack, now);
            && Synced(t) && t.segment == s.segment + (if Taken(s, ack) then Advance(s, ack.seqnum) else 0)
            && (Taken(s, ack) ==> t.segment % MODULUS == ack.seqnum)
  {
    hide DecodeSet, Sampled;
    if Taken(s, ack) {
      var current := s.segment % MODULUS;
      var advance := Advance(s, ack.seqnum);
      assert s.segment == s.turns * MODULUS + current;
      assert ack.seqnum == if current + advance < MODULUS then current + advance else current + advance - MODULUS;
    }
  }

  // How far one segment takes the sender.
  function Step(s: Sender, a: Arrival): nat {
    match FromSegment20(a.segment)
    case None => 0
    case Some(ack) => if Taken(s, ack) then Advance(s, ack.seqnum) else 0
  }

  lemma OneArrivalUnwraps(s: Sender, stamps: set<nat>, a: Arrival)
    requires Synced(s)
    ensures Synced(OnArrival(s, stamps, a)) && OnArrival(s, stamps, a).segment == s.segment + Step(s, a)
  {
    SeqnumFits(a.segment);
    hide FromSegment20, OnAck20, Taken, Advance, Synced;
    if FromSegment20(a.segment).Some? {
      OneAckUnwraps(s, stamps, FromSegment20(a.segment).value, a.now);
    }
  }

  lemma SeqnumFits(segment: seq<byte>)
    ensures FromSegment20(segment).Some? ==> FromSegment20(segment).value.seqnum < MODULUS
  {
    hide Unpack;
  }

  // The sum of the steps along a stream.
  function TotalAdvance(s: Sender, stamps: set<nat>, arrivals: seq<Arrival>): nat
    decreases |arrivals|
  {
    if arrivals == [] then 0
    else Step(s, arrivals[0]) + TotalAdvance(OnArrival(s, stamps, arrivals[0]), stamps, arrivals[1..])
  }

  lemma {:induction false} StreamUnwraps(s: Sender, stamps: set<nat>, arrivals: seq<Arrival>)
    requires Synced(s)
    ensures Synced(OnArrivals(s, stamps, arrivals))
    ensures OnArrivals(s, stamps, arrivals).segment == s.segment + TotalAdvance(s, stamps, arrivals)
    decreases |arrivals|
  {
    hide OnArrival, Step, Synced;
    if arrivals != [] {
      OneArrivalUnwraps(s, stamps, arrivals[0]);
      StreamUnwraps(OnArrival(s, stamps, arrivals[0]), stamps, arrivals[1..]);
    }
  }

  // The packets of one round carry these timestamps; these segments come.
  datatype Round = Round(stamps: set<nat>, arrivals: seq<Arrival>)

  // Round after round, until the sender gives up.
  function Rounds(s: Sender, rounds: seq<Round>): Sender
    decreases |rounds|
  {
    if rounds == [] then s
    else
      var (t, ending) := Wait(s, rounds[0].stamps, rounds[0].arrivals);
      if ending == GaveUp then t else Rounds(t, rounds[1..])
  }

  function RoundsAdvance(s: Sender, rounds: seq<Round>): nat
    decreases |rounds|
  {
    if rounds == [] then 0
    else
      var (t, ending) := Wait(s, rounds[0].stamps, rounds[0].arrivals);
      TotalAdvance(s.(selective := []), rounds[0].stamps, Read(rounds[0].arrivals))
      + if ending == GaveUp then 0 else RoundsAdvance(t, rounds[1..])
  }

  // Main result: over any number of rounds, any segments in any order and any
  // number of wraps, the position is the start plus the advances taken.
  lemma {:induction false} UnwrappingIsExact(s: Sender, rounds: seq<Round>)
    requires Synced(s)
    ensures Synced(Rounds(s, rounds)) && Rounds(s, rounds).segment == s.segment + RoundsAdvance(s, rounds)
    decreases |rounds|
  {
    hide OnArrivals, TotalAdvance;
    if rounds != [] {
      StreamUnwraps(s.(selective := []), rounds[0].stamps, Read(rounds[0].arrivals));
      UnwrappingIsExact(Wait(s, rounds[0].stamps, rounds[0].arrivals).0, rounds[1..]);
    }
  }

  // In particular from the start: an acknowledgement of the unbounded number n
  // at most 63 ahead puts the sender exactly at n.
  lemma TrueAckIsRecovered(rounds: seq<Round>, stamps: set<nat>, a: Arrival, n: nat)
    requires FromSegment20(a.segment).Some?
    requires var s, ack := Rounds(NewSender(), rounds), FromSegment20(a.segment).value;
             s.segment <= n <= s.segment + MAX_ACK_ADVANCE && ack.seqnum == n % MODULUS && Taken(s, ack)
    ensures OnArrival(Rounds(NewSender(), rounds), stamps, a).segment == n
  {
    hide OnAck20, Rounds, Taken, FromSegment20, RoundsAdvance;
    var s, ack := Rounds(NewSender(), rounds), FromSegment20(a.segment).value;
    UnwrappingIsExact(NewSender(), rounds);
    OneAckUnwraps(s, stamps, ack, a.now);
    DistWraps(n, s.segment);
  }

  // --- what a round leaves behind, told by the segments alone ----------------------------

  // At this position the segment is an acknowledgement at most 63 ahead.
  predicate NearTo(position: nat, a: Arrival) {
    match FromSegment20(a.segment)
    case None => false
    case Some(ack) => (ack.ptype == 2 || ack.ptype == 3) && (ack.seqnum - position) % 2048 <= 63
  }

  // A SACK names numbers inside the window above the one it asks for.
  predicate Believable(ack: Packet) {
    ack.ptype == 3 ==>
      && DecodeSet(ack.payload).Some?
      && forall n | n in DecodeSet(ack.payload).value :: 0 < (n - ack.seqnum) % 2048 < ack.window
  }

  // The position after the segments.
  function Position(position: nat, arrivals: seq<Arrival>): nat {
    if arrivals == [] then position
    else
      var p, a := Position(position, arrivals[..|arrivals| - 1]), arrivals[|arrivals| - 1];
      if NearTo(p, a) && Believable(FromSegment20(a.segment).value)
      then p + (FromSegment20(a.segment).value.seqnum - p) % 2048
      else p
  }

  predicate NearAt(position: nat, arrivals: seq<Arrival>, i: nat)
    requires i < |arrivals|
  {
    NearTo(Position(position, arrivals[..i]), arrivals[i])
  }

  ghost predicate NoneNear(position: nat, arrivals: seq<Arrival>) {
    forall i | 0 <= i < |arrivals| :: !NearAt(position, arrivals, i)
  }

  ghost predicate LastNear(position: nat, arrivals: seq<Arrival>, i: nat)
    requires i < |arrivals|
  {
    NearAt(position, arrivals, i) && forall j | i < j < |arrivals| :: !NearAt(position, arrivals, j)
  }

  // The window the acknowledgement advertises is in force, and the numbers it names
  // if it is a SACK that decodes.
  predicate InForce(ack: Packet, t: Sender) {
    && t.window == ack.window
    && t.selective == if ack.ptype == 3 && DecodeSet(ack.payload).Some? then DecodeSet(ack.payload).value else []
  }

  // The last near acknowledgement is in force. Without one the window stays as it
  // was and no number counts as selectively acknowledged.
  ghost predicate TakenOver(s: Sender, read: seq<Arrival>, t: Sender) {
    && (forall i: nat | i < |read| && LastNear(s.segment, read, i) ::
          InForce(FromSegment20(read[i].segment).value, t))
    && (NoneNear(s.segment, read) ==> t.window == s.window && t.selective == [])
  }

  // A sample: a near and believable acknowledgement of a packet of this round.
  predicate SampleAt(position: nat, stamps: set<nat>, read: seq<Arrival>, i: nat)
    requires i < |read|
  {
    && NearAt(position, read, i)
    && var ack := FromSegment20(read[i].segment).value;
       Believable(ack) && ack.timestamp in stamps
  }

  // What a sample of so many milliseconds makes of an estimate, and the timeout
  // that goes with it.
  ghost predicate Smoothed(before: Option<Estimate>, ms: nat, after: Option<Estimate>, timeout: real) {
    && after.Some?
    && var (x, e) := (ms as real / 1000.0, after.value);
    && (before.None? ==> e.srtt == x && 2.0 * e.rttvar == x)
    && (before.Some? ==>
          && 8.0 * e.srtt == 7.0 * before.value.srtt + x
          && (before.value.srtt >= x ==> 4.0 * e.rttvar == 3.0 * before.value.rttvar + before.value.srtt - x)
          && (before.value.srtt <= x ==> 4.0 * e.rttvar == 3.0 * before.value.rttvar + x - before.value.srtt))
    && var v := e.srtt + 4.0 * e.rttvar;
       timeout == if v <= 0.5 then 0.5 else if v >= 2.0 then 2.0 else v
  }

  ghost predicate NoSample(position: nat, stamps: set<nat>, read: seq<Arrival>) {
    forall i | 0 <= i < |read| :: !SampleAt(position, stamps, read, i)
  }

  ghost predicate LastSample(position: nat, stamps: set<nat>, read: seq<Arrival>, i: nat)
    requires i < |read|
  {
    SampleAt(position, stamps, read, i) && forall j | i < j < |read| :: !SampleAt(position, stamps, read, j)
  }

  // Without a sample the estimate and the timeout stay as they were. Otherwise they
  // come from the last sample and the estimate before it.
  ghost predicate Timed(s: Sender, stamps: set<nat>, read: seq<Arrival>, t: Timer) {
    && (NoSample(s.segment, stamps, read) ==> t.rtt == s.timer.rtt && t.timeout == s.timer.timeout)
    && (forall i: nat | i < |read| && LastSample(s.segment, stamps, read, i) ::
          Smoothed(OnArrivals(s, stamps, read[..i]).timer.rtt,
                   (read[i].now - FromSegment20(read[i].segment).value.timestamp) % 0x1_0000_0000, t.rtt, t.timeout))
  }

  // What a round of waiting does, by the first ten segments.
  ghost predicate RoundDone(s: Sender, stamps: set<nat>, arrivals: seq<Arrival>, r: Sender) {
    var read := if |arrivals| < 10 then arrivals else arrivals[..10];
    && r.segment == Position(s.segment, read)
    && TakenOver(s, read, r) && Timed(s.(selective := []), stamps, read, r.timer)
  }

  lemma NearIsNear(s: Sender, a: Arrival, ack: Packet)
    requires FromSegment20(a.segment) == Some(ack)
    ensures NearTo(s.segment, a) <==> Near(s, ack)
  {
    hide FromSegment20;
    assert (ack.seqnum - s.segment % MODULUS) % MODULUS == (ack.seqnum - s.segment) % 2048;
  }

  // The numbers of a SACK that decodes have 11 bits, so the ways of leaving out the
  // number asked for agree.
  lemma CoherentNumber(n: nat, base: nat, window: int)
    requires n < MODULUS && base < MODULUS
    ensures SeqnumInWindow(n, base, if window > 1 then window else 1) && n != base <==> 0 < (n - base) % 2048 < window
  {
    SameResidue(n, base);
  }

  lemma CoherentList(list: seq<nat>, ack: Packet)
    requires ack.seqnum < MODULUS && forall n | n in list :: n < MODULUS
    ensures CoherentSack(list, ack) <==> forall n | n in list :: 0 < (n - ack.seqnum) % 2048 < ack.window
  {
    forall n | n in list
      ensures SeqnumInWindow(n, ack.seqnum, if ack.window > 1 then ack.window else 1) && n != ack.seqnum
         <==> 0 < (n - ack.seqnum) % 2048 < ack.window
    {
      CoherentNumber(n, ack.seqnum, ack.window);
    }
    hide SeqnumInWindow;
    assert forall i | 0 <= i < |list| :: list[i] in list;
  }

  lemma CoherentIsBelievable(s: Sender, ack: Packet)
    requires ack.seqnum < MODULUS && (ack.ptype == PTYPE_ACK || ack.ptype == PTYPE_SACK)
    ensures Taken(s, ack) <==> Near(s, ack) && Believable(ack)
  {
    hide DecodeSet, CoherentSack, Advance;
    DecodedFits(ack.payload);
    if DecodeSet(ack.payload).Some? {
      CoherentList(DecodeSet(ack.payload).value, ack);
    }
  }

  lemma SampleIsMilliseconds(now: nat, stamp: nat)
    ensures Elapsed(now, stamp) == ((now - stamp) % 0x1_0000_0000) as real / 1000.0
  {
  }

  lemma SampledIsSmoothed(t: Timer, stamps: set<nat>, stamp: nat, now: nat)
    requires stamp in stamps
    ensures var after := Sampled(t, stamps, stamp, now);
            Smoothed(t.rtt, (now - stamp) % 0x1_0000_0000, after.rtt, after.timeout)
  {
    SampleIsMilliseconds(now, stamp);
    hide Elapsed;
  }

  // One segment.
  lemma ArrivalOutcome(s: Sender, stamps: set<nat>, a: Arrival)
    requires Synced(s)
    ensures var t := OnArrival(s, stamps, a);
            && (!NearTo(s.segment, a) ==> t == s)
            && (NearTo(s.segment, a) ==>
                  var ack := FromSegment20(a.segment).value;
                  && InForce(ack, t)
                  && t.segment == (if Believable(ack) then s.segment + (ack.seqnum - s.segment) % 2048 else s.segment)
                  && (if Believable(ack) && ack.timestamp in stamps
                      then Smoothed(s.timer.rtt, (a.now - ack.timestamp) % 0x1_0000_0000, t.timer.rtt, t.timer.timeout)
                      else t.timer.rtt == s.timer.rtt && t.timer.timeout == s.timer.timeout))
  {
    SeqnumFits(a.segment);
    hide FromSegment20, Smoothed, DecodeSet, CoherentSack, Believable, Synced;
    if FromSegment20(a.segment).Some? {
      var ack := FromSegment20(a.segment).value;
      NearIsNear(s, a, ack);
      OneAckUnwraps(s, stamps, ack, a.now);
      if ack.ptype == PTYPE_ACK || ack.ptype == PTYPE_SACK {
        CoherentIsBelievable(s, ack);
      }
      if ack.timestamp in stamps {
        SampledIsSmoothed(s.timer.(silences := 0), stamps, ack.timestamp, a.now);
      }
      hide Sampled;
      assert (ack.seqnum - s.segment % MODULUS) % MODULUS == (ack.seqnum - s.segment) % 2048;
    }
  }

  lemma PositionNext(position: nat, init: seq<Arrival>, a: Arrival)
    ensures var p := Position(position, init);
            Position(position, init + [a])
            == if NearTo(p, a) && Believable(FromSegment20(a.segment).value)
               then p + (FromSegment20(a.segment).value.seqnum - p) % 2048
               else p
  {
    hide NearTo, Believable;
    assert (init + [a])[..|init|] == init;
  }

  // Which acknowledgement is the last near one when one segment more was read.
  lemma LastNearNext(position: nat, init: seq<Arrival>, a: Arrival)
    ensures var (read, n) := (init + [a], |init|);
            && (NearAt(position, read, n) <==> NearTo(Position(position, init), a))
            && (forall i: nat | i < n ::
                  LastNear(position, read, i) ==> LastNear(position, init, i) && !NearAt(position, read, n))
            && (NoneNear(position, read) <==> NoneNear(position, init) && !NearAt(position, read, n))
  {
    SameBefore(position, {}, init, a);
    var read, n := init + [a], |init|;
    assert NearAt(position, read, n) <==> NearTo(Position(position, init), a);
    hide NearAt, SampleAt;
    assert forall j | 0 <= j < n :: NearAt(position, read, j) == NearAt(position, init, j);
  }

  lemma LastSampleNext(position: nat, stamps: set<nat>, init: seq<Arrival>, a: Arrival)
    ensures var (read, n) := (init + [a], |init|);
            && (forall i: nat | i < n ::
                  LastSample(position, stamps, read, i) ==>
                    LastSample(position, stamps, init, i) && !SampleAt(position, stamps, read, n))
            && (NoSample(position, stamps, read) <==>
                  NoSample(position, stamps, init) && !SampleAt(position, stamps, read, n))
  {
    SameBefore(position, stamps, init, a);
    hide NearAt, SampleAt;
    var read, n := init + [a], |init|;
    assert forall j | 0 <= j < n :: SampleAt(position, stamps, read, j) == SampleAt(position, stamps, init, j);
  }

  lemma TakenOverNext(s: Sender, init: seq<Arrival>, a: Arrival, m: Sender, t: Sender)
    requires TakenOver(s, init, m) && m.segment == Position(s.segment, init)
    requires if NearTo(m.segment, a) then InForce(FromSegment20(a.segment).value, t) else t == m
    ensures TakenOver(s, init + [a], t)
  {
    LastNearNext(s.segment, init, a);
    hide NearAt, NearTo, Position, LastNear, NoneNear, InForce, FromSegment20;
    LastIsNear(s.segment, init + [a]);
  }

  lemma LastIsNear(position: nat, read: seq<Arrival>)
    ensures forall i: nat | i < |read| && LastNear(position, read, i) :: NearAt(position, read, i)
  {
    hide NearAt;
  }

  lemma LastIsSample(position: nat, stamps: set<nat>, read: seq<Arrival>)
    ensures forall i: nat | i < |read| && LastSample(position, stamps, read, i) :: SampleAt(position, stamps, read, i)
  {
    hide SampleAt;
  }

  lemma TimedNext(s: Sender, stamps: set<nat>, init: seq<Arrival>, a: Arrival, t: Timer)
    requires Timed(s, stamps, init, OnArrivals(s, stamps, init).timer)
    requires var m := OnArrivals(s, stamps, init).timer;
             if SampleAt(s.segment, stamps, init + [a], |init|)
             then Smoothed(m.rtt, (a.now - FromSegment20(a.segment).value.timestamp) % 0x1_0000_0000, t.rtt, t.timeout)
             else t.rtt == m.rtt && t.timeout == m.timeout
    ensures Timed(s, stamps, init + [a], t)
  {
    hide SampleAt, NearAt, OnArrivals, FromSegment20, LastSample, NoSample, Smoothed;
    SameBefore(s.segment, stamps, init, a);
    LastSampleNext(s.segment, stamps, init, a);
    LastIsSample(s.segment, stamps, init + [a]);
  }

  lemma NothingRead(s: Sender, stamps: set<nat>)
    requires s.selective == []
    ensures OnArrivals(s, stamps, []) == s && Position(s.segment, []) == s.segment
    ensures TakenOver(s, [], s) && Timed(s, stamps, [], s.timer)
  {
  }

  lemma {:induction false} StreamOutcome(s: Sender, stamps: set<nat>, read: seq<Arrival>)
    requires Synced(s) && s.selective == []
    ensures var t := OnArrivals(s, stamps, read);
            && Synced(t) && t.segment == Position(s.segment, read)
            && TakenOver(s, read, t) && Timed(s, stamps, read, t.timer)
  {
    hide NearTo, Believable, OnArrival, OnArrivals, Smoothed, Synced, TakenOver, Timed, Position, FromSegment20;
    NothingRead(s, stamps);
    if read != [] {
      var init, a := read[..|read| - 1], read[|read| - 1];
      assert read == init + [a];
      StreamOutcome(s, stamps, init);
      OnArrivalsAppend(s, stamps, init, a);
      var m := OnArrivals(s, stamps, init);
      ArrivalOutcome(m, stamps, a);
      OneArrivalUnwraps(m, stamps, a);
      PositionNext(s.segment, init, a);
      assert (init + [a])[..|init|] == init;
      TakenOverNext(s, init, a, m, OnArrival(m, stamps, a));
      TimedNext(s, stamps, init, a, OnArrival(m, stamps, a).timer);
    }
  }

  // What is said of the segments of a prefix does not depend on the rest.
  lemma SameBefore(position: nat, stamps: set<nat>, init: seq<Arrival>, a: Arrival)
    ensures forall i | 0 <= i < |init| ::
              && (init + [a])[..i] == init[..i]
              && NearAt(position, init + [a], i) == NearAt(position, init, i)
              && SampleAt(position, stamps, init + [a], i) == SampleAt(position, stamps, init, i)
    ensures (init + [a])[..|init|] == init
  {
    hide NearTo, Believable;
    forall i | 0 <= i < |init| ensures (init + [a])[..i] == init[..i] && (init + [a])[i] == init[i] {
    }
  }

  lemma RoundOutcome(s: Sender, stamps: set<nat>, arrivals: seq<Arrival>)
    requires Synced(s)
    ensures RoundDone(s, stamps, arrivals, Wait(s, stamps, arrivals).0)
  {
    hide OnArrivals, NearAt, SampleAt, Position;
    StreamOutcome(s.(selective := []), stamps, Read(arrivals));
  }

  // --- giving up ------------------------------------------------------------------------

  // The wait is between half a second and two, and the estimates are no less than 0.
  ghost predicate TimerOk(t: Timer) {
    0.5 <= t.timeout <= 2.0 && (t.rtt.Some? ==> t.rtt.value.srtt >= 0.0 && t.rtt.value.rttvar >= 0.0)
  }

  lemma ArrivalKeepsTimer(s: Sender, stamps: set<nat>, a: Arrival)
    requires TimerOk(s.timer)
    ensures TimerOk(OnArrival(s, stamps, a).timer)
  {
    hide FromSegment20, DecodeSet, CoherentSack;
  }

  // Some segment of these, when its turn comes, is an acknowledgement the sender
  // can have asked for.
  predicate HearsNear(s: Sender, stamps: set<nat>, arrivals: seq<Arrival>)
    decreases |arrivals|
  {
    arrivals != [] &&
    (   (FromSegment20(arrivals[0].segment).Some? && Near(s, FromSegment20(arrivals[0].segment).value))
     || HearsNear(OnArrival(s, stamps, arrivals[0]), stamps, arrivals[1..]))
  }

  lemma OneArrivalSilences(s: Sender, stamps: set<nat>, a: Arrival)
    ensures var near := FromSegment20(a.segment).Some? && Near(s, FromSegment20(a.segment).value);
            OnArrival(s, stamps, a).timer.silences == if near then 0 else s.timer.silences
  {
    hide FromSegment20, DecodeSet, CoherentSack;
  }

  lemma {:induction false} StreamTimer(s: Sender, stamps: set<nat>, arrivals: seq<Arrival>)
    requires TimerOk(s.timer)
    ensures TimerOk(OnArrivals(s, stamps, arrivals).timer)
    ensures OnArrivals(s, stamps, arrivals).timer.silences
            == if HearsNear(s, stamps, arrivals) then 0 else s.timer.silences
    decreases |arrivals|
  {
    hide OnArrival, FromSegment20, TimerOk, Near;
    if arrivals != [] {
      ArrivalKeepsTimer(s, stamps, arrivals[0]);
      OneArrivalSilences(s, stamps, arrivals[0]);
      StreamTimer(OnArrival(s, stamps, arrivals[0]), stamps, arrivals[1..]);
    }
  }

  // A round counts as one more silence when fewer than ten segments came, and the
  // count starts again with every acknowledgement that is near. The sender gives
  // up exactly in the round that brings it to fifty.
  lemma WaitCounts(s: Sender, round: Round)
    requires TimerOk(s.timer)
    ensures var (t, ending) := Wait(s, round.stamps, round.arrivals);
            var heard := HearsNear(s.(selective := []), round.stamps, Read(round.arrivals));
            && TimerOk(t.timer)
            && t.timer.silences == (if heard then 0 else s.timer.silences) + (if ending == Full then 0 else 1)
            && (ending == Full <==> |round.arrivals| >= 10)
            && (ending == GaveUp <==> ending != Full && t.timer.silences >= 50)
  {
    hide OnArrivals, HearsNear;
    StreamTimer(s.(selective := []), round.stamps, Read(round.arrivals));
  }
}
