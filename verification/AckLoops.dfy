// Two ways of applying a cumulative acknowledgement: the loop in src/server.py
// and handle_ack in tools/groupe_42/server.py.
module AckLoops {
  import opened SeqNums
  import opened Packets
  import opened ServerSession

  // What handle_ack leaves: the new base and the packets still outstanding.
  function HandleAck(num: nat, last: nat, sent: map<nat, Chunk>): (nat, map<nat, Chunk>) {
    var ahead := (num - last) % MODULUS;
    if ahead > MODULUS / 2 then (last, sent)
    else (num, sent - Passed(Wrapping, last, ahead))
  }

  // handle_ack as written; the distance left to go is its measure.
  method HandleAckLoop(num: nat, last: nat, sent: map<nat, Chunk>) returns (newLast: nat, rest: map<nat, Chunk>)
    requires num < MODULUS && last < MODULUS
    ensures (newLast, rest) == HandleAck(num, last, sent)
    ensures Forgets(num, last, sent, newLast, rest)
  {
    HandleAckForgets(num, last, sent);
    hide Add, Passed, Forgets;
    newLast, rest := last, sent;
    if (num - last) % MODULUS > MODULUS / 2 {
      return;
    }
    ghost var ahead: nat := (num - last) % MODULUS;
    ghost var done: nat := 0;
    NoStep(last);
    LeftToGo(num, last, 0);
    while newLast != num
      invariant done <= ahead && newLast == Add(Wrapping, last, done)
      invariant (num - newLast) % MODULUS == ahead - done && (newLast == num <==> done == ahead)
      invariant rest == sent - Passed(Wrapping, last, done)
      decreases (num - newLast) % MODULUS
    {
      rest := rest - {newLast};
      PassedOneMore(Wrapping, last, done);
      OneStepOn(last, done);
      LeftToGo(num, last, done + 1);
      newLast := (newLast + 1) % MODULUS;
      done := done + 1;
    }
  }

  // At most 1024 ahead, num becomes the base and the numbers passed are forgotten.
  ghost predicate Forgets(num: nat, last: nat, sent: map<nat, Chunk>, newLast: nat, rest: map<nat, Chunk>) {
    var ahead := (num - last) % 2048;
    && newLast == (if ahead <= 1024 then num else last)
    && (forall k | k < 2048 :: k in rest <==> k in sent && !(ahead <= 1024 && (k - last) % 2048 < ahead))
    && (forall k | k in rest :: k in sent && rest[k] == sent[k])
  }

  lemma HandleAckForgets(num: nat, last: nat, sent: map<nat, Chunk>)
    requires num < MODULUS && last < MODULUS
    ensures Forgets(num, last, sent, HandleAck(num, last, sent).0, HandleAck(num, last, sent).1)
  {
    var ahead: nat := (num - last) % 2048;
    forall k: nat | k < 2048 ensures k in Passed(Wrapping, last, ahead) <==> (k - last) % 2048 < ahead {
      PassedByDistance(last, ahead, k);
    }
    hide Passed;
  }

  // After done steps from last, what is left is the distance less done.
  lemma LeftToGo(num: nat, last: nat, done: nat)
    requires num < MODULUS && last < MODULUS && done <= (num - last) % MODULUS
    ensures (num - Add(Wrapping, last, done)) % MODULUS == (num - last) % MODULUS - done
    ensures Add(Wrapping, last, done) == num <==> done == (num - last) % MODULUS
  {
    var here := last + done;
    if num < last {
      assert (num - last) % MODULUS == num - last + MODULUS;
      if here < MODULUS {
        assert Add(Wrapping, last, done) == here;
        assert (num - here) % MODULUS == num - here + MODULUS;
      } else {
        assert Add(Wrapping, last, done) == here - MODULUS;
      }
    } else {
      assert (num - last) % MODULUS == num - last;
      assert Add(Wrapping, last, done) == here;
    }
  }

  lemma NoStep(last: nat)
    requires last < MODULUS
    ensures Add(Wrapping, last, 0) == last && Passed(Wrapping, last, 0) == {}
  {
  }

  lemma OneStepOn(last: nat, done: nat)
    ensures (Add(Wrapping, last, done) + 1) % MODULUS == Add(Wrapping, last, done + 1)
  {
  }

  // The two agree on the new base and the outstanding packets exactly when the
  // circular distance is not 1024.
  lemma AgreeUnlessOpposite(s: Server, num: nat, window: int)
    requires num < MODULUS && s.base < MODULUS
    ensures var t := OnAck(Wrapping, s, num, window, {});
            (t.base, t.unacked) == HandleAck(num, s.base, s.unacked) <==> Dist(Wrapping, num, s.base) != 1024
  {
    var steps := Dist(Wrapping, num, s.base);
    assert Add(Wrapping, s.base, steps) == num;
    var passed := Passed(Wrapping, s.base, steps);
    assert s.unacked - {} == s.unacked;
    assert s.unacked - passed - {} == s.unacked - passed;
  }

  // window_size: how many numbers lie between last_ack and next_seq.
  function WindowSize(base: nat, next: nat): int {
    if next >= base then next - base else MODULUS - base + next
  }

  lemma WindowSizeIsSpan(base: nat, next: nat)
    requires base <= next < base + MODULUS
    ensures WindowSize(base % MODULUS, next % MODULUS) == next - base
  {
    DistWraps(next, base);
  }
}
