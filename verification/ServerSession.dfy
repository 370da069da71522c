// One client session of src/server.py: the fields of the per-address
// dictionary and what the server loop does with them.
module ServerSession {
  import opened SeqNums
  import opened Packets

  datatype Server = Server(
    base: nat,                    // oldest number not yet acknowledged
    next: nat,                    // number of the next new packet
    unacked: map<nat, Chunk>,     // packets kept for retransmission
    window: int,                  // last window the receiver advertised
    unread: seq<Chunk>,           // what file.read(1024) has yet to return
    eof: bool,
    finSent: bool)

  function NewServer(file: seq<Chunk>, window: int): Server {
    Server(0, 0, map[], window, file, false, false)
  }

  predicate MayRead(s: Server) {
    |s.unacked| < s.window && !s.eof
  }

  // One turn of the loop that fills the window: the new state and what is sent.
  function Fill(ar: Arith, s: Server): (Server, seq<Data>) {
    if s.unread == [] then (s.(eof := true), [])
    else (s.(unacked := s.unacked[s.next := s.unread[0]],
             next := Add(ar, s.next, 1),
             unread := s.unread[1..]),
          [Data(s.next, s.unread[0])])
  }

  // The whole loop.
  function FillWindow(ar: Arith, s: Server): (Server, seq<Data>)
    decreases |s.unread|, !s.eof
  {
    if !MayRead(s) then (s, [])
    else
      var (s1, sent1) := Fill(ar, s);
      var (s2, sent2) := FillWindow(ar, s1);
      (s2, sent1 + sent2)
  }

  // Processing an ACK or SACK; shown are the numbers read from its payload.
  function OnAck(ar: Arith, s: Server, num: nat, window: int, shown: set<nat>): Server {
    var steps := Dist(ar, num, s.base);
    if 0 <= steps < HALF_TURN then
      s.(window := window,
         base := Add(ar, s.base, steps),
         unacked := s.unacked - Passed(ar, s.base, steps) - shown)
    else
      s.(window := window, unacked := s.unacked - shown)
  }

  predicate MaySendFin(s: Server) {
    s.finSent || (s.eof && |s.unacked| == 0)
  }

  function Fin(s: Server): Data {
    Data(s.next, [])
  }

  // What a server reads out of the SACK field built by the receiver: its
  // decoder drops trailing zeros, so a lone 0 is never seen (SackCodec proves
  // that this is what encoding and decoding amount to).
  function Shown(sacks: set<nat>): set<nat> {
    if forall k | k in sacks :: k % MODULUS == 0 then {} else sacks
  }

  // --- wrapping -----------------------------------------------------------

  // Every kept packet appears under its residue and nothing else does.
  ghost predicate MapWraps(w: map<nat, Chunk>, u: map<nat, Chunk>) {
    && (forall k | k in u :: k % MODULUS in w && w[k % MODULUS] == u[k])
    && (forall q | q in w :: exists k :: k in u && k % MODULUS == q)
  }

  // w is u with every number reduced modulo 2048.
  ghost predicate ServerWraps(w: Server, u: Server) {
    && w.base == u.base % MODULUS
    && w.next == u.next % MODULUS
    && MapWraps(w.unacked, u.unacked)
    && w.window == u.window && w.unread == u.unread
    && w.eof == u.eof && w.finSent == u.finSent
  }

  // The numbers of a session span less than a turn.
  ghost predicate Narrow(s: Server) {
    s.base <= s.next < s.base + HALF_TURN && forall k | k in s.unacked :: s.base <= k < s.next
  }

  lemma MapWrapsSize(w: map<nat, Chunk>, u: map<nat, Chunk>, base: nat)
    requires MapWraps(w, u)
    requires forall k | k in u :: base <= k < base + MODULUS
    ensures |w| == |u|
  {
    assert w.Keys == WrapSet(u.Keys);
    WrapSetSize(u.Keys, base);
    assert |w| == |w.Keys| && |u| == |u.Keys|;
  }

  lemma FillWraps(w: Server, u: Server)
    requires ServerWraps(w, u) && Narrow(u)
    ensures MayRead(w) == MayRead(u)
    ensures var (w1, wSent) := Fill(Wrapping, w);
            var (u1, uSent) := Fill(Unbounded, u);
            ServerWraps(w1, u1) && wSent == WrapDatas(uSent)
  {
    MapWrapsSize(w.unacked, u.unacked, u.base);
    if u.unread != [] {
      var w1 := Fill(Wrapping, w).0;
      var u1 := Fill(Unbounded, u).0;
      AddWraps(u.next, 1);
      forall k | k in u1.unacked
        ensures k % MODULUS in w1.unacked && w1.unacked[k % MODULUS] == u1.unacked[k]
      {
        SameResidue(k, u.next);
      }
      forall q | q in w1.unacked ensures exists k :: k in u1.unacked && k % MODULUS == q {
        if q == w.next {
          assert u.next in u1.unacked;
        } else {
          var k :| k in u.unacked && k % MODULUS == q;
          assert k in u1.unacked;
        }
      }
    }
  }

  // The same packets can be sent again.
  lemma KeptWraps(w: Server, u: Server, ahead: nat)
    requires ServerWraps(w, u) && Narrow(u) && ahead < MODULUS
    ensures Add(Wrapping, w.base, ahead) == (u.base + ahead) % MODULUS
    ensures Add(Wrapping, w.base, ahead) in w.unacked <==> u.base + ahead in u.unacked
    ensures u.base + ahead in u.unacked ==> w.unacked[Add(Wrapping, w.base, ahead)] == u.unacked[u.base + ahead]
  {
    var num := u.base + ahead;
    AddWraps(u.base, ahead);
    if num % MODULUS in w.unacked {
      var k :| k in u.unacked && k % MODULUS == num % MODULUS;
      SameResidue(k, num);
    }
  }

  lemma RemoveWraps(w: map<nat, Chunk>, u: map<nat, Chunk>, s: set<nat>, base: nat)
    requires MapWraps(w, u)
    requires forall k | k in u :: base <= k < base + MODULUS
    requires forall k | k in s :: base <= k < base + MODULUS
    ensures MapWraps(w - WrapSet(s), u - s)
  {
    var w1 := w - WrapSet(s);
    var u1 := u - s;
    forall k | k in u1 ensures k % MODULUS in w1 && w1[k % MODULUS] == u1[k] {
      forall j | j in s ensures j % MODULUS != k % MODULUS {
        SameResidue(j, k);
      }
    }
    forall q | q in w1 ensures exists k :: k in u1 && k % MODULUS == q {
      var k :| k in u && k % MODULUS == q;
      assert k in u1;
    }
  }

  lemma PassedWraps(base: nat, steps: nat)
    ensures Passed(Wrapping, base % MODULUS, steps) == WrapSet(Passed(Unbounded, base, steps))
  {
    var a := Passed(Wrapping, base % MODULUS, steps);
    var b := WrapSet(Passed(Unbounded, base, steps));
    forall i | 0 <= i < steps ensures Add(Wrapping, base % MODULUS, i) in b {
      AddWraps(base, i);
      assert Add(Unbounded, base, i) in Passed(Unbounded, base, steps);
    }
    forall q | q in b ensures q in a {
      var i :| 0 <= i < steps && Add(Unbounded, base, i) % MODULUS == q;
      AddWraps(base, i);
    }
  }

  // An acknowledgement that is not stale and names only numbers of this
  // session has the same effect in both readings.
  lemma OnAckWraps(w: Server, u: Server, num: nat, window: int, shown: set<nat>)
    requires ServerWraps(w, u) && Narrow(u)
    requires u.base <= num <= u.next
    requires forall k | k in shown :: u.base <= k < u.base + MODULUS
    ensures ServerWraps(OnAck(Wrapping, w, num % MODULUS, window, WrapSet(shown)),
                        OnAck(Unbounded, u, num, window, shown))
  {
    DistWraps(num, u.base);
    var steps := num - u.base;
    AddWraps(u.base, steps);
    var passed := Passed(Unbounded, u.base, steps);
    PassedWraps(u.base, steps);
    RemoveWraps(w.unacked, u.unacked, passed, u.base);
    RemoveWraps(w.unacked - WrapSet(passed), u.unacked - passed, shown, u.base);
  }

  // One that is behind base by at most half a turn never moves the base.
  lemma LateAckWraps(w: Server, u: Server, num: nat, window: int, shown: set<nat>)
    requires ServerWraps(w, u) && num < u.base <= num + HALF_TURN
    requires forall k | k in u.unacked :: num <= k < num + MODULUS
    requires forall k | k in shown :: num <= k < num + MODULUS
    ensures ServerWraps(OnAck(Wrapping, w, num % MODULUS, window, WrapSet(shown)),
                        OnAck(Unbounded, u, num, window, shown))
  {
    hide MapWraps;
    DistWraps(num, u.base);
    RemoveWraps(w.unacked, u.unacked, shown, num);
  }

  lemma ShownWraps(sacks: set<nat>)
    ensures Shown(WrapSet(sacks)) == WrapSet(Shown(sacks))
  {
    if forall k | k in sacks :: k % MODULUS == 0 {
      assert forall q | q in WrapSet(sacks) :: q % MODULUS == 0;
      assert WrapSet({}) == {};
    } else {
      var k :| k in sacks && k % MODULUS != 0;
      assert k % MODULUS in WrapSet(sacks);
    }
  }
}
