// Sequence numbers. The wire carries 11 bits; the same protocol code is given
// two readings, one that wraps modulo 2048 and one that never wraps.
module SeqNums {
  const MODULUS: nat := 2048
  // A number this far or farther ahead is taken to be behind.
  const HALF_TURN: nat := 1024
  // The largest window a six-bit field can advertise.
  const MAX_WINDOW: nat := 63

  // Wrapping is what the programs compute; Unbounded is the reading in which
  // every packet has its own number.
  datatype Arith = Wrapping | Unbounded

  // x + d in the chosen arithmetic.
  function Add(ar: Arith, x: nat, d: nat): nat {
    if ar.Wrapping? then (x + d) % MODULUS else x + d
  }

  // x - y in the chosen arithmetic; the remainder is never negative when wrapping.
  function Dist(ar: Arith, x: nat, y: nat): int {
    if ar.Wrapping? then (x - y) % MODULUS else x - y
  }

  // The steps numbers from base on.
  function Passed(ar: Arith, base: nat, steps: nat): set<nat> {
    set i | 0 <= i < steps :: Add(ar, base, i)
  }

  lemma {:induction false} PassedSize(ar: Arith, base: nat, steps: nat)
    ensures |Passed(ar, base, steps)| <= steps
  {
    if steps > 0 {
      PassedSize(ar, base, steps - 1);
      assert Passed(ar, base, steps) == Passed(ar, base, steps - 1) + {Add(ar, base, steps - 1)};
    } else {
      assert Passed(ar, base, steps) == {};
    }
  }

  lemma PassedOneMore(ar: Arith, base: nat, steps: nat)
    ensures Passed(ar, base, steps + 1) == Passed(ar, base, steps) + {Add(ar, base, steps)}
  {
    assert Add(ar, base, steps) in Passed(ar, base, steps + 1);
  }

  // The numbers passed are those less than steps ahead of base.
  lemma PassedByDistance(base: nat, steps: nat, k: nat)
    requires base < 2048 && k < 2048 && steps <= 2048
    ensures k in Passed(Wrapping, base, steps) <==> (k - base) % 2048 < steps
  {
    var d: nat := (k - base) % 2048;
    assert Add(Wrapping, base, d) == k;
    forall i | 0 <= i < steps && Add(Wrapping, base, i) == k ensures i == d {
    }
  }

  function WrapSet(s: set<nat>): set<nat> {
    set k | k in s :: k % MODULUS
  }

  lemma AddWraps(x: nat, d: nat)
    ensures Add(Wrapping, x % MODULUS, d) == Add(Unbounded, x, d) % MODULUS
  {
  }

  // Two numbers less than a whole turn apart are told apart by their residues.
  lemma SameResidue(x: nat, y: nat)
    requires x - y < MODULUS && y - x < MODULUS
    ensures x % MODULUS == y % MODULUS <==> x == y
  {
  }

  // The circular distance is the true distance ahead, or a turn minus the
  // distance behind.
  lemma DistWraps(x: nat, y: nat)
    requires x - y < MODULUS && y - x < MODULUS
    ensures Dist(Wrapping, x % MODULUS, y % MODULUS) == if x >= y then x - y else MODULUS + x - y
  {
  }

  // One step on, every other number is one closer.
  lemma DistNext(x: nat, y: nat)
    requires x < MODULUS && y < MODULUS && x != y
    ensures 0 < Dist(Wrapping, x, y) < MODULUS
    ensures Dist(Wrapping, x, Add(Wrapping, y, 1)) == Dist(Wrapping, x, y) - 1
    ensures x == Add(Wrapping, Add(Wrapping, y, 1), Dist(Wrapping, x, y) - 1)
  {
  }

  // i numbers on, counted from the next number.
  lemma NextPlace(base: nat, i: nat)
    requires i > 0
    ensures ((base + 1) % 2048 + (i - 1)) % 2048 == (base + i) % 2048
  {
  }

  // Finite-set counting used for window sizes.
  function Range(lo: nat, hi: nat): (r: set<nat>)
    ensures forall k :: k in r <==> lo <= k < hi
    ensures |r| == if lo <= hi then hi - lo else 0
    decreases hi
  {
    if lo < hi then Range(lo, hi - 1) + {hi - 1} else {}
  }

  lemma {:induction false} SubsetSize<T>(a: set<T>, b: set<T>)
    requires a <= b
    ensures |a| <= |b|
  {
    if a != {} {
      var x :| x in a;
      SubsetSize(a - {x}, b - {x});
    }
  }

  lemma UnionSize<T>(a: set<T>, b: set<T>)
    ensures |a + b| <= |a| + |b|
  {
    assert a + b == a + (b - a);
    SubsetSize(b - a, b);
  }

  // Numbers within one turn of each other keep their count when wrapped.
  lemma {:induction false} WrapSetSize(s: set<nat>, base: nat)
    requires forall k | k in s :: base <= k < base + MODULUS
    ensures |WrapSet(s)| == |s|
  {
    if s == {} {
      assert WrapSet(s) == {};
    } else {
      var x :| x in s;
      var rest := s - {x};
      WrapSetSize(rest, base);
      forall k | k in rest ensures k % MODULUS != x % MODULUS {
        SameResidue(k, x);
      }
      assert s == rest + {x};
      assert WrapSet(s) == WrapSet(rest) + {x % MODULUS};
    }
  }
}
