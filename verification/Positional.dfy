// Positional notation: what Python's format(s, '011b'), int(bits, 2),
// int.from_bytes, to_bytes and the shift-and-mask idioms compute.
module Positional {
  function Pow(b: nat, e: nat): (r: nat)
    ensures b > 0 ==> r > 0
  {
    if e == 0 then 1 else Pow(b, e - 1) * b
  }

  // The number written by ds in base b, most significant digit first.
  function Value(b: nat, ds: seq<nat>): nat {
    if ds == [] then 0 else Value(b, ds[..|ds| - 1]) * b + ds[|ds| - 1]
  }

  // The n low digits of v in base b.
  function Digits(b: nat, v: nat, n: nat): (ds: seq<nat>)
    requires b >= 2
    ensures |ds| == n
    ensures forall i | 0 <= i < n :: ds[i] < b
  {
    if n == 0 then [] else Digits(b, v / b, n - 1) + [v % b]
  }

  function Zeros(n: nat): (z: seq<nat>)
    ensures |z| == n && forall i | 0 <= i < n :: z[i] == 0
  {
    seq(n, _ => 0)
  }

  ghost predicate AllBelow(b: nat, ds: seq<nat>) {
    forall i | 0 <= i < |ds| :: ds[i] < b
  }

  // A left shift by k bits.
  function ShiftLeft(x: nat, k: nat): nat {
    Mul(x, Pow(2, k))
  }

  // A product of two non-negative numbers.
  function Mul(x: nat, y: nat): (r: nat)
    ensures r == x * y
  {
    x * y
  }

  // Bitwise or of non-negative integers.
  function BitOr(x: nat, y: nat): nat {
    if x == 0 && y == 0 then 0
    else 2 * BitOr(x / 2, y / 2) + (if x % 2 == 1 || y % 2 == 1 then 1 else 0)
  }

  lemma DivMod(q: nat, b: nat, r: nat)
    requires r < b
    ensures (q * b + r) / b == q && (q * b + r) % b == r
  {
    var v := q * b + r;
    var d := v / b - q;
    assert v == (v / b) * b + v % b;
    assert d * b == r - v % b;
    if d >= 1 {
      MulMonotone(1, d, b);
    } else if d <= -1 {
      MulMonotone(d, -1, b);
    }
  }

  lemma MulMonotone(x: int, y: int, b: nat)
    requires x <= y
    ensures x * b <= y * b
  {
  }

  lemma SmallMod(x: nat, m: nat)
    requires x < m
    ensures x % m == x
  {
  }

  lemma Associate(x: nat, y: nat, z: nat)
    ensures x * y * z == x * (y * z)
  {
  }

  // A digit below b over a remainder below a.
  lemma RemainderBound(x: nat, b: nat, y: nat, a: nat)
    requires x < b && y < a
    ensures x * a + y < a * b
  {
    MulMonotone(x, b - 1, a);
    assert (b - 1) * a == a * b - a;
  }

  lemma Regroup(q: nat, b: nat, x: nat, a: nat, y: nat)
    ensures (q * b + x) * a + y == q * (a * b) + (x * a + y)
  {
    assert (q * b + x) * a == q * b * a + x * a;
    Associate(q, b, a);
    assert b * a == a * b;
  }

  // Dividing twice is dividing by the product.
  lemma DivDiv(v: nat, a: nat, b: nat)
    requires a > 0 && b > 0
    ensures a * b > 0
    ensures v / a / b == v / (a * b)
    ensures v % (a * b) == v / a % b * a + v % a
  {
    var w, y := v / a, v % a;
    var q, x := w / b, w % b;
    QuotientAndRest(v, a);
    QuotientAndRest(w, b);
    RemainderBound(x, b, y, a);
    Regroup(q, b, x, a, y);
    DivMod(q, a * b, x * a + y);
  }

  lemma QuotientAndRest(v: nat, a: nat)
    requires a > 0
    ensures v == v / a * a + v % a && v % a < a
  {
  }

  lemma {:induction false} PowAdd(b: nat, m: nat, n: nat)
    ensures Pow(b, m + n) == Pow(b, m) * Pow(b, n)
  {
    if n > 0 {
      PowAdd(b, m, n - 1);
      Associate(Pow(b, m), Pow(b, n - 1), b);
    }
  }

  lemma {:induction false} PowPow(b: nat, m: nat, n: nat)
    ensures Pow(Pow(b, m), n) == Pow(b, m * n)
  {
    if n > 0 {
      PowPow(b, m, n - 1);
      assert m * n == m * (n - 1) + m;
      PowAdd(b, m * (n - 1), m);
    }
  }

  lemma {:induction false} ValueBound(b: nat, ds: seq<nat>)
    requires b > 0 && AllBelow(b, ds)
    ensures Value(b, ds) < Pow(b, |ds|)
  {
    if ds != [] {
      var init := ds[..|ds| - 1];
      ValueBound(b, init);
      var p := Pow(b, |init|);
      MulMonotone(Value(b, init), p - 1, b);
      assert (p - 1) * b == p * b - b;
    }
  }

  lemma {:induction false} DigitsOfValue(b: nat, ds: seq<nat>)
    requires b >= 2 && AllBelow(b, ds)
    ensures Digits(b, Value(b, ds), |ds|) == ds
  {
    if ds != [] {
      var init := ds[..|ds| - 1];
      DivMod(Value(b, init), b, ds[|ds| - 1]);
      DigitsOfValue(b, init);
    }
  }

  lemma ValueAppend(b: nat, ds: seq<nat>, d: nat)
    ensures Value(b, ds + [d]) == Mul(Value(b, ds), b) + d
  {
    assert (ds + [d])[..|ds|] == ds;
  }

  lemma SplitMod(v: nat, b: nat, n: nat)
    requires b >= 2 && n > 0
    ensures v % Pow(b, n) == Mul(v / b % Pow(b, n - 1), b) + v % b
  {
    var p := Pow(b, n - 1);
    DivDiv(v, b, p);
    assert b * p == p * b;
  }

  lemma {:induction false} ValueOfDigits(b: nat, v: nat, n: nat)
    requires b >= 2
    ensures Value(b, Digits(b, v, n)) == v % Pow(b, n)
  {
    if n > 0 {
      ValueOfDigits(b, v / b, n - 1);
      ValueAppend(b, Digits(b, v / b, n - 1), v % b);
      hide Value, Mul, Pow;
      SplitMod(v, b, n);
    }
  }

  // Below the limit nothing is lost.
  lemma ValueOfAllDigits(b: nat, v: nat, n: nat)
    requires b >= 2 && v < Pow(b, n)
    ensures Value(b, Digits(b, v, n)) == v
  {
    ValueOfDigits(b, v, n);
    SmallMod(v, Pow(b, n));
  }

  lemma Distribute(v: nat, p: nat, w: nat, b: nat, d: nat)
    ensures Mul(v * p + w, b) + d == v * (p * b) + (Mul(w, b) + d)
  {
    Associate(v, p, b);
  }

  lemma {:induction false} ValueConcat(b: nat, x: seq<nat>, y: seq<nat>)
    ensures Value(b, x + y) == Value(b, x) * Pow(b, |y|) + Value(b, y)
  {
    if y == [] {
      assert x + y == x;
    } else {
      var init, d := y[..|y| - 1], y[|y| - 1];
      assert y == init + [d] && x + y == x + init + [d];
      ValueAppend(b, x + init, d);
      ValueAppend(b, init, d);
      hide Value, Mul;
      ValueConcat(b, x, init);
      Distribute(Value(b, x), Pow(b, |init|), Value(b, init), b, d);
    }
  }

  lemma {:induction false} ValueZeros(b: nat, n: nat)
    ensures Value(b, Zeros(n)) == 0
  {
    if n > 0 {
      assert Zeros(n)[..n - 1] == Zeros(n - 1);
      ValueZeros(b, n - 1);
    }
  }

  lemma HalfShift(v: nat, k: nat)
    ensures v / 2 / Pow(2, k) == v / Pow(2, k + 1)
  {
    DivDiv(v, 2, Pow(2, k));
    assert 2 * Pow(2, k) == Pow(2, k + 1);
  }

  // A run of bits is what a shift and a mask extract.
  lemma {:induction false} SliceIsShiftAndMask(v: nat, total: nat, at: nat, width: nat)
    requires at + width <= total
    ensures Value(2, Digits(2, v, total)[at..at + width]) == v / Pow(2, total - at - width) % Pow(2, width)
  {
    if at + width == total {
      LowDigits(v, total, width);
      assert Digits(2, v, total)[at..at + width] == Digits(2, v, total)[total - width..];
    } else {
      assert Digits(2, v, total)[at..at + width] == Digits(2, v / 2, total - 1)[at..at + width];
      hide Digits, Value;
      SliceIsShiftAndMask(v / 2, total - 1, at, width);
      HalfShift(v, total - 1 - at - width);
    }
  }

  lemma {:induction false} LowDigits(v: nat, total: nat, width: nat)
    requires width <= total
    ensures Value(2, Digits(2, v, total)[total - width..]) == v % Pow(2, width)
  {
    if width > 0 {
      var ds := Digits(2, v, total);
      var low := ds[total - width..];
      assert low[..width - 1] == Digits(2, v / 2, total - 1)[total - width..];
      assert low[width - 1] == v % 2;
      LowDigits(v / 2, total - 1, width - 1);
      DivDiv(v, 2, Pow(2, width - 1));
      assert 2 * Pow(2, width - 1) == Pow(2, width);
    }
  }

  // An OR whose operands share no bit is a sum.
  lemma {:induction false} OrIsSum(x: nat, y: nat, k: nat)
    requires y < Pow(2, k)
    ensures BitOr(x * Pow(2, k), y) == x * Pow(2, k) + y
    decreases k
  {
    if k == 0 {
      OrZero(x);
    } else {
      var p := Pow(2, k - 1);
      assert x * Pow(2, k) == x * p * 2;
      OrIsSum(x, y / 2, k - 1);
      var z := x * p;
      assert z * 2 / 2 == z && z * 2 % 2 == 0;
    }
  }

  lemma {:induction false} OrZero(x: nat)
    ensures BitOr(x, 0) == x
  {
    if x > 0 {
      OrZero(x / 2);
    }
  }
}
