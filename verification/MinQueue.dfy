// The priority queue of min_queue.c: a heap in a growing array whose root is
// slot 0, whose only child is slot 1, and in which slot i >= 1 has children 2i
// and 2i + 1.
module MinQueue {
  import opened Packets
  import opened Positional

  const SLOTS_PER_MALLOC: nat := 20

  // greater(a, b) is the C comparison: a comes strictly after b.
  ghost predicate StrictWeakOrder<T(!new)>(greater: (T, T) -> bool) {
    && (forall a, b :: greater(a, b) ==> !greater(b, a))
    && (forall a, b, c :: !greater(a, b) && !greater(b, c) ==> !greater(a, c))
  }

  // No slot comes after its child.
  ghost predicate Heap<T>(greater: (T, T) -> bool, h: seq<T>) {
    forall i | 1 <= i < |h| :: !greater(h[i / 2], h[i])
  }

  ghost predicate Minimal<T>(greater: (T, T) -> bool, h: seq<T>, v: T) {
    forall i | 0 <= i < |h| :: !greater(v, h[i])
  }

  ghost predicate SortedBy<T>(greater: (T, T) -> bool, s: seq<T>) {
    forall i, j | 0 <= i < j < |s| :: !greater(s[i], s[j])
  }

  // --- what the two heapify loops compute ----------------------------------

  // Heapify-up: move larger parents down into the hole at i, then drop v in.
  function Up<T>(greater: (T, T) -> bool, h: seq<T>, i: nat, v: T): (r: seq<T>)
    requires i < |h|
    ensures |r| == |h|
    decreases i
  {
    if i > 0 && greater(h[i / 2], v) then Up(greater, h[i := h[i / 2]], i / 2, v)
    else h[i := v]
  }

  // has_child: the smaller child of i, or 0 if there is none.
  function SmallerChild<T>(greater: (T, T) -> bool, h: seq<T>, i: nat): (c: nat)
    ensures c != 0 ==> c < |h| && i < c && c / 2 == i
  {
    var left := 2 * i;
    if left >= |h| then 0
    else if left + 1 < |h| && greater(h[left], h[left + 1]) then left + 1
    else left
  }

  // Heapify-down: swap the entry at i with its smaller child while it is larger.
  function Down<T>(greater: (T, T) -> bool, h: seq<T>, i: nat): (r: seq<T>)
    requires i < |h| || h == []
    ensures |r| == |h|
    decreases |h| - i
  {
    var c := SmallerChild(greater, h, i);
    if c != 0 && greater(h[i], h[c]) then Down(greater, h[i := h[c]][c := h[i]], c) else h
  }

  // What the hole holds is irrelevant.
  lemma UpFillsHole<T>(greater: (T, T) -> bool, h: seq<T>, i: nat, v: T, x: T)
    requires i < |h|
    ensures Up(greater, h[i := x], i, v) == Up(greater, h, i, v)
  {
    assert h[i := x][i := v] == h[i := v];
    if i > 0 {
      assert h[i := x][i := h[i / 2]] == h[i := h[i / 2]];
    }
  }

  function Pushed<T>(greater: (T, T) -> bool, h: seq<T>, v: T): seq<T> {
    Up(greater, h + [v], |h|, v)
  }

  function Popped<T>(greater: (T, T) -> bool, h: seq<T>): seq<T>
    requires h != []
  {
    var last := h[|h| - 1];
    Down(greater, h[0 := last][..|h| - 1], 0)
  }

  // How often a slot number can be halved: floor(log2 n) + 1.
  function Levels(n: nat): nat {
    if n == 0 then 0 else 1 + Levels(n / 2)
  }

  lemma {:induction false} LevelsIsLog(n: nat)
    requires n > 0
    ensures Pow(2, Levels(n) - 1) <= n < Pow(2, Levels(n))
  {
    if n > 1 {
      LevelsIsLog(n / 2);
    }
  }

  lemma {:induction false} LevelsMonotone(m: nat, n: nat)
    requires m <= n
    ensures Levels(m) <= Levels(n)
  {
    if m > 0 {
      LevelsMonotone(m / 2, n / 2);
    }
  }

  // --- the heap property -----------------------------------------------------

  // A heap but for the hole at i, which v may fill as far as children go.
  ghost predicate HoleFor<T>(greater: (T, T) -> bool, h: seq<T>, i: nat, v: T) {
    && i < |h|
    && (forall j | 1 <= j < |h| && j != i && j / 2 != i :: !greater(h[j / 2], h[j]))
    && (forall j | 1 <= j < |h| && j != i && j / 2 == i ::
          !greater(v, h[j]) && (i > 0 ==> !greater(h[i / 2], h[j])))
  }

  lemma {:induction false} UpIsHeap<T(!new)>(greater: (T, T) -> bool, h: seq<T>, i: nat, v: T)
    requires StrictWeakOrder(greater) && HoleFor(greater, h, i, v)
    ensures Heap(greater, Up(greater, h, i, v))
    decreases i
  {
    if i > 0 && greater(h[i / 2], v) {
      assert HoleFor(greater, h[i := h[i / 2]], i / 2, v);
      UpIsHeap(greater, h[i := h[i / 2]], i / 2, v);
    }
  }

  lemma {:induction false} UpKeepsElements<T>(greater: (T, T) -> bool, h: seq<T>, i: nat, v: T)
    requires i < |h|
    ensures multiset(Up(greater, h, i, v)) == multiset(h[i := v])
    decreases i
  {
    if i > 0 && greater(h[i / 2], v) {
      UpKeepsElements(greater, h[i := h[i / 2]], i / 2, v);
      assert multiset(h[i := h[i / 2]][i / 2 := v]) == multiset(h[i := v]);
    }
  }

  // A heap but for the entry at i, which may be too large.
  ghost predicate LooseAt<T>(greater: (T, T) -> bool, h: seq<T>, i: nat) {
    && (forall j | 1 <= j < |h| && j / 2 != i :: !greater(h[j / 2], h[j]))
    && (forall j | 1 <= j < |h| && j / 2 == i && 1 <= i :: !greater(h[i / 2], h[j]))
  }

  lemma NoSmallerChild<T(!new)>(greater: (T, T) -> bool, h: seq<T>, i: nat, j: nat)
    requires StrictWeakOrder(greater) && i < |h| && 1 <= j < |h| && j / 2 == i
    ensures var c := SmallerChild(greater, h, i);
            if c == 0 then i == 0 && j == 1 && !greater(h[0], h[1]) else !greater(h[c], h[j])
  {
    assert j == 2 * i || j == 2 * i + 1;
    assert !greater(h[j], h[j]);
  }

  // No child of i comes before c; if c is 0, the only child there can be is the
  // one of the root, and it does not come before the root.
  ghost predicate SmallestChild<T>(greater: (T, T) -> bool, h: seq<T>, i: nat, c: nat)
    requires c < |h|
  {
    forall j | 1 <= j < |h| && j / 2 == i ::
      if c == 0 then i == 0 && j == 1 && !greater(h[0], h[1]) else !greater(h[c], h[j])
  }

  lemma IsSmallestChild<T(!new)>(greater: (T, T) -> bool, h: seq<T>, i: nat)
    requires StrictWeakOrder(greater) && i < |h|
    ensures SmallestChild(greater, h, i, SmallerChild(greater, h, i))
  {
    forall j | 1 <= j < |h| && j / 2 == i
      ensures var c := SmallerChild(greater, h, i);
              if c == 0 then i == 0 && j == 1 && !greater(h[0], h[1]) else !greater(h[c], h[j])
    {
      NoSmallerChild(greater, h, i, j);
    }
  }

  lemma {:induction false} DownIsHeap<T(!new)>(greater: (T, T) -> bool, h: seq<T>, i: nat)
    requires StrictWeakOrder(greater) && (i < |h| || h == []) && LooseAt(greater, h, i)
    ensures Heap(greater, Down(greater, h, i))
    decreases |h| - i
  {
    var c := SmallerChild(greater, h, i);
    forall j | 1 <= j < |h| && j / 2 == i ensures c == 0 || !greater(h[c], h[j]) {
      NoSmallerChild(greater, h, i, j);
    }
    if c != 0 && greater(h[i], h[c]) {
      assert LooseAt(greater, h[i := h[c]][c := h[i]], c);
      DownIsHeap(greater, h[i := h[c]][c := h[i]], c);
    } else {
      forall j | 1 <= j < |h| && j / 2 == i ensures !greater(h[i], h[j]) {
        NoSmallerChild(greater, h, i, j);
      }
    }
  }

  lemma {:induction false} DownKeepsElements<T>(greater: (T, T) -> bool, h: seq<T>, i: nat)
    requires i < |h| || h == []
    ensures multiset(Down(greater, h, i)) == multiset(h)
    decreases |h| - i
  {
    var c := SmallerChild(greater, h, i);
    if c != 0 && greater(h[i], h[c]) {
      DownKeepsElements(greater, h[i := h[c]][c := h[i]], c);
    }
  }

  // --- main results -----------------------------------------------------------

  // Pushing keeps the heap and adds exactly v.
  lemma PushCorrect<T(!new)>(greater: (T, T) -> bool, h: seq<T>, v: T)
    requires StrictWeakOrder(greater) && Heap(greater, h)
    ensures Heap(greater, Pushed(greater, h, v))
    ensures multiset(Pushed(greater, h, v)) == multiset(h) + multiset{v}
  {
    UpIsHeap(greater, h + [v], |h|, v);
    UpKeepsElements(greater, h + [v], |h|, v);
    assert (h + [v])[|h| := v] == h + [v];
  }

  // The root is minimal.
  lemma {:induction false} RootIsMinimal<T(!new)>(greater: (T, T) -> bool, h: seq<T>, i: nat)
    requires StrictWeakOrder(greater) && Heap(greater, h) && i < |h|
    ensures !greater(h[0], h[i])
    decreases i
  {
    if i > 0 {
      RootIsMinimal(greater, h, i / 2);
    }
  }

  lemma LastOverRoot<T>(h: seq<T>)
    requires h != []
    ensures multiset(h[0 := h[|h| - 1]][..|h| - 1]) + multiset{h[0]} == multiset(h)
  {
    var last := h[|h| - 1];
    if |h| > 1 {
      assert h == [h[0]] + h[1..|h| - 1] + [last];
      assert h[0 := last][..|h| - 1] == [last] + h[1..|h| - 1];
    } else {
      assert h == [h[0]];
    }
  }

  // Popping keeps the heap and removes exactly the root, which is minimal.
  lemma PopCorrect<T(!new)>(greater: (T, T) -> bool, h: seq<T>)
    requires StrictWeakOrder(greater) && Heap(greater, h) && h != []
    ensures Heap(greater, Popped(greater, h))
    ensures multiset(Popped(greater, h)) + multiset{h[0]} == multiset(h)
    ensures Minimal(greater, h, h[0])
  {
    var rest := h[0 := h[|h| - 1]][..|h| - 1];
    DownIsHeap(greater, rest, 0);
    DownKeepsElements(greater, rest, 0);
    LastOverRoot(h);
    forall i | 0 <= i < |h| ensures !greater(h[0], h[i]) {
      RootIsMinimal(greater, h, i);
    }
  }

  // Popping until the queue is empty.
  function Drained<T>(greater: (T, T) -> bool, h: seq<T>): seq<T>
    decreases |h|
  {
    if h == [] then [] else [h[0]] + Drained(greater, Popped(greater, h))
  }

  lemma MinimalOfPart<T>(greater: (T, T) -> bool, h: seq<T>, part: seq<T>, v: T)
    requires Minimal(greater, h, v) && multiset(part) <= multiset(h)
    ensures Minimal(greater, part, v)
  {
    forall j | 0 <= j < |part| ensures !greater(v, part[j]) {
      assert part[j] in multiset(part);
      assert part[j] in multiset(h);
    }
  }

  // Draining yields what was queued, in order.
  lemma {:induction false} DrainSorts<T(!new)>(greater: (T, T) -> bool, h: seq<T>)
    requires StrictWeakOrder(greater) && Heap(greater, h)
    ensures SortedBy(greater, Drained(greater, h))
    ensures multiset(Drained(greater, h)) == multiset(h)
    decreases |h|
  {
    if h != [] {
      PopCorrect(greater, h);
      hide StrictWeakOrder, Heap, Popped, SortedBy, Minimal;
      var rest := Drained(greater, Popped(greater, h));
      DrainSorts(greater, Popped(greater, h));
      MinimalOfPart(greater, h, rest, h[0]);
      MinimalFirst(greater, h[0], rest);
    }
  }

  lemma MinimalFirst<T>(greater: (T, T) -> bool, v: T, s: seq<T>)
    requires Minimal(greater, s, v) && SortedBy(greater, s)
    ensures SortedBy(greater, [v] + s) && multiset([v] + s) == multiset{v} + multiset(s)
  {
  }

  function PushAll<T>(greater: (T, T) -> bool, h: seq<T>, vs: seq<T>): seq<T>
    decreases |vs|
  {
    if vs == [] then h else PushAll(greater, Pushed(greater, h, vs[0]), vs[1..])
  }

  lemma {:induction false} PushAllCorrect<T(!new)>(greater: (T, T) -> bool, h: seq<T>, vs: seq<T>)
    requires StrictWeakOrder(greater) && Heap(greater, h)
    ensures Heap(greater, PushAll(greater, h, vs))
    ensures multiset(PushAll(greater, h, vs)) == multiset(h) + multiset(vs)
    decreases |vs|
  {
    if vs != [] {
      PushCorrect(greater, h, vs[0]);
      PushAllCorrect(greater, Pushed(greater, h, vs[0]), vs[1..]);
      assert vs == [vs[0]] + vs[1..];
    }
  }

  // Pushing anything into an empty queue and draining it sorts.
  lemma QueueSorts<T(!new)>(greater: (T, T) -> bool, vs: seq<T>)
    requires StrictWeakOrder(greater)
    ensures SortedBy(greater, Drained(greater, PushAll(greater, [], vs)))
    ensures multiset(Drained(greater, PushAll(greater, [], vs))) == multiset(vs)
  {
    PushAllCorrect(greater, [], vs);
    DrainSorts(greater, PushAll(greater, [], vs));
  }

  // --- the queue in memory -----------------------------------------------------

  class MinQueue<T(0,!new)> {
    const greater: (T, T) -> bool
    var e: array<T>
    var size: nat

    ghost predicate Valid()
      reads this
    {
      size <= e.Length
    }

    ghost function Contents(): seq<T>
      reads this, e
      requires Valid()
    {
      e[..size]
    }

    constructor (greater: (T, T) -> bool)
      ensures Valid() && fresh(e) && Contents() == [] && this.greater == greater
      ensures e.Length == 20
    {
      this.greater := greater;
      e := new T[SLOTS_PER_MALLOC];
      size := 0;
    }

    // Make room for one more element; without memory the queue is untouched.
    method Reserve(memory: bool) returns (ok: bool)
      requires Valid()
      modifies this`e
      ensures Valid() && ok == (memory || size < old(e).Length)
      ensures e == old(e) || fresh(e)
      ensures !ok ==> e == old(e)
      ensures ok ==> size < e.Length
      ensures e.Length == old(e).Length + (if ok && size == old(e).Length then 20 else 0)
      ensures e[..size] == old(e[..size])
    {
      if size == e.Length {
        if !memory {
          return false;
        }
        var bigger := new T[size + SLOTS_PER_MALLOC];
        forall i | 0 <= i < size {
          bigger[i] := e[i];
        }
        e := bigger;
        assert e[..size] == old(e[..size]);
      }
      return true;
    }

    // The loop of minq_push: the last slot is a hole that travels up.
    method HeapifyUp(v: T) returns (ghost steps: nat)
      requires Valid() && size > 0
      modifies e
      ensures Contents() == Up(greater, old(Contents()), size - 1, v)
      ensures steps <= Levels(size - 1)
    {
      steps := 0;
      var i: nat := size - 1;
      var parent := i / 2;
      while i != 0 && greater(e[parent], v)
        invariant i < size && parent == i / 2
        invariant steps + Levels(i) <= Levels(size - 1)
        invariant Up(greater, e[..size], i, v) == Up(greater, old(e[..size]), size - 1, v)
        decreases i
      {
        ghost var h := e[..size];
        e[i] := e[parent];
        assert e[..size] == h[i := h[parent]];
        i := parent;
        parent := i / 2;
        steps := steps + 1;
      }
      ghost var h := e[..size];
      e[i] := v;
      assert e[..size] == h[i := v];
    }

    // minq_push; memory tells whether realloc succeeds if it is called.
    method Push(v: T, memory: bool) returns (status: int, ghost steps: nat)
      requires Valid()
      modifies this, e
      ensures Valid() && (e == old(e) || fresh(e))
      ensures status == (if memory || old(size) < old(e.Length) then 0 else -1)
      ensures status == 0 ==> Contents() == Pushed(greater, old(Contents()), v)
      ensures status == 0 ==> size == old(size) + 1
      ensures status != 0 ==> Contents() == old(Contents()) && size == old(size) && e == old(e)
      ensures steps <= Levels(old(size))
    {
      var ok := Reserve(memory);
      if !ok {
        return -1, 0;
      }
      ghost var h := Contents();
      size := size + 1;
      ghost var x := e[size - 1];
      assert Contents() == (h + [v])[size - 1 := x];
      UpFillsHole(greater, h + [v], size - 1, v, x);
      steps := HeapifyUp(v);
      status := 0;
    }

    // has_child: index of the smaller child, 0 if there is none.
    method HasChild(i: nat) returns (child: nat)
      requires Valid() && i < size
      ensures child == SmallerChild(greater, Contents(), i)
      ensures child != 0 ==> child < size && child / 2 == i && i < child
      ensures StrictWeakOrder(greater) ==> SmallestChild(greater, Contents(), i, child)
    {
      if StrictWeakOrder(greater) {
        IsSmallestChild(greater, Contents(), i);
      }
      hide SmallestChild, StrictWeakOrder;
      var left := 2 * i;
      if left >= size {
        return 0;
      }
      var right := left + 1;
      if right < size && greater(e[left], e[right]) {
        return right;
      }
      return left;
    }

    // The loop of minq_pop: the entry at the root sinks below its smaller children.
    method HeapifyDown() returns (ghost steps: nat)
      requires Valid() && size > 0
      modifies e
      ensures Contents() == Down(greater, old(Contents()), 0)
      ensures steps <= Levels(size)
    {
      hide StrictWeakOrder, SmallestChild;
      ghost var start := e[..size];
      steps := 0;
      var current := 0;
      var child := HasChild(current);
      while child != 0 && greater(e[current], e[child])
        invariant current < size
        invariant child == SmallerChild(greater, e[..size], current)
        invariant steps == Levels(current)
        invariant Down(greater, e[..size], current) == Down(greater, start, 0)
        decreases size - current
      {
        ghost var h := e[..size];
        e[current], e[child] := e[child], e[current];
        assert e[..size] == h[current := h[child]][child := h[current]];
        current := child;
        steps := steps + 1;
        child := HasChild(current);
      }
      LevelsMonotone(current, size);
    }

    // minq_pop; popping an empty queue does nothing.
    method Pop() returns (ghost steps: nat)
      requires Valid()
      modifies this`size, e
      ensures Valid()
      ensures Contents() == if old(size) == 0 then [] else Popped(greater, old(Contents()))
      ensures steps <= Levels(old(size))
    {
      steps := 0;
      if size == 0 {
        return;
      }
      ghost var start := e[..size][0 := e[size - 1]][..size - 1];
      size := size - 1;
      e[0] := e[size];
      assert e[..size] == start;
      if size > 0 {
        steps := HeapifyDown();
        LevelsMonotone(size, size + 1);
      }
    }

    // minq_peek; None stands for NULL.
    method Peek() returns (r: Option<T>)
      requires Valid()
      ensures r == if size == 0 then None else Some(Contents()[0])
    {
      if size == 0 {
        return None;
      }
      return Some(e[0]);
    }
  }
}
