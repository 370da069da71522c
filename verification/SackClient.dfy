// The receiver of tools/groupe_20/SRTPClient.py: it keeps out-of-order packets
// in a list, writes them in batches and answers with SACKs.
module SackClient {
  import opened SeqNums
  import opened Packets

  const WINDOW_LEN: nat := MAX_WINDOW

  datatype Client = Client(
    expected: nat,          // next_seqnum
    window: seq<Data>,      // received, not yet written
    lastAck: Ack,           // last_valid_ack_segment
    output: seq<Chunk>,     // what was written to the file
    done: bool)             // the end-of-file packet was written

  function NewClient(): Client {
    Client(0, [], Ack(0, WINDOW_LEN, {}), [], false)
  }

  // Position of the first packet numbered num, or |ds| if there is none.
  function IndexOf(ds: seq<Data>, num: nat): (i: nat)
    ensures i <= |ds|
    ensures i < |ds| ==> ds[i].num == num
    ensures forall j | 0 <= j < i :: ds[j].num != num
  {
    if ds == [] || ds[0].num == num then 0 else 1 + IndexOf(ds[1..], num)
  }

  lemma {:induction false} IndexedIffHeld(ds: seq<Data>, num: nat)
    ensures IndexOf(ds, num) < |ds| <==> num in Nums(ds)
  {
    var i := IndexOf(ds, num);
    if i < |ds| {
      assert ds[i] in ds;
    }
  }

  predicate InWindow(ar: Arith, c: Client, num: nat) {
    0 <= Dist(ar, num, c.expected) < WINDOW_LEN
  }

  // One packet from the socket: outside the window the last acknowledgement is
  // sent again, inside it the packet is kept unless it is a duplicate.
  function OnData(ar: Arith, c: Client, d: Data): (Client, seq<Ack>) {
    if !InWindow(ar, c, d.num) then (c, [c.lastAck])
    else if IndexOf(c.window, d.num) == |c.window| then (c.(window := c.window + [d]), [])
    else (c, [])
  }

  function Without(ds: seq<Data>, i: nat): seq<Data>
    requires i < |ds|
  {
    ds[..i] + ds[i + 1..]
  }

  // Write the packet that is next in order; an empty one ends the file.
  function WriteOne(ar: Arith, c: Client): (r: Client)
    requires IndexOf(c.window, c.expected) < |c.window|
    ensures |r.window| < |c.window|
  {
    var i := IndexOf(c.window, c.expected);
    var c1 := c.(window := Without(c.window, i), expected := Add(ar, c.expected, 1));
    if c.window[i].payload == [] then c1.(done := true)
    else c1.(output := c1.output + [c.window[i].payload])
  }

  // Write the packets that are in order, up to the end-of-file packet.
  function Flush(ar: Arith, c: Client): Client
    decreases |c.window|
  {
    if c.done || IndexOf(c.window, c.expected) == |c.window| then c
    else Flush(ar, WriteOne(ar, c))
  }

  function MakeAck(c: Client): Ack {
    Ack(c.expected, WINDOW_LEN - |c.window|, Nums(c.window))
  }

  // A pass over the window: silent when it is empty, otherwise write what is in
  // order and, unless the file ended, acknowledge.
  function ProcessWindow(ar: Arith, c: Client): (Client, seq<Ack>) {
    if c.window == [] then (c, [])
    else
      var c1 := Flush(ar, c);
      if c1.done then (c1, [])
      else (c1.(lastAck := MakeAck(c1)), [MakeAck(c1)])
  }

  // --- what the receiver maintains ---------------------------------------

  // Everything numbered k has been written or is waiting in the window.
  ghost predicate Holds(c: Client, k: nat) {
    k < c.expected || k in Nums(c.window)
  }

  // A packet of this transfer: a chunk of the file, or the end marker.
  predicate Genuine(file: seq<Chunk>, d: Data) {
    d.num <= |file| && d.payload == if d.num < |file| then file[d.num] else []
  }

  predicate NoEmptyChunk(file: seq<Chunk>) {
    forall i | 0 <= i < |file| :: file[i] != []
  }

  ghost predicate WindowOk(file: seq<Chunk>, c: Client) {
    && Distinct(c.window)
    && (forall d | d in c.window :: c.expected <= d.num < c.expected + WINDOW_LEN && Genuine(file, d))
  }

  // Until the end marker is written: the output is exactly the first chunks.
  ghost predicate ClientOk(file: seq<Chunk>, c: Client) {
    && c.expected <= |file|
    && c.output == file[..c.expected]
    && WindowOk(file, c)
  }

  lemma WithoutNums(ds: seq<Data>, i: nat)
    requires i < |ds| && Distinct(ds)
    ensures Distinct(Without(ds, i))
    ensures Nums(Without(ds, i)) == Nums(ds) - {ds[i].num}
    ensures forall p | p in Without(ds, i) :: p in ds && p.num != ds[i].num
  {
    var rest := Without(ds, i);
    forall j | 0 <= j < |rest| ensures rest[j] in ds && rest[j].num != ds[i].num {
      assert rest[j] == ds[if j < i then j else j + 1];
    }
    forall k | k in Nums(ds) && k != ds[i].num ensures k in Nums(rest) {
      var j :| 0 <= j < |ds| && ds[j].num == k;
      assert ds[j] == rest[if j < i then j else j - 1];
    }
  }

  // What writing packets guarantees, from the state before to the state after.
  ghost predicate WrittenFrom(file: seq<Chunk>, c: Client, f: Client) {
    && f.lastAck == c.lastAck
    && Nums(f.window) <= Nums(c.window)
    && (f.expected == c.expected || (f.expected > c.expected && f.expected - 1 in Nums(c.window)))
    && (f.done ==> f.output == file && f.expected == |file| + 1)
    && (!f.done ==> ClientOk(file, f) && forall k :: Holds(f, k) <==> Holds(c, k))
  }

  lemma WriteOneKeeps(file: seq<Chunk>, c: Client)
    requires NoEmptyChunk(file) && ClientOk(file, c) && !c.done
    requires IndexOf(c.window, c.expected) < |c.window|
    ensures WrittenFrom(file, c, WriteOne(Unbounded, c))
  {
    var i := IndexOf(c.window, c.expected);
    assert c.window[i] in c.window;
    WithoutNums(c.window, i);
    if c.expected < |file| {
      assert file[..c.expected + 1] == file[..c.expected] + [file[c.expected]];
    }
  }

  lemma WrittenTwice(file: seq<Chunk>, c: Client, m: Client, f: Client)
    requires WrittenFrom(file, c, m) && !m.done && WrittenFrom(file, m, f)
    ensures WrittenFrom(file, c, f)
  {
    if f.expected != c.expected && f.expected == m.expected {
      assert f.expected - 1 in Nums(c.window);
    }
  }

  lemma {:induction false} FlushKeeps(file: seq<Chunk>, c: Client)
    requires NoEmptyChunk(file) && ClientOk(file, c) && !c.done
    ensures WrittenFrom(file, c, Flush(Unbounded, c))
    ensures !Flush(Unbounded, c).done ==> Flush(Unbounded, c).expected !in Nums(Flush(Unbounded, c).window)
    decreases |c.window|
  {
    if IndexOf(c.window, c.expected) == |c.window| {
      assert c.expected !in Nums(c.window);
    } else {
      var c1 := WriteOne(Unbounded, c);
      WriteOneKeeps(file, c);
      if !c1.done {
        FlushKeeps(file, c1);
        WrittenTwice(file, c, c1, Flush(Unbounded, c1));
      }
    }
  }

  // --- what the receiver does to a packet and to its window -----------------------

  // One packet from the socket: outside [expected, expected + 63) the last
  // acknowledgement goes out again; inside, a packet whose number is not there yet
  // is put at the end of the window.
  ghost predicate Received(c: Client, d: Data, t: Client, sent: seq<Ack>) {
    if (d.num - c.expected) % 2048 >= 63 then t == c && sent == [c.lastAck]
    else if exists x :: x in c.window && x.num == d.num then t == c && sent == []
    else t == c.(window := c.window + [d]) && sent == []
  }

  lemma OnDataOutcome(c: Client, d: Data)
    ensures Received(c, d, OnData(Wrapping, c, d).0, OnData(Wrapping, c, d).1)
  {
    IndexedIffHeld(c.window, d.num);
    assert InWindow(Wrapping, c, d.num) <==> (d.num - c.expected) % 2048 < 63;
    assert d.num in Nums(c.window) <==> exists x :: x in c.window && x.num == d.num;
  }

  function Payloads(ds: seq<Data>): (r: seq<Chunk>)
    ensures |r| == |ds| && forall i | 0 <= i < |ds| :: r[i] == ds[i].payload
  {
    seq(|ds|, i requires 0 <= i < |ds| => ds[i].payload)
  }

  // The packets written leave the window, one number after the other from the
  // expected one ...
  ghost predicate WroteInOrder(c: Client, written: seq<Data>, t: Client) {
    && multiset(t.window) + multiset(written) == multiset(c.window)
    && (forall j | 0 <= j < |written| :: written[j].num == (c.expected + j) % 2048)
    && (if written == [] then t == c else t.expected == (c.expected + |written|) % 2048)
  }

  ghost predicate NoneEmpty(ds: seq<Data>) {
    forall d | d in ds :: d.payload != []
  }

  // ... and only the last may be empty, which ends the file and is not written.
  ghost predicate WrotePayloads(c: Client, written: seq<Data>, t: Client) {
    && t.lastAck == c.lastAck
    && (t.done ==> written != [] && written[|written| - 1].payload == [])
    && var chunks := if t.done then written[..|written| - 1] else written;
       NoneEmpty(chunks) && t.output == c.output + Payloads(chunks)
  }

  ghost predicate Wrote(c: Client, written: seq<Data>, t: Client) {
    && WroteInOrder(c, written, t) && WrotePayloads(c, written, t)
    && (!t.done ==> forall d | d in t.window :: d.num != t.expected)
  }

  lemma WriteNothing(c: Client)
    requires !c.done && IndexOf(c.window, c.expected) == |c.window|
    ensures Flush(Wrapping, c) == c && Wrote(c, [], c)
  {
    assert c.output + [] == c.output;
  }

  lemma WithoutOne(ds: seq<Data>, i: nat)
    requires i < |ds|
    ensures multiset(Without(ds, i)) + multiset{ds[i]} == multiset(ds)
  {
    assert ds == ds[..i] + [ds[i]] + ds[i + 1..];
  }

  lemma WriteLast(c: Client)
    requires !c.done && IndexOf(c.window, c.expected) < |c.window| && c.expected < 2048
    ensures var d, m := c.window[IndexOf(c.window, c.expected)], WriteOne(Wrapping, c);
            d.payload == [] ==> Flush(Wrapping, c) == m && Wrote(c, [d], m)
  {
    var i := IndexOf(c.window, c.expected);
    WithoutOne(c.window, i);
    assert Payloads([c.window[i]][..0]) == [];
    assert c.output + [] == c.output;
  }

  // One packet more at the front.
  lemma NumbersMore(expected: nat, d: Data, rest: seq<Data>)
    requires d.num == expected < 2048
    requires forall j | 0 <= j < |rest| :: rest[j].num == ((expected + 1) % 2048 + j) % 2048
    ensures forall j | 0 <= j < |[d] + rest| :: ([d] + rest)[j].num == (expected + j) % 2048
  {
    var written := [d] + rest;
    forall j | 0 <= j < |written| ensures written[j].num == (expected + j) % 2048 {
      if j > 0 {
        NextPlace(expected, j);
        assert written[j] == rest[j - 1];
      }
    }
  }

  lemma InOrderMore(c: Client, d: Data, m: Client, rest: seq<Data>, t: Client)
    requires c.expected < 2048 && d.num == c.expected && multiset(m.window) + multiset{d} == multiset(c.window)
    requires m.expected == (c.expected + 1) % 2048 && WroteInOrder(m, rest, t)
    ensures WroteInOrder(c, [d] + rest, t)
  {
    NumbersMore(c.expected, d, rest);
    NextPlace(c.expected, |rest| + 1);
    assert multiset([d] + rest) == multiset{d} + multiset(rest);
  }

  lemma PayloadsMore(output: seq<Chunk>, d: Data, rest: seq<Data>)
    ensures output + Payloads([d] + rest) == output + [d.payload] + Payloads(rest)
    ensures d.payload != [] && NoneEmpty(rest) ==> NoneEmpty([d] + rest)
  {
    assert Payloads([d] + rest) == [d.payload] + Payloads(rest);
  }

  lemma WrotePayloadsMore(c: Client, d: Data, m: Client, rest: seq<Data>, t: Client)
    requires d.payload != [] && m.lastAck == c.lastAck && m.output == c.output + [d.payload]
    requires WrotePayloads(m, rest, t)
    ensures WrotePayloads(c, [d] + rest, t)
  {
    hide Payloads, NoneEmpty;
    var chunks := if t.done then rest[..|rest| - 1] else rest;
    PayloadsMore(c.output, d, chunks);
    assert t.done ==> ([d] + rest)[..|rest|] == [d] + chunks;
  }

  lemma WroteMore(c: Client, d: Data, m: Client, rest: seq<Data>, t: Client)
    requires c.expected < 2048 && d.num == c.expected && d.payload != []
    requires multiset(m.window) + multiset{d} == multiset(c.window) && m.lastAck == c.lastAck
    requires m.expected == (c.expected + 1) % 2048 && m.output == c.output + [d.payload]
    requires Wrote(m, rest, t)
    ensures Wrote(c, [d] + rest, t)
  {
    hide WroteInOrder, WrotePayloads;
    InOrderMore(c, d, m, rest, t);
    WrotePayloadsMore(c, d, m, rest, t);
  }

  lemma {:induction false} FlushOutcome(c: Client) returns (written: seq<Data>)
    requires !c.done && c.expected < 2048
    ensures Wrote(c, written, Flush(Wrapping, c))
    decreases |c.window|
  {
    hide Wrote, Without;
    var i := IndexOf(c.window, c.expected);
    if i == |c.window| {
      WriteNothing(c);
      written := [];
    } else {
      var d, m := c.window[i], WriteOne(Wrapping, c);
      WithoutOne(c.window, i);
      if d.payload == [] {
        WriteLast(c);
        written := [d];
      } else {
        var rest := FlushOutcome(m);
        WroteMore(c, d, m, rest, Flush(Wrapping, m));
        written := [d] + rest;
      }
    }
  }

  // A pass over a window that is not empty: what is in order is written; then,
  // unless the file ended, an acknowledgement asks for the next number, names what
  // is still in the window and advertises the room left of 63.
  ghost predicate Processed(c: Client, written: seq<Data>, t: Client, sent: seq<Ack>) {
    if c.window == [] then t == c && sent == [] && written == []
    else
      var u := t.(lastAck := c.lastAck);
      && Wrote(c, written, u)
      && if t.done then t == u && sent == []
         else
           && sent == [t.lastAck] && t.lastAck.num == t.expected && t.lastAck.window == 63 - |t.window|
           && forall k :: k in t.lastAck.sacks <==> exists d :: d in t.window && d.num == k
  }

  lemma ProcessOutcome(c: Client) returns (written: seq<Data>)
    requires !c.done && c.expected < 2048
    ensures Processed(c, written, ProcessWindow(Wrapping, c).0, ProcessWindow(Wrapping, c).1)
  {
    hide Wrote, Flush;
    written := [];
    if c.window != [] {
      written := FlushOutcome(c);
      var f := Flush(Wrapping, c);
      AckKept(c, written, f);
      assert f.(lastAck := MakeAck(f)).(lastAck := c.lastAck) == f;
    }
  }

  lemma AckKept(c: Client, written: seq<Data>, t: Client)
    requires Wrote(c, written, t)
    ensures t.lastAck == c.lastAck
  {
  }

  // --- wrapping -----------------------------------------------------------

  function WrapClient(c: Client): Client {
    Client(c.expected % MODULUS, WrapDatas(c.window), WrapAck(c.lastAck), c.output, c.done)
  }

  lemma {:induction false} IndexOfWraps(ds: seq<Data>, num: nat)
    requires forall d | d in ds :: d.num - num < MODULUS && num - d.num < MODULUS
    ensures IndexOf(WrapDatas(ds), num % MODULUS) == IndexOf(ds, num)
  {
    if ds != [] {
      assert ds[0] in ds;
      SameResidue(ds[0].num, num);
      assert WrapDatas(ds)[1..] == WrapDatas(ds[1..]);
      IndexOfWraps(ds[1..], num);
    }
  }

  lemma WriteOneWraps(file: seq<Chunk>, c: Client)
    requires NoEmptyChunk(file) && ClientOk(file, c)
    requires IndexOf(c.window, c.expected) < |c.window|
    ensures IndexOf(WrapDatas(c.window), c.expected % MODULUS) == IndexOf(c.window, c.expected)
    ensures WriteOne(Wrapping, WrapClient(c)) == WrapClient(WriteOne(Unbounded, c))
  {
    IndexOfWraps(c.window, c.expected);
    AddWraps(c.expected, 1);
    var i := IndexOf(c.window, c.expected);
    assert Without(WrapDatas(c.window), i) == WrapDatas(Without(c.window, i));
  }

  lemma {:induction false} FlushWraps(file: seq<Chunk>, c: Client)
    requires NoEmptyChunk(file) && ClientOk(file, c) && !c.done
    ensures Flush(Wrapping, WrapClient(c)) == WrapClient(Flush(Unbounded, c))
    decreases |c.window|
  {
    IndexOfWraps(c.window, c.expected);
    if IndexOf(c.window, c.expected) < |c.window| {
      WriteOneKeeps(file, c);
      WriteOneWraps(file, c);
      var c1 := WriteOne(Unbounded, c);
      if !c1.done {
        FlushWraps(file, c1);
      }
    }
  }

  // A packet not more than 1985 behind is judged alike.
  lemma OnDataWraps(file: seq<Chunk>, c: Client, d: Data)
    requires ClientOk(file, c)
    requires d.num < c.expected + MODULUS && c.expected <= d.num + (MODULUS - WINDOW_LEN)
    ensures OnData(Wrapping, WrapClient(c), WrapData(d)).0 == WrapClient(OnData(Unbounded, c, d).0)
    ensures OnData(Wrapping, WrapClient(c), WrapData(d)).1 == WrapAcks(OnData(Unbounded, c, d).1)
  {
    DistWraps(d.num, c.expected);
    if InWindow(Unbounded, c, d.num) {
      IndexOfWraps(c.window, d.num);
      assert WrapDatas(c.window + [d]) == WrapDatas(c.window) + [WrapData(d)];
    }
  }

  lemma ProcessWindowWraps(file: seq<Chunk>, c: Client)
    requires NoEmptyChunk(file) && ClientOk(file, c) && !c.done
    ensures ProcessWindow(Wrapping, WrapClient(c)).0 == WrapClient(ProcessWindow(Unbounded, c).0)
    ensures ProcessWindow(Wrapping, WrapClient(c)).1 == WrapAcks(ProcessWindow(Unbounded, c).1)
  {
    FlushWraps(file, c);
    NumsWrap(Flush(Unbounded, c).window);
  }
}
