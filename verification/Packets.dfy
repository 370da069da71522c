// What travels: DATA packets and acknowledgements, after decoding. An empty
// payload marks the end of the file.
module Packets {
  import opened SeqNums

  type byte = x: int | 0 <= x < 256
  // One read of the file: what a DATA packet carries.
  type Chunk = seq<byte>

  datatype Option<+T> = None | Some(value: T)

  datatype Data = Data(num: nat, payload: seq<byte>)

  // A cumulative ACK has no sacks; a SACK names numbers held out of order.
  datatype Ack = Ack(num: nat, window: int, sacks: set<nat>)

  function WrapData(d: Data): Data {
    d.(num := d.num % MODULUS)
  }

  function WrapAck(a: Ack): Ack {
    a.(num := a.num % MODULUS, sacks := WrapSet(a.sacks))
  }

  function WrapDatas(ds: seq<Data>): (r: seq<Data>)
    ensures |r| == |ds| && forall i | 0 <= i < |ds| :: r[i] == WrapData(ds[i])
  {
    seq(|ds|, i requires 0 <= i < |ds| => WrapData(ds[i]))
  }

  function WrapAcks(xs: seq<Ack>): (r: seq<Ack>)
    ensures |r| == |xs| && forall i | 0 <= i < |xs| :: r[i] == WrapAck(xs[i])
  {
    seq(|xs|, i requires 0 <= i < |xs| => WrapAck(xs[i]))
  }

  function Nums(ds: seq<Data>): set<nat> {
    set d | d in ds :: d.num
  }

  lemma NumsAppend(ds: seq<Data>, d: Data)
    ensures Nums(ds + [d]) == Nums(ds) + {d.num}
  {
    forall k | k in Nums(ds) ensures k in Nums(ds + [d]) {
      var x :| x in ds && x.num == k;
      assert x in ds + [d];
    }
    assert (ds + [d])[|ds|] == d;
  }

  // Distinct packets: as many numbers as packets.
  ghost predicate Distinct(ds: seq<Data>) {
    forall i, j | 0 <= i < j < |ds| :: ds[i].num != ds[j].num
  }

  lemma {:induction false} NumsSize(ds: seq<Data>)
    requires Distinct(ds)
    ensures |Nums(ds)| == |ds|
  {
    if ds != [] {
      var init := ds[..|ds| - 1];
      var last := ds[|ds| - 1];
      assert ds == init + [last];
      NumsSize(init);
      NumsAppend(init, last);
      assert last.num !in Nums(init);
    }
  }

  lemma NumsWrap(ds: seq<Data>)
    ensures Nums(WrapDatas(ds)) == WrapSet(Nums(ds))
  {
    var w := WrapDatas(ds);
    forall q | q in Nums(w) ensures q in WrapSet(Nums(ds)) {
      var i :| 0 <= i < |w| && w[i].num == q;
      assert ds[i].num in Nums(ds);
    }
    forall q | q in WrapSet(Nums(ds)) ensures q in Nums(w) {
      var d :| d in ds && d.num % MODULUS == q;
      var i :| 0 <= i < |ds| && ds[i] == d;
      assert w[i] in w && w[i].num == q;
    }
  }

  // A file is cut into the payloads that successive read(1024) calls return.
  const MAX_PAYLOAD: nat := 1024

  function Chunks(bytes: seq<byte>): (r: seq<Chunk>) {
    if bytes == [] then []
    else if |bytes| <= MAX_PAYLOAD then [bytes]
    else [bytes[..MAX_PAYLOAD]] + Chunks(bytes[MAX_PAYLOAD..])
  }

  function Concat(chunks: seq<Chunk>): seq<byte> {
    if chunks == [] then [] else chunks[0] + Concat(chunks[1..])
  }

  lemma {:induction false} ChunksOfFile(bytes: seq<byte>)
    ensures Concat(Chunks(bytes)) == bytes
    ensures forall c | c in Chunks(bytes) :: 0 < |c| <= MAX_PAYLOAD
  {
    if |bytes| > MAX_PAYLOAD {
      ChunksOfFile(bytes[MAX_PAYLOAD..]);
      assert bytes == bytes[..MAX_PAYLOAD] + bytes[MAX_PAYLOAD..];
    } else if bytes != [] {
      assert Chunks(bytes) == [bytes];
      assert Concat([bytes]) == bytes + Concat([]);
    }
  }

  // The reads: every chunk but the last has 1024 bytes, and they follow each other.
  lemma {:induction false} ChunksAreReads(bytes: seq<byte>)
    ensures |Chunks(bytes)| == (|bytes| + 1023) / 1024
    ensures forall i | 0 <= i < |Chunks(bytes)| ::
              Chunks(bytes)[i] == bytes[1024 * i..if 1024 * (i + 1) <= |bytes| then 1024 * (i + 1) else |bytes|]
  {
    if |bytes| > MAX_PAYLOAD {
      var rest := bytes[MAX_PAYLOAD..];
      ChunksAreReads(rest);
      forall i | 0 < i < |Chunks(bytes)|
        ensures Chunks(bytes)[i] == bytes[1024 * i..if 1024 * (i + 1) <= |bytes| then 1024 * (i + 1) else |bytes|]
      {
        assert Chunks(bytes)[i] == Chunks(rest)[i - 1];
      }
    }
  }

  lemma {:induction false} ConcatPrefix(a: seq<Chunk>, b: seq<Chunk>)
    requires a <= b
    ensures Concat(a) <= Concat(b)
  {
    if a != [] {
      ConcatPrefix(a[1..], b[1..]);
      assert Concat(b) == b[0] + Concat(b[1..]);
    }
  }
}
