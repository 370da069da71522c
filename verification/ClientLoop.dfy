// The receiver of tools/groupe_20/SRTPClient.py in memory: process_packet,
// process_window and client_ack, which put real ACK and SACK segments on the wire.
module ClientLoop {
  import opened SeqNums
  import opened Packets
  import opened SackClient
  import SackCodec
  import opened ServerSession
  import ServerLoop
  import SlidingWindow
  import Progress

  // The fields of an acknowledgement that the receiver chooses.
  datatype Segment = Segment(isSack: bool, window: int, num: nat, payload: seq<byte>)

  // What SRTPPacket.to_segment makes of an acknowledgement: an ACK when
  // nothing is held out of order, else a SACK naming what is.
  function Wire(a: Ack): Segment
    requires SackCodec.Encodable(a.sacks)
  {
    Segment(a.sacks != {}, a.window, a.num, SackCodec.EncodeSet(a.sacks).value)
  }

  class SrtpClient {
    var nextSeqnum: nat
    var window: seq<Data>
    var lastValidAckSegment: Segment
    var file: seq<Chunk>
    // What lastValidAckSegment says.
    ghost var lastAck: Ack

    ghost function Model(done: bool): Client
      reads this
    {
      Client(nextSeqnum, window, lastAck, file, done)
    }

    ghost predicate Valid()
      reads this
    {
      && nextSeqnum < MODULUS && Storable(window)
      && SackCodec.Encodable(lastAck.sacks) && lastValidAckSegment == Wire(lastAck)
    }

    constructor ()
      ensures Valid() && Model(false) == NewClient()
    {
      nextSeqnum, window, file := 0, [], [];
      lastAck := Ack(0, WINDOW_LEN, {});
      lastValidAckSegment := Segment(false, WINDOW_LEN, 0, []);
      new;
      NothingHeld();
    }

    // client_ack
    method ClientAck() returns (sent: Segment)
      requires Valid()
      modifies `lastValidAckSegment, `lastAck
      ensures lastAck == MakeAck(Model(false))
      ensures Valid() && sent == lastValidAckSegment && Says(sent, nextSeqnum, window)
    {
      hide SackCodec.EncodeSet, Says;
      AckSays(Model(false));
      var seqnums := Seqnums(window);
      SeqnumsEncodable(window);
      Encodes(Nums(window));
      var room := WINDOW_LEN - |window|;
      lastAck := MakeAck(Model(false));
      if |seqnums| == 0 {
        NothingHeld();
        sent := Segment(false, room, nextSeqnum, []);
      } else {
        assert seqnums[0] in SackCodec.ToSet(seqnums);
        var payload := SackCodec.EncodeSackPayload(seqnums);
        sent := Segment(true, room, nextSeqnum, payload.value);
      }
      lastValidAckSegment := sent;
    }

    // process_window: false when the end of the file was met.
    method ProcessWindow() returns (more: bool, sent: seq<Segment>, ghost written: seq<Data>)
      requires Valid()
      modifies this
      ensures Valid()
      ensures Model(!more) == SackClient.ProcessWindow(Wrapping, old(Model(false))).0
      ensures Wires(SackClient.ProcessWindow(Wrapping, old(Model(false))).1, sent)
      ensures Processed(old(Model(false)), written, Model(!more),
                        SackClient.ProcessWindow(Wrapping, old(Model(false))).1)
    {
      hide Processed, Flush, Nums, SackClient.ProcessWindow, Says, Wire, SackCodec.Encodable, Storable;
      ghost var c := Model(false);
      StillFits(this);
      written := ProcessOutcome(c);
      PassOverWindow(c);
      if |window| == 0 {
        return true, [], written;
      }
      more := WriteInOrder();
      if !more {
        return false, [], written;
      }
      var ack := ClientAck();
      sent := [ack];
    }

    // The loop of process_window.
    method WriteInOrder() returns (more: bool)
      requires Valid()
      modifies `nextSeqnum, `window, `file
      ensures Valid() && Model(!more) == Flush(Wrapping, old(Model(false)))
    {
      hide Without, SackCodec.Encodable, Wire;
      var i := IndexOf(window, nextSeqnum);
      while i < |window|
        invariant Valid() && i == IndexOf(window, nextSeqnum)
        invariant Flush(Wrapping, Model(false)) == Flush(Wrapping, old(Model(false)))
        decreases |window|
      {
        ghost var c := Model(false);
        var packet := window[i];
        RemovedStorable(window, i);
        window := Without(window, i);
        nextSeqnum := (nextSeqnum + 1) % MODULUS;
        if |packet.payload| == 0 {
          assert Model(true) == WriteOne(Wrapping, c);
          return false;
        }
        file := file + [packet.payload];
        assert Model(false) == WriteOne(Wrapping, c);
        i := IndexOf(window, nextSeqnum);
      }
      return true;
    }

    // process_packet for a DATA packet; the caller reads only while the window
    // is not full.
    method ProcessPacket(packet: Data) returns (added: bool, sent: seq<Segment>)
      requires Valid() && packet.num < MODULUS && |window| < WINDOW_LEN
      modifies `window
      ensures Valid()
      ensures Model(false) == OnData(Wrapping, old(Model(false)), packet).0
      ensures Wires(OnData(Wrapping, old(Model(false)), packet).1, sent)
      ensures Received(old(Model(false)), packet, Model(false), OnData(Wrapping, old(Model(false)), packet).1)
      ensures added <==> window != old(window)
    {
      hide SackCodec.Encodable, Wire, Received;
      OnDataOutcome(Model(false), packet);
      IndexedIffHeld(window, packet.num);
      var distance := (packet.num - nextSeqnum) % MODULUS;
      if !(0 <= distance < WINDOW_LEN) {
        return false, [lastValidAckSegment];
      }
      if IndexOf(window, packet.num) == |window| {
        NumsAppend(window, packet);
        window := window + [packet];
        return true, [];
      }
      return false, [];
    }
  }

  lemma StillFits(client: SrtpClient)
    requires client.Valid()
    ensures client.nextSeqnum < MODULUS
  {
  }

  // A pass over the window, case by case.
  lemma PassOverWindow(c: Client)
    ensures var f := Flush(Wrapping, c);
            SackClient.ProcessWindow(Wrapping, c)
            == if c.window == [] then (c, [])
               else if f.done then (f, [])
               else (f.(lastAck := MakeAck(f)), [MakeAck(f)])
  {
  }

  // The segment asks for next, advertises what is left of 63 places, is an ACK when the
  // window is empty and otherwise a SACK of the numbers in it.
  ghost predicate Says(sent: Segment, next: nat, window: seq<Data>) {
    && sent.num == next && sent.window == 63 - |window|
    && (sent.isSack <==> window != [])
    && (!sent.isSack ==> sent.payload == [])
    && (sent.isSack ==>
          && SackCodec.DecodeSet(sent.payload).Some?
          && forall k :: k in SackCodec.DecodeSet(sent.payload).value <==> exists d :: d in window && d.num == k)
  }

  lemma AckSays(c: Client)
    requires Storable(c.window)
    ensures SackCodec.Encodable(MakeAck(c).sacks) && Says(Wire(MakeAck(c)), c.expected, c.window)
  {
    hide SackCodec.EncodeSet, SackCodec.DecodeSet, SackCodec.Sorted;
    SeqnumsEncodable(c.window);
    SackCodec.SetRoundTrip(Nums(c.window));
    NothingHeld();
    if c.window != [] {
      assert c.window[0] in c.window;
      assert c.window[0].num in Nums(c.window);
    }
  }

  // What the list of kept packets always is: at most 63 different 11-bit numbers.
  ghost predicate Storable(ds: seq<Data>) {
    |ds| <= WINDOW_LEN && forall d | d in ds :: d.num < MODULUS
  }

  // The segments sent are those acknowledgements.
  ghost predicate Wires(acks: seq<Ack>, sent: seq<Segment>) {
    && |sent| == |acks|
    && forall i | 0 <= i < |acks| :: SackCodec.Encodable(acks[i].sacks) && sent[i] == Wire(acks[i])
  }

  function Seqnums(ds: seq<Data>): seq<nat> {
    seq(|ds|, i requires 0 <= i < |ds| => ds[i].num)
  }

  lemma NothingHeld()
    ensures SackCodec.Encodable({}) && SackCodec.EncodeSet({}) == Some([])
  {
  }

  lemma Encodes(sacks: set<nat>)
    ensures SackCodec.Encodable(sacks) <==> SackCodec.EncodeSet(sacks).Some?
  {
  }

  lemma RemovedStorable(ds: seq<Data>, i: nat)
    requires Storable(ds) && i < |ds|
    ensures Storable(Without(ds, i))
  {
  }

  lemma {:induction false} NumsAtMost(ds: seq<Data>)
    ensures |Nums(ds)| <= |ds|
  {
    if ds != [] {
      var init, last := ds[..|ds| - 1], ds[|ds| - 1];
      assert ds == init + [last];
      NumsAtMost(init);
      NumsAppend(init, last);
    }
  }

  lemma SeqnumsEncodable(ds: seq<Data>)
    requires Storable(ds)
    ensures SackCodec.ToSet(Seqnums(ds)) == Nums(ds) && SackCodec.Encodable(Nums(ds))
  {
    forall d | d in ds ensures d.num in SackCodec.ToSet(Seqnums(ds)) {
      var i :| 0 <= i < |ds| && ds[i] == d;
      assert Seqnums(ds)[i] == d.num;
    }
    NumsAtMost(ds);
  }

  // --- the wire and the system ----------------------------------------------------

  // The server, handling the bytes of an acknowledgement, does what the system
  // does on hearing the acknowledgement itself.
  lemma WireIsHeard(s: Server, a: Ack)
    requires SackCodec.Encodable(a.sacks)
    ensures
      var w := Wire(a);
      var shown := if w.isSack then SackCodec.ToSet(SackCodec.DecodeSack(w.payload)) else {};
      OnAck(Wrapping, s, w.num, w.window, shown) == OnAck(Wrapping, s, a.num, a.window, Shown(a.sacks))
  {
    hide SackCodec.DecodeSack, SackCodec.EncodeSet, OnAck;
    ServerLoop.ShownIsDecoded(a.sacks);
  }

  // In every run of the wrapping system every acknowledgement can be encoded:
  // at most 62 numbers, all of 11 bits.
  lemma AcksFitTheWire(bytes: seq<byte>, window: int, es: seq<SlidingWindow.Event>)
    requires window <= MAX_WINDOW
    requires SlidingWindow.Run(Wrapping, SlidingWindow.Init(Chunks(bytes), window), es).Some?
    ensures var w := SlidingWindow.Run(Wrapping, SlidingWindow.Init(Chunks(bytes), window), es).value;
            forall i | 0 <= i < |w.acks| ::
              && SackCodec.Encodable(w.acks[i].sacks)
              && w.acks[i].window + |w.acks[i].sacks| == MAX_WINDOW && w.acks[i].window >= 1
  {
    SlidingWindow.WrappingBehavesLikeUnbounded(bytes, window, es);
    var w := SlidingWindow.Run(Wrapping, SlidingWindow.Init(Chunks(bytes), window), es).value;
    var u := SlidingWindow.Run(Unbounded, SlidingWindow.Init(Chunks(bytes), window), es).value;
    hide SlidingWindow.Run;
    forall i | 0 <= i < |w.acks|
      ensures SackCodec.Encodable(w.acks[i].sacks)
           && w.acks[i].window + |w.acks[i].sacks| == MAX_WINDOW && w.acks[i].window >= 1
    {
      assert SlidingWindow.AckOk(u.server, u.acks[i]);
      Progress.AdvertisesRoom(u.server, u.acks[i]);
      WrapSetSize(u.acks[i].sacks, u.acks[i].num);
    }
  }
}
