// The segment codecs of src/protocol.py and of groups 20, 42 and 61:
// a 32-bit word of fields, a timestamp, a CRC of these eight bytes, and, when
// the payload is not empty, the payload and its own CRC.
module Segments {
  import opened Packets
  import opened Positional
  import opened Crc32

  const PTYPE_DATA: nat := 1
  const PTYPE_ACK: nat := 2
  const PTYPE_SACK: nat := 3
  const HEADER: nat := 12
  const WORD: nat := 0x1_0000_0000

  datatype Packet = Packet(ptype: nat, window: nat, seqnum: nat, timestamp: nat, payload: seq<byte>)

  // Four bytes, most significant first.
  function Pack(v: nat): (b: seq<byte>)
    ensures |b| == 4
  {
    Digits(256, v, 4)
  }

  function Unpack(b: seq<byte>): nat {
    Value(256, b)
  }

  // A slice that stops at the end of the segment when it would go beyond.
  function Slice(s: seq<byte>, lo: nat, hi: nat): seq<byte> {
    if lo >= |s| || hi <= lo then [] else if hi <= |s| then s[lo..hi] else s[lo..]
  }

  // The word of fields when each one fits its width: 2, 6, 13 and 11 bits.
  function Fields(ptype: nat, window: nat, length: nat, seqnum: nat): nat {
    ((ptype * 64 + window) * 8192 + length) * 2048 + seqnum
  }

  function Ptype(word: nat): nat { word / 0x4000_0000 % 4 }
  function Window(word: nat): nat { word / 0x100_0000 % 64 }
  function Length(word: nat): nat { word / 2048 % 8192 }
  function Seqnum(word: nat): nat { word % 2048 }

  // Header, payload and checksums of a segment.
  function Assemble(word: nat, timestamp: nat, payload: seq<byte>): seq<byte> {
    var head := Pack(word) + Pack(timestamp);
    head + Pack(Crc(head)) + (if payload == [] then [] else payload + Pack(Crc(payload)))
  }

  // --- src/protocol.py ------------------------------------------------------

  // header_byte_3: each field shifted in and ored.
  function SrcHeader(ptype: nat, window: nat, length: nat, seqnum: nat): nat {
    BitOr(BitOr(BitOr(ptype * 64, window) * 8192, length) * 2048, seqnum)
  }

  // empackage; None when a field does not fit and struct.pack refuses.
  function Empackage(ptype: nat, window: nat, seqnum: nat, timestamp: nat, payload: seq<byte>): Option<seq<byte>> {
    if |payload| > MAX_PAYLOAD then None
    else
      var word := SrcHeader(ptype, window, |payload|, seqnum % 2048);
      if word >= WORD || timestamp >= WORD then None
      else Some(Assemble(word, timestamp, payload))
  }

  // depackage returns nothing, raises struct.error on a truncated CRC, or
  // returns the fields.
  datatype Parsed = Rejected | Raised | Accepted(packet: Packet)

  function Depackage(s: seq<byte>): Parsed {
    if |s| < HEADER then Rejected
    else
      var word := Unpack(s[..4]);
      var length := Length(word);
      if Crc(s[..8]) != Unpack(s[8..12]) then Rejected
      else if length == 0 then
        Accepted(Packet(Ptype(word), Window(word), Seqnum(word), Unpack(s[4..8]), []))
      else
        var payload := Slice(s, 12, 12 + length);
        var crc := Slice(s, 12 + length, 16 + length);
        if |crc| != 4 then Raised
        else if Unpack(crc) != Crc(payload) then Rejected
        else Accepted(Packet(Ptype(word), Window(word), Seqnum(word), Unpack(s[4..8]), payload))
  }

  // --- tools/groupe_20/SRTPPacket.py ----------------------------------------

  // What the constructor accepts.
  predicate Valid20(p: Packet) {
    && p.ptype <= 3 && p.window <= 63 && p.seqnum <= 2047 && p.timestamp < WORD
    && |p.payload| <= MAX_PAYLOAD
    && (p.ptype == PTYPE_ACK ==> p.payload == [])
    && (p.ptype == PTYPE_SACK ==> |p.payload| % 4 == 0)
  }

  // Each field shifted to its place in the word, then all of them ored.
  function HeaderWord(ptype: nat, window: nat, length: nat, seqnum: nat): nat {
    BitOr(BitOr(BitOr(ptype * 0x4000_0000, window * 0x100_0000), length * 2048), seqnum)
  }

  function ToSegment20(p: Packet): seq<byte> {
    Assemble(HeaderWord(p.ptype, p.window, |p.payload|, p.seqnum), p.timestamp, p.payload)
  }

  // from_segment; None stands for the ValueError.
  function FromSegment20(s: seq<byte>): Option<Packet> {
    if |s| < HEADER then None
    else
      var word := Unpack(s[..4]);
      var length := Length(word);
      if Ptype(word) == 0 || length > MAX_PAYLOAD then None
      else if Ptype(word) == PTYPE_ACK && length != 0 then None
      else if Ptype(word) == PTYPE_SACK && length % 4 != 0 then None
      else if Crc(s[..8]) != Unpack(s[8..12]) then None
      else if length == 0 then
        if |s| != HEADER then None
        else Some(Packet(Ptype(word), Window(word), Seqnum(word), Unpack(s[4..8]), []))
      else if |s| != 16 + length then None
      else if Crc(s[12..12 + length]) != Unpack(s[12 + length..16 + length]) then None
      else Some(Packet(Ptype(word), Window(word), Seqnum(word), Unpack(s[4..8]), s[12..12 + length]))
  }

  // --- tools/groupe_42/SRTP.py ----------------------------------------------

  predicate KnownType(ptype: nat) {
    ptype == PTYPE_DATA || ptype == PTYPE_ACK || ptype == PTYPE_SACK
  }

  // Each field masked to its width first.
  function MaskedWord(ptype: nat, window: nat, length: nat, seqnum: nat): nat {
    HeaderWord(ptype % 4, window % 64, length % 8192, seqnum % 2048)
  }

  // encode with fill_header: a number above 2047 is sent as 0. None stands for
  // the ValueError and for the struct.error on a timestamp of more than 32 bits.
  function Encode42(p: Packet): Option<seq<byte>> {
    if |p.payload| > MAX_PAYLOAD || !KnownType(p.ptype) || p.window > 63 || p.timestamp >= WORD then None
    else
      var seqnum := if p.seqnum > 2047 then 0 else p.seqnum;
      Some(Assemble(MaskedWord(p.ptype, p.window, |p.payload|, seqnum), p.timestamp, p.payload))
  }

  function Decode42(s: seq<byte>): Option<Packet> {
    if |s| < HEADER then None
    else
      var word := Unpack(s[..4]);
      var length := Length(word);
      if Crc(s[..8]) != Unpack(s[8..12]) then None
      else if Ptype(word) == 0 || length > MAX_PAYLOAD then None
      else if length == 0 then
        if |s| != HEADER then None
        else Some(Packet(Ptype(word), Window(word), Seqnum(word), Unpack(s[4..8]), []))
      else if |s| < 16 + length then None
      else if Crc(s[12..12 + length]) != Unpack(s[12 + length..16 + length]) then None
      else Some(Packet(Ptype(word), Window(word), Seqnum(word), Unpack(s[4..8]), s[12..12 + length]))
  }

  // --- tools/groupe_61/code_pack.py -----------------------------------------

  function Encode61(p: Packet): Option<seq<byte>> {
    if !KnownType(p.ptype) || p.seqnum > 2047 || p.window > 63 || |p.payload| > MAX_PAYLOAD || p.timestamp >= WORD
    then None
    else Some(Assemble(HeaderWord(p.ptype, p.window, |p.payload|, p.seqnum), p.timestamp, p.payload))
  }

  function Decode61(s: seq<byte>): Option<Packet> {
    if |s| < HEADER then None
    else
      var word := Unpack(s[..4]);
      var length := Length(word);
      if Crc(s[..8]) != Unpack(s[8..12]) then None
      else if Ptype(word) == 0 then None
      else if length > MAX_PAYLOAD then None
      else if length == 0 then
        Some(Packet(Ptype(word), Window(word), Seqnum(word), Unpack(s[4..8]), []))
      else if |s| < 16 + length then None
      else if Crc(s[12..12 + length]) != Unpack(s[12 + length..16 + length]) then None
      else Some(Packet(Ptype(word), Window(word), Seqnum(word), Unpack(s[4..8]), s[12..12 + length]))
  }

  // --- fields and bytes -------------------------------------------------------

  lemma SeqnumRead(upper: nat, seqnum: nat)
    requires seqnum < 2048
    ensures Seqnum(upper * 2048 + seqnum) == seqnum
    ensures (upper * 2048 + seqnum) / 2048 == upper
  {
    DivMod(upper, 2048, seqnum);
  }

  lemma LengthRead(word: nat, top: nat, length: nat)
    requires length < 8192 && word / 2048 == top * 8192 + length
    ensures Length(word) == length && word / 0x100_0000 == top
  {
    DivMod(top, 8192, length);
    DivDiv(word, 2048, 8192);
  }

  lemma TopRead(word: nat, ptype: nat, window: nat)
    requires ptype < 4 && window < 64 && word / 0x100_0000 == ptype * 64 + window
    ensures Window(word) == window && Ptype(word) == ptype
  {
    DivMod(ptype, 64, window);
    DivDiv(word, 0x100_0000, 64);
  }

  lemma FieldsRead(ptype: nat, window: nat, length: nat, seqnum: nat)
    requires ptype < 4 && window < 64 && length < 8192 && seqnum < 2048
    ensures var w := Fields(ptype, window, length, seqnum);
            w < WORD && Ptype(w) == ptype && Window(w) == window && Length(w) == length && Seqnum(w) == seqnum
  {
    hide Ptype, Window, Length, Seqnum;
    var top := ptype * 64 + window;
    var upper := top * 8192 + length;
    SeqnumRead(upper, seqnum);
    LengthRead(upper * 2048 + seqnum, top, length);
    TopRead(upper * 2048 + seqnum, ptype, window);
  }

  lemma FieldsWritten(word: nat)
    requires word < WORD
    ensures Fields(Ptype(word), Window(word), Length(word), Seqnum(word)) == word
  {
    var upper := word / 2048;
    var top := upper / 8192;
    QuotientAndRest(word, 2048);
    QuotientAndRest(upper, 8192);
    QuotientAndRest(top, 64);
    DivDiv(word, 2048, 8192);
    DivDiv(word, 0x100_0000, 64);
    SmallMod(top / 64, 4);
  }

  lemma FourBytesHoldAWord()
    ensures Pow(256, 4) == WORD
  {
    assert Pow(256, 2) == 65536;
    PowAdd(256, 2, 2);
  }

  lemma UnpackPack(v: nat)
    requires v < WORD
    ensures Unpack(Pack(v)) == v
  {
    FourBytesHoldAWord();
    ValueOfAllDigits(256, v, 4);
  }

  lemma PackUnpack(b: seq<byte>)
    requires |b| == 4
    ensures Unpack(b) < WORD && Pack(Unpack(b)) == b
  {
    FourBytesHoldAWord();
    ValueBound(256, b);
    DigitsOfValue(256, b);
  }

  // s consists of this word, timestamp and payload with matching CRCs.
  ghost predicate Carries(s: seq<byte>, word: nat, timestamp: nat, payload: seq<byte>) {
    && |s| == HEADER + (if payload == [] then 0 else |payload| + 4)
    && Unpack(s[..4]) == word && Unpack(s[4..8]) == timestamp
    && Unpack(s[8..12]) == Crc(s[..8])
    && (payload != [] ==> s[12..12 + |payload|] == payload
                          && Unpack(s[12 + |payload|..16 + |payload|]) == Crc(payload))
  }

  lemma AssembleCarries(word: nat, timestamp: nat, payload: seq<byte>)
    requires word < WORD && timestamp < WORD
    ensures Carries(Assemble(word, timestamp, payload), word, timestamp, payload)
  {
    hide Pack, Unpack, Crc;
    var s := Assemble(word, timestamp, payload);
    UnpackPack(word);
    UnpackPack(timestamp);
    assert s[..4] == Pack(word);
    assert s[4..8] == Pack(timestamp);
    assert s[..8] == Pack(word) + Pack(timestamp);
    UnpackPack(Crc(s[..8]));
    assert s[8..12] == Pack(Crc(s[..8]));
    if payload != [] {
      UnpackPack(Crc(payload));
      assert s[12..12 + |payload|] == payload;
      assert s[12 + |payload|..16 + |payload|] == Pack(Crc(payload));
    }
  }

  lemma Reassemble(s: seq<byte>, word: nat, timestamp: nat, payload: seq<byte>)
    requires |s| == HEADER + (if payload == [] then 0 else |payload| + 4)
    requires Pack(word) == s[..4] && Pack(timestamp) == s[4..8] && Pack(Crc(s[..8])) == s[8..12]
    requires payload != [] ==> s[12..12 + |payload|] == payload
                               && Pack(Crc(payload)) == s[12 + |payload|..16 + |payload|]
    ensures Assemble(word, timestamp, payload) == s
  {
    hide Pack, Crc;
    assert s[..4] + s[4..8] == s[..8];
    assert s[..8] + s[8..12] == s[..12];
    if payload == [] {
      assert s == s[..12] + [];
    } else {
      assert s == s[..12] + (s[12..12 + |payload|] + s[12 + |payload|..16 + |payload|]);
    }
  }

  // A segment is determined by what it carries.
  lemma CarriesIsAssemble(s: seq<byte>, word: nat, timestamp: nat, payload: seq<byte>)
    requires Carries(s, word, timestamp, payload)
    ensures word < WORD && timestamp < WORD && Assemble(word, timestamp, payload) == s
  {
    hide Pack, Unpack, Crc, Assemble;
    PackUnpack(s[..4]);
    PackUnpack(s[4..8]);
    PackUnpack(s[8..12]);
    if payload != [] {
      PackUnpack(s[12 + |payload|..16 + |payload|]);
    }
    Reassemble(s, word, timestamp, payload);
  }

  lemma UnpackDiffers(bytes: seq<byte>, at: nat, b: byte)
    requires |bytes| == 4 && at < 4 && bytes[at] != b
    ensures Unpack(bytes[at := b]) != Unpack(bytes)
  {
    hide Pack, Unpack;
    PackUnpack(bytes);
    PackUnpack(bytes[at := b]);
    assert bytes[at := b][at] == b;
  }

  // --- round trips --------------------------------------------------------------

  // empackage combines fields with shifts and ors; only window can overlap
  // another field, and only when it does not fit its six bits.
  lemma OrFields(ptype: nat, window: nat, length: nat, seqnum: nat)
    requires length < 8192 && seqnum < 2048
    ensures var word := SrcHeader(ptype, window, length, seqnum);
            && word == (BitOr(ptype * 64, window) * 8192 + length) * 2048 + seqnum
            && Length(word) == length && Seqnum(word) == seqnum
            && (window < 64 ==> word == Fields(ptype, window, length, seqnum))
  {
    hide BitOr, Pow;
    var top := BitOr(ptype * 64, window);
    PowersUsed();
    OrIsSum(top, length, 13);
    OrIsSum(top * 8192 + length, seqnum, 11);
    if window < 64 {
      OrIsSum(ptype, window, 6);
    }
    LowFields(top, length, seqnum);
  }

  // Shifting each field to its place first gives the same word.
  lemma HeaderWordIsFields(ptype: nat, window: nat, length: nat, seqnum: nat)
    requires ptype < 4 && window < 64 && length < 8192 && seqnum < 2048
    ensures HeaderWord(ptype, window, length, seqnum) == Fields(ptype, window, length, seqnum)
  {
    hide BitOr, Pow;
    PowersUsed();
    OrIsSum(ptype, window * 0x100_0000, 30);
    OrIsSum(ptype * 64 + window, length * 2048, 24);
    OrIsSum((ptype * 64 + window) * 8192 + length, seqnum, 11);
  }

  lemma LowFields(top: nat, length: nat, seqnum: nat)
    requires length < 8192 && seqnum < 2048
    ensures var word := (top * 8192 + length) * 2048 + seqnum;
            Length(word) == length && Seqnum(word) == seqnum && word / 0x100_0000 == top
  {
    hide Length, Seqnum;
    var upper := top * 8192 + length;
    SeqnumRead(upper, seqnum);
    LengthRead(upper * 2048 + seqnum, top, length);
  }

  lemma PowersUsed()
    ensures Pow(2, 6) == 64 && Pow(2, 11) == 2048 && Pow(2, 13) == 8192
    ensures Pow(2, 24) == 0x100_0000 && Pow(2, 30) == 0x4000_0000
  {
    assert Pow(2, 5) == 32 && Pow(2, 6) == 64 && Pow(2, 7) == 128;
    PowAdd(2, 6, 5);
    PowAdd(2, 6, 7);
    PowAdd(2, 11, 13);
    PowAdd(2, 24, 6);
  }

  lemma DepackageReads(s: seq<byte>, word: nat, timestamp: nat, payload: seq<byte>)
    requires Carries(s, word, timestamp, payload) && Length(word) == |payload|
    ensures Depackage(s) == Accepted(Packet(Ptype(word), Window(word), Seqnum(word), timestamp, payload))
  {
    hide Unpack, Crc, Ptype, Window, Length, Seqnum;
    if payload != [] {
      assert Slice(s, 12, 12 + |payload|) == payload;
      assert Slice(s, 12 + |payload|, 16 + |payload|) == s[12 + |payload|..16 + |payload|];
    }
  }

  // The upper byte of the header word: type and window ored together.
  lemma TopByte(word: nat, top: nat)
    requires word / 0x100_0000 == top
    ensures word < WORD <==> top < 256
    ensures top < 256 ==> Ptype(word) == top / 64 && Window(word) == top % 64
  {
    DivDiv(word, 0x100_0000, 64);
  }

  // The word empackage builds, whatever the window.
  lemma SrcWord(ptype: nat, window: nat, length: nat, seqnum: nat)
    requires length < 8192 && seqnum < 2048
    ensures var top := BitOr(ptype * 64, window);
            var word := SrcHeader(ptype, window, length, seqnum);
            && (word < WORD <==> top < 256)
            && Length(word) == length && Seqnum(word) == seqnum
            && (top < 256 ==> Ptype(word) == top / 64 && Window(word) == top % 64)
  {
    hide BitOr, Ptype, Window, Length, Seqnum, Fields;
    OrFields(ptype, window, length, seqnum);
    var top := BitOr(ptype * 64, window);
    LowFields(top, length, seqnum);
    TopByte((top * 8192 + length) * 2048 + seqnum, top);
  }

  lemma SmallWindow(ptype: nat, window: nat)
    ensures var top := BitOr(ptype * 64, window);
            && (top / 64 == ptype && top % 64 == window <==> window < 64)
            && (window < 64 ==> (top < 256 <==> ptype < 4))
  {
    hide BitOr, Pow;
    PowersUsed();
    if window < 64 {
      OrIsSum(ptype, window, 6);
      DivMod(ptype, 64, window);
    }
  }

  // depackage undoes empackage. It succeeds exactly when the payload, the
  // timestamp and the byte of type and window fit; a window above 63 is ored
  // into the type, so the fields come back exactly when the window fits.
  lemma SrcRoundTrip(ptype: nat, window: nat, seqnum: nat, timestamp: nat, payload: seq<byte>)
    ensures var top := BitOr(ptype * 64, window);
            var e := Empackage(ptype, window, seqnum, timestamp, payload);
            && (e.Some? <==> |payload| <= MAX_PAYLOAD && top < 256 && timestamp < WORD)
            && (window < 64 ==> (top < 256 <==> ptype < 4))
            && (e.Some? ==>
                  Depackage(e.value) == Accepted(Packet(top / 64, top % 64, seqnum % 2048, timestamp, payload)))
            && (top / 64 == ptype && top % 64 == window <==> window < 64)
  {
    hide SrcHeader, BitOr, Assemble, Depackage;
    SmallWindow(ptype, window);
    if |payload| <= MAX_PAYLOAD {
      SrcWord(ptype, window, |payload|, seqnum % 2048);
      var word := SrcHeader(ptype, window, |payload|, seqnum % 2048);
      if word < WORD && timestamp < WORD {
        AssembledReads(word, timestamp, payload);
      }
      hide Length, Seqnum, Ptype, Window;
    }
  }

  // A word and its four bytes, most significant first.
  ghost predicate Spells(b: seq<byte>, at: nat, v: nat) {
    at + 4 <= |b| && v == ((b[at] as int * 256 + b[at + 1]) * 256 + b[at + 2]) * 256 + b[at + 3]
  }

  // Byte by byte: two bits of type and six of window in the first byte, 13 bits of
  // length and 11 of number after it, the timestamp, the CRC of these eight bytes and,
  // unless it is empty, the payload with its CRC. More bytes may follow.
  ghost predicate Framed(s: seq<byte>, p: Packet) {
    && |s| >= (if p.payload == [] then 12 else 16 + |p.payload|)
    && p.ptype < 4 && p.window < 64 && |p.payload| < 8192 && p.seqnum < 2048
    && s[0] == 64 * p.ptype + p.window
    && (s[1] as int * 256 + s[2]) * 256 + s[3] == 2048 * |p.payload| + p.seqnum
    && Spells(s, 4, p.timestamp) && Spells(s, 8, Crc(s[..8]))
    && (p.payload != [] ==> s[12..12 + |p.payload|] == p.payload && Spells(s, 12 + |p.payload|, Crc(p.payload)))
  }

  // No byte follows.
  ghost predicate LaidOut(s: seq<byte>, p: Packet) {
    Framed(s, p) && |s| == if p.payload == [] then 12 else 16 + |p.payload|
  }

  lemma ValueOfFour(d: seq<nat>)
    requires |d| == 4
    ensures Value(256, d) == ((d[0] * 256 + d[1]) * 256 + d[2]) * 256 + d[3]
  {
    var d3 := d[..3];
    var d2 := d3[..2];
    var d1 := d2[..1];
    assert d1[..0] == [];
    assert Value(256, d1) == d1[0];
    assert Value(256, d2) == d1[0] * 256 + d2[1];
    assert Value(256, d3) == (d1[0] * 256 + d2[1]) * 256 + d3[2];
  }

  lemma UnpackFour(b: seq<byte>)
    requires |b| == 4
    ensures Unpack(b) == ((b[0] as int * 256 + b[1]) * 256 + b[2]) * 256 + b[3]
  {
    ValueOfFour(b);
  }

  lemma SliceSpells(s: seq<byte>, at: nat)
    requires at + 4 <= |s|
    ensures Spells(s, at, Unpack(s[at..at + 4]))
    ensures forall v :: Spells(s, at, v) ==> v == Unpack(s[at..at + 4])
  {
    UnpackFour(s[at..at + 4]);
  }

  lemma FirstWord(s: seq<byte>, ptype: nat, window: nat, length: nat, seqnum: nat)
    requires |s| >= 4 && window < 64 && length < 8192 && seqnum < 2048
    ensures Spells(s, 0, Fields(ptype, window, length, seqnum)) <==>
              s[0] == 64 * ptype + window && (s[1] as int * 256 + s[2]) * 256 + s[3] == 2048 * length + seqnum
  {
    var low := (s[1] as int * 256 + s[2]) * 256 + s[3];
    assert Spells(s, 0, s[0] as int * 0x100_0000 + low);
    assert Fields(ptype, window, length, seqnum) == (64 * ptype + window) * 0x100_0000 + 2048 * length + seqnum;
  }

  // What empackage puts on the wire.
  lemma WireLayout(ptype: nat, window: nat, seqnum: nat, timestamp: nat, payload: seq<byte>)
    requires window < 64
    ensures var e := Empackage(ptype, window, seqnum, timestamp, payload);
            e.Some? ==> LaidOut(e.value, Packet(ptype, window, seqnum % 2048, timestamp, payload))
  {
    hide SrcHeader, BitOr, Assemble, Unpack, Crc, Spells, Fields;
    var e := Empackage(ptype, window, seqnum, timestamp, payload);
    SrcRoundTrip(ptype, window, seqnum, timestamp, payload);
    hide Depackage;
    if e.Some? {
      var s, word := e.value, SrcHeader(ptype, window, |payload|, seqnum % 2048);
      AssembleCarries(word, timestamp, payload);
      OrFields(ptype, window, |payload|, seqnum % 2048);
      CarriesIsFramed(s, Packet(ptype, window, seqnum % 2048, timestamp, payload));
    }
  }

  lemma CarriesIsFramed(s: seq<byte>, p: Packet)
    requires Carries(s, Fields(p.ptype, p.window, |p.payload|, p.seqnum), p.timestamp, p.payload)
    requires p.ptype < 4 && p.window < 64 && |p.payload| < 8192 && p.seqnum < 2048
    ensures LaidOut(s, p)
  {
    hide Unpack, Crc, Spells, Fields;
    assert s[..4] == s[0..4];
    SliceSpells(s, 0);
    SliceSpells(s, 4);
    SliceSpells(s, 8);
    FirstWord(s, p.ptype, p.window, |p.payload|, p.seqnum);
    if p.payload != [] {
      SliceSpells(s, 12 + |p.payload|);
    }
  }

  // The first word of a segment and the fields read from it.
  lemma HeadReads(s: seq<byte>, ptype: nat, window: nat, length: nat, seqnum: nat)
    requires |s| >= 4
    ensures var word := Unpack(s[..4]);
            && Ptype(word) < 4 && Window(word) < 64 && Length(word) < 8192 && Seqnum(word) < 2048
            && (ptype == Ptype(word) && window == Window(word) && length == Length(word) && seqnum == Seqnum(word) <==>
                  && ptype < 4 && window < 64 && length < 8192 && seqnum < 2048
                  && s[0] == 64 * ptype + window
                  && (s[1] as int * 256 + s[2]) * 256 + s[3] == 2048 * length + seqnum)
  {
    hide Unpack, Pack, Spells, Fields;
    var word := Unpack(s[..4]);
    assert s[..4] == s[0..4];
    PackUnpack(s[..4]);
    SliceSpells(s, 0);
    FieldsWritten(word);
    FirstWord(s, Ptype(word), Window(word), Length(word), Seqnum(word));
    if ptype < 4 && window < 64 && length < 8192 && seqnum < 2048 {
      FieldsRead(ptype, window, length, seqnum);
      FirstWord(s, ptype, window, length, seqnum);
    }
    hide Ptype, Window, Length, Seqnum;
  }

  // The same frame, told by the words read.
  ghost predicate ReadsAs(s: seq<byte>, p: Packet) {
    && |s| >= 12 && |s| >= (if p.payload == [] then 12 else 16 + |p.payload|)
    && var word := Unpack(s[..4]);
    && p.ptype == Ptype(word) && p.window == Window(word) && |p.payload| == Length(word) && p.seqnum == Seqnum(word)
    && p.timestamp == Unpack(s[4..8]) && Crc(s[..8]) == Unpack(s[8..12])
    && (p.payload != [] ==>
          && s[12..12 + |p.payload|] == p.payload
          && Unpack(s[12 + |p.payload|..16 + |p.payload|]) == Crc(p.payload))
  }

  lemma FramedIsRead(s: seq<byte>, p: Packet)
    ensures Framed(s, p) <==> ReadsAs(s, p)
  {
    hide Unpack, Crc, Spells, Ptype, Window, Length, Seqnum;
    if |s| >= 12 {
      HeadReads(s, p.ptype, p.window, |p.payload|, p.seqnum);
      SliceSpells(s, 4);
      SliceSpells(s, 8);
      if p.payload != [] && |s| >= 16 + |p.payload| {
        SliceSpells(s, 12 + |p.payload|);
      }
    }
  }

  lemma SrcReads(s: seq<byte>, p: Packet)
    ensures Depackage(s) == Accepted(p) <==> ReadsAs(s, p)
  {
    hide Unpack, Crc, Ptype, Window, Length, Seqnum;
  }

  lemma GroupsRead(s: seq<byte>, p: Packet)
    ensures Decode61(s) == Some(p) <==> ReadsAs(s, p) && p.ptype != 0 && |p.payload| <= 1024
    ensures Decode42(s) == Some(p) <==>
              ReadsAs(s, p) && p.ptype != 0 && |p.payload| <= 1024 && (p.payload == [] ==> |s| == 12)
  {
    hide Unpack, Crc, Ptype, Window, Length, Seqnum;
  }

  lemma Group20Reads(s: seq<byte>, p: Packet)
    ensures FromSegment20(s) == Some(p) <==>
              && ReadsAs(s, p) && |s| == (if p.payload == [] then 12 else 16 + |p.payload|)
              && p.ptype != 0 && |p.payload| <= 1024
              && (p.ptype == 2 ==> p.payload == []) && (p.ptype == 3 ==> |p.payload| % 4 == 0)
  {
    hide Unpack, Crc, Ptype, Window, Length, Seqnum;
  }

  // What each program reads out of any bytes at all. src asks for a frame; groupe_61
  // also for a known type and at most 1024 bytes, groupe_42 for no byte after a
  // header without payload, groupe_20 for no byte after any frame, no payload in an
  // ACK and whole words in a SACK.
  lemma WhatIsAccepted(s: seq<byte>, p: Packet)
    ensures Depackage(s) == Accepted(p) <==> Framed(s, p)
    ensures Decode61(s) == Some(p) <==> Framed(s, p) && p.ptype != 0 && |p.payload| <= 1024
    ensures Decode42(s) == Some(p) <==>
              Framed(s, p) && p.ptype != 0 && |p.payload| <= 1024 && (p.payload == [] ==> |s| == 12)
    ensures FromSegment20(s) == Some(p) <==>
              && LaidOut(s, p) && p.ptype != 0 && |p.payload| <= 1024
              && (p.ptype == 2 ==> p.payload == []) && (p.ptype == 3 ==> |p.payload| % 4 == 0)
  {
    hide Depackage, Decode61, Decode42, FromSegment20, Framed, ReadsAs;
    FramedIsRead(s, p);
    SrcReads(s, p);
    GroupsRead(s, p);
    Group20Reads(s, p);
  }

  lemma AssembledReads(word: nat, timestamp: nat, payload: seq<byte>)
    requires word < WORD && timestamp < WORD && Length(word) == |payload|
    ensures Depackage(Assemble(word, timestamp, payload))
         == Accepted(Packet(Ptype(word), Window(word), Seqnum(word), timestamp, payload))
  {
    hide Assemble, Depackage, Length, Seqnum, Ptype, Window, Carries;
    AssembleCarries(word, timestamp, payload);
    DepackageReads(Assemble(word, timestamp, payload), word, timestamp, payload);
  }

  lemma FromSegment20Reads(s: seq<byte>, word: nat, p: Packet)
    requires Carries(s, word, p.timestamp, p.payload) && Length(word) == |p.payload|
    requires Ptype(word) == p.ptype && Window(word) == p.window && Seqnum(word) == p.seqnum
    requires Valid20(p) && p.ptype != 0
    ensures FromSegment20(s) == Some(p)
  {
    hide Unpack, Crc, Ptype, Window, Length, Seqnum;
  }

  // groupe_20: every valid packet of a known type decodes back to itself ...
  lemma Round20(p: Packet)
    requires Valid20(p) && p.ptype != 0
    ensures FromSegment20(ToSegment20(p)) == Some(p)
  {
    FieldsRead(p.ptype, p.window, |p.payload|, p.seqnum);
    HeaderWordIsFields(p.ptype, p.window, |p.payload|, p.seqnum);
    hide HeaderWord, Assemble, Fields, Carries, FromSegment20, Ptype, Window, Length, Seqnum;
    AssembleCarries(Fields(p.ptype, p.window, |p.payload|, p.seqnum), p.timestamp, p.payload);
    FromSegment20Reads(ToSegment20(p), Fields(p.ptype, p.window, |p.payload|, p.seqnum), p);
  }

  // What from_segment checked, restated on the parts of the segment.
  lemma Accepted20(s: seq<byte>)
    requires FromSegment20(s).Some?
    ensures var p := FromSegment20(s).value;
            && Carries(s, Fields(p.ptype, p.window, |p.payload|, p.seqnum), p.timestamp, p.payload)
            && Valid20(p) && p.ptype != 0
  {
    hide Pack, Unpack, Crc;
    PackUnpack(s[..4]);
    PackUnpack(s[4..8]);
    FieldsWritten(Unpack(s[..4]));
    hide Fields;
  }

  // ... and every accepted segment is the encoding of the packet it gives, so
  // each packet has exactly one accepted encoding.
  lemma Unique20(s: seq<byte>)
    requires FromSegment20(s).Some?
    ensures var p := FromSegment20(s).value;
            Valid20(p) && p.ptype != 0 && ToSegment20(p) == s
  {
    Accepted20(s);
    hide FromSegment20, Fields, Carries, Assemble, HeaderWord;
    var p := FromSegment20(s).value;
    HeaderWordIsFields(p.ptype, p.window, |p.payload|, p.seqnum);
    CarriesIsAssemble(s, Fields(p.ptype, p.window, |p.payload|, p.seqnum), p.timestamp, p.payload);
  }

  // Each decoder in the list accepts what the one before it accepts and gives
  // the same fields: groups 20, 42, 61, then src.
  lemma AcceptanceChain(s: seq<byte>)
    ensures FromSegment20(s).Some? ==> Decode42(s) == FromSegment20(s)
    ensures Decode42(s).Some? ==> Decode61(s) == Decode42(s)
    ensures Decode61(s).Some? ==> Depackage(s) == Accepted(Decode61(s).value)
  {
    hide Unpack, Crc;
  }

  lemma SrcWrites(ptype: nat, window: nat, seqnum: nat, timestamp: nat, payload: seq<byte>)
    requires ptype < 4 && window < 64 && timestamp < WORD && |payload| <= MAX_PAYLOAD
    ensures var word := Fields(ptype, window, |payload|, seqnum % 2048);
            && word < WORD
            && Empackage(ptype, window, seqnum, timestamp, payload) == Some(Assemble(word, timestamp, payload))
  {
    OrFields(ptype, window, |payload|, seqnum % 2048);
    FieldsRead(ptype, window, |payload|, seqnum % 2048);
    hide SrcHeader, Assemble, BitOr, Fields, Length, Seqnum, Ptype, Window;
  }

  lemma MasksKeep(p: Packet)
    requires p.ptype <= 3 && p.window <= 63 && p.seqnum <= 2047 && |p.payload| <= MAX_PAYLOAD
    ensures MaskedWord(p.ptype, p.window, |p.payload|, p.seqnum)
         == HeaderWord(p.ptype, p.window, |p.payload|, p.seqnum)
  {
    hide HeaderWord;
    SmallMod(p.ptype, 4);
    SmallMod(p.window, 64);
    SmallMod(|p.payload|, 8192);
    SmallMod(p.seqnum, 2048);
  }

  lemma GroupsWrite(p: Packet)
    requires 0 < p.ptype <= 3 && p.window <= 63 && p.timestamp < WORD && |p.payload| <= MAX_PAYLOAD
    ensures var n := if p.seqnum > 2047 then 0 else p.seqnum;
            var s := Assemble(Fields(p.ptype, p.window, |p.payload|, n), p.timestamp, p.payload);
            && Encode42(p) == Some(s)
            && Encode61(p) == (if p.seqnum > 2047 then None else Some(s))
            && (p.seqnum <= 2047 ==> ToSegment20(p) == s)
  {
    hide HeaderWord, MaskedWord, Assemble, Fields;
    var n := if p.seqnum > 2047 then 0 else p.seqnum;
    HeaderWordIsFields(p.ptype, p.window, |p.payload|, n);
    MasksKeep(p.(seqnum := n));
  }

  // groupe_61 and groupe_42 encode exactly the packets that some segment decodes to,
  // apart from groupe_42's numbers above 2047.
  lemma EncodesWhatDecodes(p: Packet)
    ensures Encode61(p).Some? <==> exists s :: Decode61(s) == Some(p)
    ensures Encode42(p).Some? && p.seqnum <= 2047 <==> exists s :: Decode42(s) == Some(p)
    ensures Encode61(p).Some? ==> Decode61(Encode61(p).value) == Some(p)
    ensures Encode42(p).Some? && p.seqnum <= 2047 ==> Decode42(Encode42(p).value) == Some(p)
  {
    hide HeaderWord, MaskedWord, Assemble, Fields, Decode42, Decode61, FromSegment20, Depackage, Framed;
    if 0 < p.ptype <= 3 && p.window <= 63 && p.timestamp < WORD && |p.payload| <= MAX_PAYLOAD && p.seqnum <= 2047 {
      var s := Assemble(Fields(p.ptype, p.window, |p.payload|, p.seqnum), p.timestamp, p.payload);
      GroupsWrite(p);
      FieldsRead(p.ptype, p.window, |p.payload|, p.seqnum);
      AssembleCarries(Fields(p.ptype, p.window, |p.payload|, p.seqnum), p.timestamp, p.payload);
      CarriesIsFramed(s, p);
      WhatIsAccepted(s, p);
    }
    forall s | Decode61(s) == Some(p) || Decode42(s) == Some(p)
      ensures 0 < p.ptype <= 3 && p.window <= 63 && p.timestamp < WORD && |p.payload| <= MAX_PAYLOAD && p.seqnum <= 2047
    {
      WhatIsAccepted(s, p);
      FrameFits(s, p);
    }
  }

  lemma FrameFits(s: seq<byte>, p: Packet)
    requires Framed(s, p)
    ensures p.ptype <= 3 && p.window <= 63 && p.timestamp < WORD && p.seqnum <= 2047
  {
    hide Crc;
  }

  // depackage raises exactly on a segment with an intact header whose payload or
  // payload CRC is cut off; on no other does it fail to answer.
  lemma RaisedIsTruncated(s: seq<byte>)
    ensures Depackage(s) == Raised <==>
              && |s| >= HEADER && Crc(s[..8]) == Unpack(s[8..12])
              && var length := Length(Unpack(s[..4])); 0 < length && |s| < 16 + length
  {
    hide Crc, Unpack, Length;
  }

  // A packet of empackage that was cut short is refused if the cut is in the header
  // and raises if it comes after it.
  lemma CutShort(ptype: nat, window: nat, seqnum: nat, timestamp: nat, payload: seq<byte>, n: nat)
    requires var e := Empackage(ptype, window, seqnum, timestamp, payload); e.Some? && n < |e.value|
    ensures var s := Empackage(ptype, window, seqnum, timestamp, payload).value[..n];
            Depackage(s) == if n < HEADER then Rejected else Raised
  {
    hide SrcHeader, BitOr, Pack, Unpack, Crc, Length, Seqnum, Assemble, Depackage, Fields;
    var whole := Empackage(ptype, window, seqnum, timestamp, payload).value;
    var s := whole[..n];
    OrFields(ptype, window, |payload|, seqnum % 2048);
    AssembleCarries(SrcHeader(ptype, window, |payload|, seqnum % 2048), timestamp, payload);
    RaisedIsTruncated(s);
    if n < HEADER {
      TooShort(s);
    } else {
      assert s[..4] == whole[..4] && s[..8] == whole[..8] && s[8..12] == whole[8..12];
    }
  }

  lemma TooShort(s: seq<byte>)
    requires |s| < HEADER
    ensures Depackage(s) == Rejected
  {
  }

  // The four encoders write the same bytes for every packet that groupe_20
  // accepts and whose type is known ...
  lemma EncodersAgree(p: Packet)
    requires Valid20(p) && p.ptype != 0
    ensures Encode42(p) == Encode61(p) == Some(ToSegment20(p))
         == Empackage(p.ptype, p.window, p.seqnum, p.timestamp, p.payload)
  {
    SmallMod(p.seqnum, 2048);
    hide HeaderWord, Assemble, Fields, Encode42, Encode61, ToSegment20, Empackage;
    GroupsWrite(p);
    SrcWrites(p.ptype, p.window, p.seqnum, p.timestamp, p.payload);
  }

  // Different words make different segments.
  lemma WordIsSeen(a: nat, b: nat, timestamp: nat, payload: seq<byte>)
    requires a < WORD && b < WORD && timestamp < WORD
    ensures Assemble(a, timestamp, payload) == Assemble(b, timestamp, payload) ==> a == b
  {
    hide Assemble, Unpack;
    AssembleCarries(a, timestamp, payload);
    AssembleCarries(b, timestamp, payload);
  }

  // ... but a number too large for its field is reduced by src and replaced by
  // 0 by groupe_42, so these two agree exactly on multiples of 2048.
  lemma TooLargeNumbers(p: Packet)
    requires Valid20(p.(seqnum := 0)) && p.ptype != 0 && p.seqnum > 2047
    ensures Encode61(p) == None
    ensures Encode42(p) == Empackage(p.ptype, p.window, p.seqnum, p.timestamp, p.payload) <==> p.seqnum % 2048 == 0
  {
    var n := |p.payload|;
    FieldsRead(p.ptype, p.window, n, 0);
    FieldsRead(p.ptype, p.window, n, p.seqnum % 2048);
    hide HeaderWord, Assemble, Fields, Encode42, Encode61, ToSegment20, Empackage, Length, Seqnum, Ptype, Window;
    GroupsWrite(p);
    SrcWrites(p.ptype, p.window, p.seqnum, p.timestamp, p.payload);
    WordIsSeen(Fields(p.ptype, p.window, n, 0), Fields(p.ptype, p.window, n, p.seqnum % 2048), p.timestamp, p.payload);
  }

  // --- corruption -----------------------------------------------------------------

  lemma CorruptHead(s: seq<byte>, at: nat, b: byte)
    requires |s| >= HEADER && Crc(s[..8]) == Unpack(s[8..12])
    requires at < 12 && s[at] != b
    ensures Depackage(s[at := b]) == Rejected
  {
    hide Unpack, Crc, Length;
    var t := s[at := b];
    assert Crc(t[..8]) != Unpack(t[8..12]) by {
      if at < 8 {
        assert t[..8] == s[..8][at := b];
        assert t[8..12] == s[8..12];
        OneByteChangesCrc(s[..8], at, b);
      } else {
        assert t[..8] == s[..8];
        assert t[8..12] == s[8..12][at - 8 := b];
        UnpackDiffers(s[8..12], at - 8, b);
      }
    }
  }

  // A payload that does not match the CRC after it is rejected.
  lemma BadPayload(s: seq<byte>, length: nat)
    requires length > 0 && |s| == 16 + length && Length(Unpack(s[..4])) == length
    requires Crc(s[12..12 + length]) != Unpack(s[12 + length..16 + length])
    ensures Depackage(s) == Rejected
  {
    hide Unpack, Crc, Length;
    assert Slice(s, 12 + length, 16 + length) == s[12 + length..16 + length];
    assert Slice(s, 12, 12 + length) == s[12..12 + length];
  }

  lemma CorruptPayload(s: seq<byte>, length: nat, at: nat, b: byte)
    requires length > 0 && |s| == 16 + length && Length(Unpack(s[..4])) == length
    requires Crc(s[12..12 + length]) == Unpack(s[12 + length..16 + length])
    requires 12 <= at < |s| && s[at] != b
    ensures Depackage(s[at := b]) == Rejected
  {
    hide Unpack, Crc, Length, Depackage;
    var t := s[at := b];
    var body := s[12..12 + length];
    var crc := s[12 + length..16 + length];
    assert t[..4] == s[..4];
    if at < 12 + length {
      assert t[12..12 + length] == body[at - 12 := b];
      assert t[12 + length..16 + length] == crc;
      OneByteChangesCrc(body, at - 12, b);
    } else {
      assert t[12..12 + length] == body;
      assert t[12 + length..16 + length] == crc[at - 12 - length := b];
      UnpackDiffers(crc, at - 12 - length, b);
    }
    BadPayload(t, length);
  }

  // Whatever empackage builds, replacing any one byte by any other byte makes
  // depackage return nothing; so a corrupting network only loses packets.
  lemma OneByteCorruptionIsRejected(ptype: nat, window: nat, seqnum: nat, timestamp: nat, payload: seq<byte>,
                                    at: nat, b: byte)
    requires var e := Empackage(ptype, window, seqnum, timestamp, payload);
             e.Some? && at < |e.value| && e.value[at] != b
    ensures var s := Empackage(ptype, window, seqnum, timestamp, payload).value[at := b];
            Depackage(s) == Rejected && FromSegment20(s) == None && Decode42(s) == None && Decode61(s) == None
  {
    hide SrcHeader, BitOr, Pack, Unpack, Crc, Length, Seqnum, Assemble, Depackage, FromSegment20, Decode42, Decode61;
    var s := Empackage(ptype, window, seqnum, timestamp, payload).value;
    OrFields(ptype, window, |payload|, seqnum % 2048);
    var word := SrcHeader(ptype, window, |payload|, seqnum % 2048);
    AssembleCarries(word, timestamp, payload);
    if at < 12 {
      CorruptHead(s, at, b);
    } else {
      CorruptPayload(s, |payload|, at, b);
    }
    AcceptanceChain(s[at := b]);
  }
}
