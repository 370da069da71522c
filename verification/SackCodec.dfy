// The SACK payload: 11-bit numbers packed one after the other and padded to a
// multiple of 32 bits. src/protocol.py packs a bit string, tools/groupe_20
// shifts and masks integers.
module SackCodec {
  import SeqNums
  import opened Packets
  import opened Positional

  const FIELD_BITS: nat := 11
  const FIELD_LIMIT: nat := SeqNums.MODULUS
  const MAX_SACK_SEQNUMS: nat := 744

  function ToBytes(v: nat, n: nat): seq<byte> {
    Digits(256, v, n)
  }

  function FromBytes(bytes: seq<byte>): nat {
    Value(256, bytes)
  }

  // --- src/protocol.py ----------------------------------------------------

  // The eleven binary digits of each number, one number after the other.
  function FieldBits(list: seq<nat>): (bits: seq<nat>)
    ensures |bits| == FIELD_BITS * |list|
  {
    if list == [] then []
    else FieldBits(list[..|list| - 1]) + Digits(2, list[|list| - 1], FIELD_BITS)
  }

  // Bits missing to the next multiple of 32.
  function Padding(bits: nat): nat {
    32 * ((bits + 31) / 32) - bits
  }

  // Both programs compute it from the remainder.
  lemma PaddingAsWritten(bits: nat)
    ensures Padding(bits) == if bits % 32 != 0 then 32 - bits % 32 else 0
    ensures Padding(bits) == -(bits as int) % 32
  {
  }

  function PaddedBits(list: seq<nat>): seq<nat> {
    FieldBits(list) + Zeros(Padding(FIELD_BITS * |list|))
  }

  function EncodeSack(list: seq<nat>): (payload: seq<byte>)
    ensures |payload| == 4 * ((FIELD_BITS * |list| + 31) / 32)
    ensures list != [] ==> payload != []
  {
    if list == [] then []
    else ToBytes(Value(2, PaddedBits(list)), |PaddedBits(list)| / 8)
  }

  // The bit string bin(int.from_bytes(payload)) filled up to eight bits a byte.
  function PayloadBits(payload: seq<byte>): (bits: seq<nat>)
    ensures |bits| == 8 * |payload|
  {
    Digits(2, FromBytes(payload), 8 * |payload|)
  }

  function Field(bits: seq<nat>, i: nat): nat
    requires FIELD_BITS * (i + 1) <= |bits|
  {
    Value(2, bits[FIELD_BITS * i..FIELD_BITS * i + FIELD_BITS])
  }

  // All complete 11-bit fields of the payload, padding included.
  function Fields(payload: seq<byte>): (fields: seq<nat>)
    ensures |fields| == 8 * |payload| / FIELD_BITS
    ensures forall i | 0 <= i < |fields| :: fields[i] == Field(PayloadBits(payload), i)
  {
    seq(8 * |payload| / FIELD_BITS, i requires 0 <= i < 8 * |payload| / FIELD_BITS => Field(PayloadBits(payload), i))
  }

  function StripZeros(list: seq<nat>): seq<nat> {
    if list != [] && list[|list| - 1] == 0 then StripZeros(list[..|list| - 1]) else list
  }

  function DecodeSack(payload: seq<byte>): seq<nat> {
    StripZeros(Fields(payload))
  }

  // decode_sack as written: collect the fields, then pop trailing zeros.
  method DecodeSackList(payload: seq<byte>) returns (seqnums: seq<nat>)
    ensures seqnums == DecodeSack(payload)
  {
    if payload == [] {
      return [];
    }
    var bits := PayloadBits(payload);
    seqnums := [];
    var i := 0;
    while i < |bits| - 10
      invariant i == FIELD_BITS * |seqnums| && |seqnums| <= |Fields(payload)|
      invariant seqnums == Fields(payload)[..|seqnums|]
      decreases |bits| - i
    {
      seqnums := seqnums + [Value(2, bits[i..i + FIELD_BITS])];
      i := i + FIELD_BITS;
    }
    assert seqnums == Fields(payload);
    while seqnums != [] && seqnums[|seqnums| - 1] == 0
      invariant StripZeros(seqnums) == DecodeSack(payload)
    {
      seqnums := seqnums[..|seqnums| - 1];
    }
  }

  // --- round trip -----------------------------------------------------------

  lemma {:induction false} FieldBitsAreBits(list: seq<nat>)
    ensures AllBelow(2, FieldBits(list))
  {
    if list != [] {
      FieldBitsAreBits(list[..|list| - 1]);
    }
  }

  lemma FieldOfPrefix(bits: seq<nat>, more: seq<nat>, i: nat)
    requires FIELD_BITS * (i + 1) <= |bits|
    ensures Field(bits + more, i) == Field(bits, i)
  {
    assert (bits + more)[FIELD_BITS * i..FIELD_BITS * i + FIELD_BITS]
        == bits[FIELD_BITS * i..FIELD_BITS * i + FIELD_BITS];
  }

  lemma LastField(bits: seq<nat>, last: nat, i: nat)
    requires |bits| == FIELD_BITS * i && last < FIELD_LIMIT
    ensures Field(bits + Digits(2, last, FIELD_BITS), i) == last
  {
    var all := bits + Digits(2, last, FIELD_BITS);
    assert all[FIELD_BITS * i..FIELD_BITS * i + FIELD_BITS] == Digits(2, last, FIELD_BITS);
    TwoToTheEleven();
    hide Digits;
    ValueOfAllDigits(2, last, FIELD_BITS);
  }

  lemma {:induction false} FieldOfFieldBits(list: seq<nat>, i: nat)
    requires AllBelow(FIELD_LIMIT, list) && i < |list|
    ensures Field(FieldBits(list), i) == list[i]
  {
    var init := list[..|list| - 1];
    var last := list[|list| - 1];
    if i == |list| - 1 {
      LastField(FieldBits(init), last, i);
    } else {
      FieldOfPrefix(FieldBits(init), Digits(2, last, FIELD_BITS), i);
      FieldOfFieldBits(init, i);
    }
  }

  lemma TwoToTheEleven()
    ensures Pow(2, FIELD_BITS) == FIELD_LIMIT && Pow(2, 8) == 256
  {
    assert Pow(2, 4) == 16;
    PowAdd(2, 4, 4);
    assert Pow(2, 3) == 8;
    PowAdd(2, 8, 3);
  }

  lemma BytesHoldBits(n: nat)
    ensures Pow(256, n) == Pow(2, 8 * n)
  {
    TwoToTheEleven();
    PowPow(2, 8, n);
  }

  // Bytes hold the bits they were packed from.
  lemma BitsSurviveBytes(bits: seq<nat>, n: nat)
    requires AllBelow(2, bits) && |bits| == 8 * n
    ensures FromBytes(ToBytes(Value(2, bits), n)) == Value(2, bits)
    ensures PayloadBits(ToBytes(Value(2, bits), n)) == bits
  {
    ValueBound(2, bits);
    BytesHoldBits(n);
    ValueOfAllDigits(256, Value(2, bits), n);
    DigitsOfValue(2, bits);
  }

  lemma PaddedField(list: seq<nat>, i: nat)
    requires AllBelow(FIELD_LIMIT, list) && FIELD_BITS * (i + 1) <= |PaddedBits(list)|
    ensures Field(PaddedBits(list), i) == if i < |list| then list[i] else 0
  {
    var slice := PaddedBits(list)[FIELD_BITS * i..FIELD_BITS * i + FIELD_BITS];
    if i < |list| {
      assert slice == FieldBits(list)[FIELD_BITS * i..FIELD_BITS * i + FIELD_BITS];
      FieldOfFieldBits(list, i);
    } else {
      assert slice == Zeros(FIELD_BITS);
      ValueZeros(2, FIELD_BITS);
    }
  }

  lemma PaddedBitsAreBits(list: seq<nat>)
    ensures AllBelow(2, PaddedBits(list)) && |PaddedBits(list)| == 8 * (|PaddedBits(list)| / 8)
  {
    FieldBitsAreBits(list);
  }

  lemma FieldCount(n: nat, pad: nat, i: nat)
    ensures (FIELD_BITS * n + pad) / FIELD_BITS == n + pad / FIELD_BITS
    ensures i < (FIELD_BITS * n + pad) / FIELD_BITS ==> FIELD_BITS * (i + 1) <= FIELD_BITS * n + pad
  {
  }

  // Any payload spelling the padded bits of a list has the list as its fields,
  // then zeros.
  lemma FieldsOfPaddedBits(payload: seq<byte>, list: seq<nat>, pad: nat)
    requires AllBelow(FIELD_LIMIT, list) && pad == Padding(FIELD_BITS * |list|)
    requires PayloadBits(payload) == PaddedBits(list) && 8 * |payload| == FIELD_BITS * |list| + pad
    ensures Fields(payload) == list + Zeros(pad / FIELD_BITS)
  {
    hide PayloadBits, PaddedBits, Field, Padding;
    var fields := Fields(payload);
    FieldCount(|list|, pad, 0);
    forall i | 0 <= i < |fields| ensures fields[i] == (list + Zeros(pad / FIELD_BITS))[i] {
      FieldCount(|list|, pad, i);
      PaddedField(list, i);
    }
  }

  // The fields of an encoded list: the list, then up to two zeros of padding.
  lemma EncodedFields(list: seq<nat>)
    requires AllBelow(FIELD_LIMIT, list) && list != []
    ensures Fields(EncodeSack(list)) == list + Zeros(Padding(FIELD_BITS * |list|) / FIELD_BITS)
  {
    var n := |PaddedBits(list)| / 8;
    PaddedBitsAreBits(list);
    assert EncodeSack(list) == ToBytes(Value(2, PaddedBits(list)), n);
    assert 8 * n == FIELD_BITS * |list| + Padding(FIELD_BITS * |list|);
    hide EncodeSack, PaddedBits, Padding;
    BitsSurviveBytes(PaddedBits(list), n);
    FieldsOfPaddedBits(EncodeSack(list), list, Padding(FIELD_BITS * |list|));
  }

  lemma {:induction false} StripZerosAppended(list: seq<nat>, n: nat)
    ensures StripZeros(list + Zeros(n)) == StripZeros(list)
  {
    var all := list + Zeros(n);
    if n == 0 {
      assert all == list;
    } else {
      assert all[..|all| - 1] == list + Zeros(n - 1);
      StripZerosAppended(list, n - 1);
    }
  }

  // decode_sack undoes encode_sack up to the trailing zeros of the list.
  lemma DecodeOfEncode(list: seq<nat>)
    requires AllBelow(FIELD_LIMIT, list)
    ensures DecodeSack(EncodeSack(list)) == StripZeros(list)
  {
    if list != [] {
      EncodedFields(list);
      StripZerosAppended(list, Padding(FIELD_BITS * |list|) / FIELD_BITS);
    }
  }

  lemma {:induction false} StripZerosIsPrefix(list: seq<nat>)
    ensures StripZeros(list) <= list
    ensures forall i | |StripZeros(list)| <= i < |list| :: list[i] == 0
  {
    if list != [] && list[|list| - 1] == 0 {
      StripZerosIsPrefix(list[..|list| - 1]);
    }
  }

  // So the server never reads a number the receiver did not write, and loses
  // at most the number 0.
  lemma DecodeInventsNothing(list: seq<nat>, num: nat)
    requires AllBelow(FIELD_LIMIT, list)
    ensures num in DecodeSack(EncodeSack(list)) ==> num in list
    ensures num in list && num != 0 ==> num in DecodeSack(EncodeSack(list))
  {
    DecodeOfEncode(list);
    StripZerosIsPrefix(list);
  }

  // The payload fits in a packet exactly up to 744 numbers.
  lemma SackPayloadSize(list: seq<nat>)
    ensures |EncodeSack(list)| % 4 == 0
    ensures |EncodeSack(list)| <= MAX_PAYLOAD <==> |list| <= MAX_SACK_SEQNUMS
  {
    hide EncodeSack;
    PayloadSize(|list|);
  }

  lemma PayloadSize(n: nat)
    ensures 4 * ((FIELD_BITS * n + 31) / 32) <= MAX_PAYLOAD <==> n <= MAX_SACK_SEQNUMS
  {
  }

  // --- tools/groupe_20/SRTPPacket.py ---------------------------------------

  lemma {:induction false} MaxExists(s: set<nat>)
    requires s != {}
    ensures exists m :: m in s && forall k | k in s :: k <= m
  {
    var x :| x in s;
    var rest := s - {x};
    if rest == {} {
      assert s == {x};
    } else {
      MaxExists(rest);
      var m :| m in rest && forall k | k in rest :: k <= m;
      var top := if m <= x then x else m;
      assert top in s && forall k | k in s :: k == x || k in rest;
    }
  }

  ghost predicate Ascends(list: seq<nat>) {
    forall i, j | 0 <= i < j < |list| :: list[i] < list[j]
  }

  lemma AscendsAppend(list: seq<nat>, m: nat)
    requires Ascends(list) && forall i | 0 <= i < |list| :: list[i] < m
    ensures Ascends(list + [m])
  {
  }

  // The elements in increasing order.
  function Sorted(s: set<nat>): (list: seq<nat>)
    ensures |list| == |s| && Ascends(list)
    ensures forall i | 0 <= i < |list| :: list[i] in s
    ensures forall k | k in s :: k in list
  {
    if s == {} then []
    else
      MaxExists(s);
      var m :| m in s && forall k | k in s :: k <= m;
      var rest := Sorted(s - {m});
      LargestLast(s, rest, m);
      hide Ascends;
      rest + [m]
  }

  lemma LargestLast(s: set<nat>, rest: seq<nat>, m: nat)
    requires m in s && forall k | k in s :: k <= m
    requires Ascends(rest) && |rest| == |s - {m}|
    requires (forall i | 0 <= i < |rest| :: rest[i] in s - {m}) && forall k | k in s - {m} :: k in rest
    ensures |rest + [m]| == |s| && Ascends(rest + [m])
    ensures (forall i | 0 <= i < |rest + [m]| :: (rest + [m])[i] in s) && forall k | k in s :: k in rest + [m]
  {
    AscendsAppend(rest, m);
    hide Ascends;
    forall k | k in s ensures k in rest + [m] {
      if k == m {
        assert (rest + [m])[|rest|] == m;
      } else {
        assert k in s - {m} && k in rest;
      }
    }
  }

  function ToSet(list: seq<nat>): set<nat> {
    set k | k in list
  }

  predicate Encodable(s: set<nat>) {
    |s| <= MAX_SACK_SEQNUMS && forall k | k in s :: k < FIELD_LIMIT
  }

  // The bytes a set of numbers is sent as; None stands for the ValueError.
  function EncodeSet(s: set<nat>): Option<seq<byte>> {
    if Encodable(s) then Some(EncodeSack(Sorted(s))) else None
  }

  // The number a padded bit string spells is the fields' base-2048 value shifted.
  lemma {:induction false} FieldBitsValue(list: seq<nat>)
    requires AllBelow(FIELD_LIMIT, list)
    ensures Value(2, FieldBits(list)) == Value(FIELD_LIMIT, list)
  {
    TwoToTheEleven();
    if list != [] {
      var last := list[|list| - 1];
      FieldBitsValue(list[..|list| - 1]);
      var bits := Digits(2, last, FIELD_BITS);
      ValueConcat(2, FieldBits(list[..|list| - 1]), bits);
      ValueOfAllDigits(2, last, FIELD_BITS);
    }
  }

  lemma PaddedBitsValue(list: seq<nat>)
    requires AllBelow(FIELD_LIMIT, list)
    ensures Value(2, PaddedBits(list)) == ShiftLeft(Value(FIELD_LIMIT, list), Padding(FIELD_BITS * |list|))
  {
    FieldBitsValue(list);
    var pad := Padding(FIELD_BITS * |list|);
    ValueConcat(2, FieldBits(list), Zeros(pad));
    ValueZeros(2, pad);
  }

  // Shifting by eleven bits and oring a number in appends it as a digit in base 2048.
  lemma ShiftOrAppends(list: seq<nat>, num: nat)
    requires num < FIELD_LIMIT
    ensures BitOr(Value(FIELD_LIMIT, list) * FIELD_LIMIT, num) == Value(FIELD_LIMIT, list + [num])
  {
    TwoToTheEleven();
    OrIsSum(Value(FIELD_LIMIT, list), num, FIELD_BITS);
    assert (list + [num])[..|list|] == list;
  }

  lemma ShiftedStream(list: seq<nat>, stream: nat, bits: nat, pad: nat)
    requires AllBelow(FIELD_LIMIT, list) && list != []
    requires stream == Value(FIELD_LIMIT, list) && bits == FIELD_BITS * |list| && pad == -(bits as int) % 32
    ensures ToBytes(ShiftLeft(stream, pad), (bits + pad) / 8) == EncodeSack(list)
  {
    PaddingAsWritten(bits);
    PaddedBitsValue(list);
  }

  // The loop of encode_sack_payload.
  method ShiftOr(list: seq<nat>) returns (bitstream: nat, bitLength: nat)
    requires AllBelow(FIELD_LIMIT, list)
    ensures bitstream == Value(FIELD_LIMIT, list) && bitLength == FIELD_BITS * |list|
  {
    bitstream, bitLength := 0, 0;
    for i := 0 to |list|
      invariant bitLength == FIELD_BITS * i
      invariant bitstream == Value(FIELD_LIMIT, list[..i])
    {
      assert list[..i + 1] == list[..i] + [list[i]];
      ShiftOrAppends(list[..i], list[i]);
      bitstream := BitOr(bitstream * FIELD_LIMIT, list[i]);
      bitLength := bitLength + FIELD_BITS;
    }
    assert list[..|list|] == list;
  }

  // encode_sack_payload as written: the shift-and-or encoder produces the very
  // bytes of the bit-string encoder.
  method EncodeSackPayload(seqnums: seq<nat>) returns (r: Option<seq<byte>>)
    ensures r == EncodeSet(ToSet(seqnums))
  {
    var ordered := ToSet(seqnums);
    if |ordered| > MAX_SACK_SEQNUMS {
      return None;
    }
    if exists k :: k in ordered && k >= FIELD_LIMIT {
      return None;
    }
    var list := Sorted(ordered);
    var bitstream, bitLength := ShiftOr(list);
    if bitLength == 0 {
      return Some([]);
    }
    var paddingBits := -(bitLength as int) % 32;
    ShiftedStream(list, bitstream, bitLength, paddingBits);
    return Some(ToBytes(ShiftLeft(bitstream, paddingBits), (bitLength + paddingBits) / 8));
  }

  // Trailing zeros are padding, except that one field always stays.
  function StripPadding(list: seq<nat>): seq<nat> {
    if |list| > 1 && list[|list| - 1] == 0 then StripPadding(list[..|list| - 1]) else list
  }

  // The bits after the last complete field are zero.
  predicate PaddingIsClear(payload: seq<byte>) {
    FromBytes(payload) % Pow(2, 8 * |payload| % FIELD_BITS) == 0
  }

  function DecodeSet(payload: seq<byte>): Option<seq<nat>> {
    if payload == [] then Some([])
    else if |payload| % 4 != 0 then None
    else if !PaddingIsClear(payload) then None
    else Some(StripPadding(Fields(payload)))
  }

  lemma LastBit(v: nat, n: nat)
    requires n > 0
    ensures Digits(2, v, n) == Digits(2, v / 2, n - 1) + [v % 2]
  {
  }

  ghost predicate LowBitsClear(bits: seq<nat>, k: nat)
    requires k <= |bits|
  {
    forall i | |bits| - k <= i < |bits| :: bits[i] == 0
  }

  lemma OneBitMore(init: seq<nat>, last: nat, k: nat)
    requires 0 < k <= |init| + 1
    ensures LowBitsClear(init + [last], k) <==> LowBitsClear(init, k - 1) && last == 0
  {
    assert forall i | 0 <= i < |init| :: (init + [last])[i] == init[i];
    assert (init + [last])[|init|] == last;
  }

  lemma NoPower()
    ensures Pow(2, 0) == 1
  {
  }

  lemma {:induction false} LowBitsZero(v: nat, n: nat, k: nat)
    requires k <= n
    ensures v % Pow(2, k) == 0 <==> LowBitsClear(Digits(2, v, n), k)
  {
    hide Pow, Digits, LowBitsClear;
    if k > 0 {
      LowBitsZero(v / 2, n - 1, k - 1);
      SplitMod(v, 2, k);
      LastBit(v, n);
      OneBitMore(Digits(2, v / 2, n - 1), v % 2, k);
    } else {
      NoPower();
      NoBits(Digits(2, v, n));
    }
  }

  lemma NoBits(bits: seq<nat>)
    ensures LowBitsClear(bits, 0)
  {
  }

  // A payload is refused exactly when it is no multiple of 4 bytes or a bit after its
  // last complete field is set.
  lemma RefusedExactly(payload: seq<byte>)
    ensures DecodeSet(payload).Some? <==>
              && |payload| % 4 == 0
              && forall i | 11 * (8 * |payload| / 11) <= i < 8 * |payload| :: PayloadBits(payload)[i] == 0
  {
    hide StripPadding, Fields, Pow, Digits;
    var n := 8 * |payload|;
    LowBitsZero(FromBytes(payload), n, n % FIELD_BITS);
    assert |PayloadBits(payload)| - n % FIELD_BITS == 11 * (n / 11);
  }

  // A decoded number has 11 bits.
  lemma DecodedFits(payload: seq<byte>)
    ensures DecodeSet(payload).Some? ==> forall n | n in DecodeSet(payload).value :: n < FIELD_LIMIT
  {
    hide PayloadBits, PaddingIsClear, Field, StripPadding;
    if DecodeSet(payload).Some? && payload != [] {
      var fields := Fields(payload);
      forall i | 0 <= i < |fields| ensures fields[i] < FIELD_LIMIT {
        FieldFits(payload, i);
      }
      StrippedKeeps(fields);
    }
  }

  lemma FieldFits(payload: seq<byte>, i: nat)
    requires FIELD_BITS * (i + 1) <= 8 * |payload|
    ensures Field(PayloadBits(payload), i) < FIELD_LIMIT
  {
    var bits := PayloadBits(payload);
    var part := bits[FIELD_BITS * i..FIELD_BITS * i + FIELD_BITS];
    assert AllBelow(2, bits);
    assert AllBelow(2, part);
    hide PayloadBits, Value;
    ValueBound(2, part);
    TwoToTheEleven();
  }

  lemma {:induction false} StrippedKeeps(list: seq<nat>)
    ensures forall n | n in StripPadding(list) :: n in list
  {
    if |list| > 1 && list[|list| - 1] == 0 {
      StrippedKeeps(list[..|list| - 1]);
    }
  }

  // Extracting a field by shift and mask reads the same number as slicing the
  // bit string.
  method ReadFields(payload: seq<byte>) returns (seqnums: seq<nat>)
    ensures seqnums == Fields(payload)
  {
    hide Digits, Value, Pow;
    var totalBits := |payload| * 8;
    var bitstream := FromBytes(payload);
    var count := totalBits / FIELD_BITS;
    seqnums := [];
    for index := 0 to count
      invariant |seqnums| == index && seqnums == Fields(payload)[..index]
    {
      var shift := totalBits - (index + 1) * FIELD_BITS;
      SliceIsShiftAndMask(bitstream, totalBits, FIELD_BITS * index, FIELD_BITS);
      assert Fields(payload)[index] == bitstream / Pow(2, shift) % Pow(2, FIELD_BITS);
      seqnums := seqnums + [bitstream / Pow(2, shift) % Pow(2, FIELD_BITS)];
    }
  }

  lemma NothingTrails(v: nat)
    ensures v % Pow(2, 0) == 0
  {
  }

  // decode_sack_payload as written.
  method DecodeSackPayload(payload: seq<byte>) returns (r: Option<seq<nat>>)
    ensures r == DecodeSet(payload)
  {
    hide Fields, Pow, Value;
    if payload == [] {
      return Some([]);
    }
    if |payload| % 4 != 0 {
      return None;
    }
    var trailing := |payload| * 8 % FIELD_BITS;
    NothingTrails(FromBytes(payload));
    if trailing != 0 && FromBytes(payload) % Pow(2, trailing) != 0 {
      return None;
    }
    var seqnums := ReadFields(payload);
    while |seqnums| > 1 && seqnums[|seqnums| - 1] == 0
      invariant StripPadding(seqnums) == StripPadding(Fields(payload))
    {
      seqnums := seqnums[..|seqnums| - 1];
    }
    return Some(seqnums);
  }

  lemma {:induction false} StripPaddingAppended(list: seq<nat>, n: nat)
    requires list != [] && (list[|list| - 1] != 0 || |list| == 1)
    ensures StripPadding(list + Zeros(n)) == list
  {
    var all := list + Zeros(n);
    if n == 0 {
      assert all == list;
    } else {
      assert all[..|all| - 1] == list + Zeros(n - 1);
      StripPaddingAppended(list, n - 1);
    }
  }

  lemma {:induction false} PaddingIsZero(v: nat, pad: nat, low: nat)
    requires low <= pad
    ensures ShiftLeft(v, pad) % Pow(2, low) == 0
  {
    PowAdd(2, pad - low, low);
    var q := v * Pow(2, pad - low);
    assert v * Pow(2, pad) == q * Pow(2, low);
    DivMod(q, Pow(2, low), 0);
  }

  // The stream an encoded list spells, read as one integer.
  lemma EncodedStream(list: seq<nat>)
    requires AllBelow(FIELD_LIMIT, list) && list != []
    ensures FromBytes(EncodeSack(list)) == ShiftLeft(Value(FIELD_LIMIT, list), Padding(FIELD_BITS * |list|))
  {
    var n := |PaddedBits(list)| / 8;
    PaddedBitsAreBits(list);
    PaddedBitsValue(list);
    assert EncodeSack(list) == ToBytes(Value(2, PaddedBits(list)), n);
    hide EncodeSack, PaddedBits, ShiftLeft;
    BitsSurviveBytes(PaddedBits(list), n);
  }

  lemma LeftoverIsZero(v: nat, n: nat, pad: nat)
    ensures ShiftLeft(v, pad) % Pow(2, (FIELD_BITS * n + pad) % FIELD_BITS) == 0
  {
    PaddingIsZero(v, pad, (FIELD_BITS * n + pad) % FIELD_BITS);
  }

  lemma PaddingAccepted(list: seq<nat>)
    requires AllBelow(FIELD_LIMIT, list) && list != []
    ensures PaddingIsClear(EncodeSack(list))
  {
    EncodedStream(list);
    assert 8 * |EncodeSack(list)| == FIELD_BITS * |list| + Padding(FIELD_BITS * |list|);
    LeftoverIsZero(Value(FIELD_LIMIT, list), |list|, Padding(FIELD_BITS * |list|));
  }

  lemma ReadBack(list: seq<nat>, payload: seq<byte>, extra: nat)
    requires list != [] && (list[|list| - 1] != 0 || |list| == 1)
    requires payload != [] && |payload| % 4 == 0
    requires PaddingIsClear(payload)
    requires Fields(payload) == list + Zeros(extra)
    ensures DecodeSet(payload) == Some(list)
  {
    StripPaddingAppended(list, extra);
  }

  lemma ExtraFields(list: seq<nat>) returns (extra: nat)
    requires AllBelow(FIELD_LIMIT, list) && list != []
    ensures Fields(EncodeSack(list)) == list + Zeros(extra)
  {
    EncodedFields(list);
    extra := Padding(FIELD_BITS * |list|) / FIELD_BITS;
  }

  lemma ListReadBack(list: seq<nat>)
    requires AllBelow(FIELD_LIMIT, list) && list != []
    requires list[|list| - 1] != 0 || |list| == 1
    ensures DecodeSet(EncodeSack(list)) == Some(list)
  {
    hide EncodeSack, DecodeSet, PaddingIsClear;
    PaddingAccepted(list);
    var extra := ExtraFields(list);
    ReadBack(list, EncodeSack(list), extra);
  }

  // groupe_20 reads back exactly the set it wrote, in increasing order, {0}
  // included.
  lemma SetRoundTrip(s: set<nat>)
    requires Encodable(s)
    ensures EncodeSet(s).Some? && DecodeSet(EncodeSet(s).value) == Some(Sorted(s))
    ensures |EncodeSet(s).value| % 4 == 0 && |EncodeSet(s).value| <= MAX_PAYLOAD
  {
    var list := Sorted(s);
    SackPayloadSize(list);
    if list != [] {
      assert |list| > 1 ==> list[0] < list[|list| - 1];
      ListReadBack(list);
    }
  }

  lemma StrippedSet(list: seq<nat>)
    requires Ascends(list)
    ensures StripZeros(list) == if list == [0] then [] else list
  {
    if |list| > 1 {
      assert list[0] < list[|list| - 1];
    }
  }

  lemma SortedZero(s: set<nat>)
    ensures Sorted(s) == [0] <==> s == {0}
  {
    hide Sorted, Ascends;
    var list := Sorted(s);
    if list == [0] {
      assert list[0] in s;
      assert forall k | k in s :: k in list && k == 0;
    }
    if s == {0} {
      assert |list| == 1 && list[0] in s;
      assert list == [list[0]];
    }
  }

  // src/protocol.py reads groupe_20's payload as the same set, unless it is {0}.
  lemma SetReadBySrc(s: set<nat>)
    requires Encodable(s)
    ensures DecodeSack(EncodeSet(s).value) == if s == {0} then [] else Sorted(s)
  {
    var list := Sorted(s);
    DecodeOfEncode(list);
    StrippedSet(list);
    SortedZero(s);
  }
}
