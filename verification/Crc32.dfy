// CRC-32 as defined bit by bit in section 8 of RFC 1952, which is what
// zlib.crc32 computes.
module Crc32 {
  import opened Packets
  import opened Positional

  // One bit: shift right, and fold the reflected polynomial in if a 1 fell out.
  function ShiftBit(c: bv32): bv32 {
    if c & 1 == 1 then (c >> 1) ^ 0xEDB88320 else c >> 1
  }

  function ShiftBits(c: bv32, n: nat): bv32
    decreases n
  {
    if n == 0 then c else ShiftBits(ShiftBit(c), n - 1)
  }

  function BitIf(on: bool, mask: bv32): bv32 {
    if on then mask else 0
  }

  // A byte as a register value.
  function Word(b: byte): bv32 {
    BitIf(b % 2 == 1, 1) | BitIf(b / 2 % 2 == 1, 2) | BitIf(b / 4 % 2 == 1, 4) | BitIf(b / 8 % 2 == 1, 8)
    | BitIf(b / 16 % 2 == 1, 16) | BitIf(b / 32 % 2 == 1, 32) | BitIf(b / 64 % 2 == 1, 64)
    | BitIf(b / 128 % 2 == 1, 128)
  }

  function Update(c: bv32, b: byte): bv32 {
    ShiftBits(c ^ Word(b), 8)
  }

  function UpdateAll(c: bv32, data: seq<byte>): bv32
    decreases |data|
  {
    if data == [] then c else UpdateAll(Update(c, data[0]), data[1..])
  }

  function OneIf(on: bool): nat {
    if on then 1 else 0
  }

  predicate Bit(c: bv32, mask: bv32) {
    c & mask == mask
  }

  // The number with lowest binary digit b and the others of rest.
  function Digit(b: bool, rest: nat): nat {
    OneIf(b) + 2 * rest
  }

  // The byte with these binary digits, lowest first.
  function FromDigits(b0: bool, b1: bool, b2: bool, b3: bool, b4: bool, b5: bool, b6: bool, b7: bool): byte {
    Digit(b0, Digit(b1, Digit(b2, Digit(b3, Digit(b4, Digit(b5, Digit(b6, Digit(b7, 0))))))))
  }

  // The low byte of a register.
  function LowByte(c: bv32): byte {
    FromDigits(Bit(c, 1), Bit(c, 2), Bit(c, 4), Bit(c, 8), Bit(c, 16), Bit(c, 32), Bit(c, 64), Bit(c, 128))
  }

  function Join(b3: byte, b2: byte, b1: byte, b0: byte): (v: nat)
    ensures v < 0x1_0000_0000
  {
    ((b3 * 256 + b2) * 256 + b1) * 256 + b0
  }

  function Unsigned(c: bv32): (v: nat)
    ensures v < 0x1_0000_0000
  {
    Join(LowByte(c >> 24), LowByte(c >> 16), LowByte(c >> 8), LowByte(c))
  }

  function Finish(c: bv32): (v: nat)
    ensures v < 0x1_0000_0000
  {
    Unsigned(c ^ 0xFFFFFFFF)
  }

  function Crc(data: seq<byte>): (v: nat)
    ensures v < 0x1_0000_0000
  {
    Finish(UpdateAll(0xFFFFFFFF, data))
  }

  // --- every step is injective ---------------------------------------------

  lemma ShiftBitInjective(c: bv32, d: bv32)
    requires ShiftBit(c) == ShiftBit(d)
    ensures c == d
  {
  }

  lemma {:induction false} ShiftBitsInjective(c: bv32, d: bv32, n: nat)
    requires ShiftBits(c, n) == ShiftBits(d, n)
    ensures c == d
    decreases n
  {
    if n > 0 {
      ShiftBitsInjective(ShiftBit(c), ShiftBit(d), n - 1);
      ShiftBitInjective(c, d);
    }
  }

  lemma XorInjective(c: bv32, d: bv32, e: bv32)
    ensures c ^ e == d ^ e ==> c == d
    ensures e ^ c == e ^ d ==> c == d
  {
  }

  lemma WordBits(b: byte)
    ensures Word(b) & 1 == 1 <==> b % 2 == 1
    ensures Word(b) & 2 == 2 <==> b / 2 % 2 == 1
    ensures Word(b) & 4 == 4 <==> b / 4 % 2 == 1
    ensures Word(b) & 8 == 8 <==> b / 8 % 2 == 1
    ensures Word(b) & 16 == 16 <==> b / 16 % 2 == 1
    ensures Word(b) & 32 == 32 <==> b / 32 % 2 == 1
    ensures Word(b) & 64 == 64 <==> b / 64 % 2 == 1
    ensures Word(b) & 128 == 128 <==> b / 128 % 2 == 1
  {
  }

  lemma HalfAndParity(a: nat, b: nat)
    requires a / 2 == b / 2 && (a % 2 == 1 <==> b % 2 == 1)
    ensures a == b
  {
  }

  lemma Halves(a: byte)
    ensures a / 128 / 2 == 0 && a / 64 / 2 == a / 128 && a / 32 / 2 == a / 64 && a / 16 / 2 == a / 32
    ensures a / 8 / 2 == a / 16 && a / 4 / 2 == a / 8 && a / 2 / 2 == a / 4
  {
  }

  // Binary digits determine a byte.
  lemma ByteFromBits(a: byte, b: byte)
    requires a % 2 == 1 <==> b % 2 == 1
    requires a / 2 % 2 == 1 <==> b / 2 % 2 == 1
    requires a / 4 % 2 == 1 <==> b / 4 % 2 == 1
    requires a / 8 % 2 == 1 <==> b / 8 % 2 == 1
    requires a / 16 % 2 == 1 <==> b / 16 % 2 == 1
    requires a / 32 % 2 == 1 <==> b / 32 % 2 == 1
    requires a / 64 % 2 == 1 <==> b / 64 % 2 == 1
    requires a / 128 % 2 == 1 <==> b / 128 % 2 == 1
    ensures a == b
  {
    Halves(a);
    Halves(b);
    HalfAndParity(a / 128, b / 128);
    HalfAndParity(a / 64, b / 64);
    HalfAndParity(a / 32, b / 32);
    HalfAndParity(a / 16, b / 16);
    HalfAndParity(a / 8, b / 8);
    HalfAndParity(a / 4, b / 4);
    HalfAndParity(a / 2, b / 2);
    HalfAndParity(a, b);
  }

  lemma WordInjective(a: byte, b: byte)
    requires Word(a) == Word(b)
    ensures a == b
  {
    hide Word;
    WordBits(a);
    WordBits(b);
    ByteFromBits(a, b);
  }

  lemma UpdateKeepsDistinct(c: bv32, d: bv32, a: byte)
    requires c != d
    ensures Update(c, a) != Update(d, a)
  {
    hide ShiftBits, Word;
    if Update(c, a) == Update(d, a) {
      ShiftBitsInjective(c ^ Word(a), d ^ Word(a), 8);
      XorInjective(c, d, Word(a));
    }
  }

  lemma UpdateTellsBytes(c: bv32, a: byte, b: byte)
    requires a != b
    ensures Update(c, a) != Update(c, b)
  {
    hide ShiftBits, Word;
    if Update(c, a) == Update(c, b) {
      ShiftBitsInjective(c ^ Word(a), c ^ Word(b), 8);
      XorInjective(Word(a), Word(b), c);
      WordInjective(a, b);
    }
  }

  lemma {:induction false} UpdateAllInjective(c: bv32, d: bv32, data: seq<byte>)
    requires c != d
    ensures UpdateAll(c, data) != UpdateAll(d, data)
    decreases |data|
  {
    if data != [] {
      UpdateKeepsDistinct(c, d, data[0]);
      UpdateAllInjective(Update(c, data[0]), Update(d, data[0]), data[1..]);
    }
  }

  lemma {:induction false} OneByteChangesRegister(c: bv32, data: seq<byte>, at: nat, b: byte)
    requires at < |data| && data[at] != b
    ensures UpdateAll(c, data) != UpdateAll(c, data[at := b])
    decreases |data|
  {
    var changed := data[at := b];
    if at == 0 {
      UpdateTellsBytes(c, data[0], b);
      assert changed[1..] == data[1..];
      UpdateAllInjective(Update(c, data[0]), Update(c, b), data[1..]);
    } else {
      assert changed[1..] == data[1..][at - 1 := b];
      OneByteChangesRegister(Update(c, data[0]), data[1..], at - 1, b);
    }
  }

  lemma LowestDigit(b: bool, c: bool, x: nat, y: nat)
    ensures Digit(b, x) == Digit(c, y) ==> b == c && x == y
  {
  }

  // A byte has one binary form.
  lemma SameDigits(b0: bool, b1: bool, b2: bool, b3: bool, b4: bool, b5: bool, b6: bool, b7: bool,
                   c0: bool, c1: bool, c2: bool, c3: bool, c4: bool, c5: bool, c6: bool, c7: bool)
    requires FromDigits(b0, b1, b2, b3, b4, b5, b6, b7) == FromDigits(c0, c1, c2, c3, c4, c5, c6, c7)
    ensures b0 == c0 && b1 == c1 && b2 == c2 && b3 == c3 && b4 == c4 && b5 == c5 && b6 == c6 && b7 == c7
  {
    hide Digit;
    var x7, y7 := Digit(b7, 0), Digit(c7, 0);
    var x6, y6 := Digit(b6, x7), Digit(c6, y7);
    var x5, y5 := Digit(b5, x6), Digit(c5, y6);
    var x4, y4 := Digit(b4, x5), Digit(c4, y5);
    var x3, y3 := Digit(b3, x4), Digit(c3, y4);
    var x2, y2 := Digit(b2, x3), Digit(c2, y3);
    var x1, y1 := Digit(b1, x2), Digit(c1, y2);
    LowestDigit(b0, c0, x1, y1);
    LowestDigit(b1, c1, x2, y2);
    LowestDigit(b2, c2, x3, y3);
    LowestDigit(b3, c3, x4, y4);
    LowestDigit(b4, c4, x5, y5);
    LowestDigit(b5, c5, x6, y6);
    LowestDigit(b6, c6, x7, y7);
    LowestDigit(b7, c7, 0, 0);
  }

  ghost predicate SameBits(c: bv32, d: bv32) {
    && Bit(c, 1) == Bit(d, 1) && Bit(c, 2) == Bit(d, 2) && Bit(c, 4) == Bit(d, 4) && Bit(c, 8) == Bit(d, 8)
    && Bit(c, 16) == Bit(d, 16) && Bit(c, 32) == Bit(d, 32) && Bit(c, 64) == Bit(d, 64) && Bit(c, 128) == Bit(d, 128)
  }

  lemma SameLowBits(c: bv32, d: bv32)
    requires SameBits(c, d)
    ensures c & 0xFF == d & 0xFF
  {
  }

  lemma LowByteTellsBits(c: bv32, d: bv32)
    requires LowByte(c) == LowByte(d)
    ensures SameBits(c, d)
  {
    hide FromDigits, Bit;
    SameDigits(Bit(c, 1), Bit(c, 2), Bit(c, 4), Bit(c, 8), Bit(c, 16), Bit(c, 32), Bit(c, 64), Bit(c, 128),
               Bit(d, 1), Bit(d, 2), Bit(d, 4), Bit(d, 8), Bit(d, 16), Bit(d, 32), Bit(d, 64), Bit(d, 128));
  }

  lemma LowByteInjective(c: bv32, d: bv32)
    requires LowByte(c) == LowByte(d)
    ensures c & 0xFF == d & 0xFF
  {
    hide LowByte, SameBits;
    LowByteTellsBits(c, d);
    SameLowBits(c, d);
  }

  lemma SameBytes(c: bv32, d: bv32)
    requires (c >> 24) & 0xFF == (d >> 24) & 0xFF && (c >> 16) & 0xFF == (d >> 16) & 0xFF
    requires (c >> 8) & 0xFF == (d >> 8) & 0xFF && c & 0xFF == d & 0xFF
    ensures c == d
  {
  }

  lemma FourBytes(a3: byte, a2: byte, a1: byte, a0: byte, b3: byte, b2: byte, b1: byte, b0: byte)
    requires Join(a3, a2, a1, a0) == Join(b3, b2, b1, b0)
    ensures a3 == b3 && a2 == b2 && a1 == b1 && a0 == b0
  {
  }

  lemma UnsignedBytes(c: bv32, d: bv32)
    requires Unsigned(c) == Unsigned(d)
    ensures LowByte(c >> 24) == LowByte(d >> 24) && LowByte(c >> 16) == LowByte(d >> 16)
    ensures LowByte(c >> 8) == LowByte(d >> 8) && LowByte(c) == LowByte(d)
  {
    hide LowByte, Join;
    FourBytes(LowByte(c >> 24), LowByte(c >> 16), LowByte(c >> 8), LowByte(c),
              LowByte(d >> 24), LowByte(d >> 16), LowByte(d >> 8), LowByte(d));
  }

  lemma SameHighBytes(c: bv32, d: bv32)
    requires Unsigned(c) == Unsigned(d)
    ensures (c >> 24) & 0xFF == (d >> 24) & 0xFF
    ensures (c >> 16) & 0xFF == (d >> 16) & 0xFF
  {
    hide LowByte, Unsigned;
    UnsignedBytes(c, d);
    LowByteInjective(c >> 24, d >> 24);
    LowByteInjective(c >> 16, d >> 16);
  }

  lemma SameLowBytes(c: bv32, d: bv32)
    requires Unsigned(c) == Unsigned(d)
    ensures (c >> 8) & 0xFF == (d >> 8) & 0xFF
    ensures c & 0xFF == d & 0xFF
  {
    hide LowByte, Unsigned;
    UnsignedBytes(c, d);
    LowByteInjective(c >> 8, d >> 8);
    LowByteInjective(c, d);
  }

  lemma UnsignedInjective(c: bv32, d: bv32)
    requires Unsigned(c) == Unsigned(d)
    ensures c == d
  {
    hide Unsigned;
    SameHighBytes(c, d);
    SameLowBytes(c, d);
    SameBytes(c, d);
  }

  lemma FinishInjective(c: bv32, d: bv32)
    requires c != d
    ensures Finish(c) != Finish(d)
  {
    hide Unsigned;
    if Finish(c) == Finish(d) {
      UnsignedInjective(c ^ 0xFFFFFFFF, d ^ 0xFFFFFFFF);
      XorInjective(c, d, 0xFFFFFFFF);
    }
  }

  // A CRC tells apart any two messages that differ in one byte.
  lemma OneByteChangesCrc(data: seq<byte>, at: nat, b: byte)
    requires at < |data| && data[at] != b
    ensures Crc(data) != Crc(data[at := b])
  {
    hide UpdateAll, Finish;
    OneByteChangesRegister(0xFFFFFFFF, data, at, b);
    FinishInjective(UpdateAll(0xFFFFFFFF, data), UpdateAll(0xFFFFFFFF, data[at := b]));
  }

  // Eight single steps, written out.
  function EightBits(c: bv32): bv32 {
    ShiftBit(ShiftBit(ShiftBit(ShiftBit(ShiftBit(ShiftBit(ShiftBit(ShiftBit(c))))))))
  }

  lemma EightSteps(c: bv32)
    ensures ShiftBits(c, 8) == EightBits(c)
  {
    hide ShiftBit;
  }

  lemma NextByte(c: bv32, b: byte, d: bv32, message: seq<byte>, i: nat)
    requires i < |message| && message[i] == b && EightBits(c ^ Word(b)) == d
    ensures UpdateAll(c, message[i..]) == UpdateAll(d, message[i + 1..])
  {
    hide Word, EightBits, ShiftBits;
    EightSteps(c ^ Word(b));
    assert message[i..][0] == b && message[i..][1..] == message[i + 1..];
  }

  lemma NoBytesLeft(c: bv32, message: seq<byte>)
    ensures UpdateAll(c, message[|message|..]) == c
  {
  }

  lemma FirstByte()
    ensures LowByte(0xcbf43926 >> 24) == 0xcb
  {
    assert Bit(0xcbf43926 >> 24, 1) && Bit(0xcbf43926 >> 24, 2);
    assert !Bit(0xcbf43926 >> 24, 4) && Bit(0xcbf43926 >> 24, 8);
    assert !Bit(0xcbf43926 >> 24, 16) && !Bit(0xcbf43926 >> 24, 32);
    assert Bit(0xcbf43926 >> 24, 64) && Bit(0xcbf43926 >> 24, 128);
    hide Bit;
    assert FromDigits(true, true, false, true, false, false, true, true) == 0xcb;
  }

  lemma SecondByte()
    ensures LowByte(0xcbf43926 >> 16) == 0xf4
  {
    assert !Bit(0xcbf43926 >> 16, 1) && !Bit(0xcbf43926 >> 16, 2);
    assert Bit(0xcbf43926 >> 16, 4) && !Bit(0xcbf43926 >> 16, 8);
    assert Bit(0xcbf43926 >> 16, 16) && Bit(0xcbf43926 >> 16, 32);
    assert Bit(0xcbf43926 >> 16, 64) && Bit(0xcbf43926 >> 16, 128);
    hide Bit;
    assert FromDigits(false, false, true, false, true, true, true, true) == 0xf4;
  }

  lemma ThirdByte()
    ensures LowByte(0xcbf43926 >> 8) == 0x39
  {
    assert Bit(0xcbf43926 >> 8, 1) && !Bit(0xcbf43926 >> 8, 2) && !Bit(0xcbf43926 >> 8, 4) && Bit(0xcbf43926 >> 8, 8);
    assert Bit(0xcbf43926 >> 8, 16) && Bit(0xcbf43926 >> 8, 32);
    assert !Bit(0xcbf43926 >> 8, 64) && !Bit(0xcbf43926 >> 8, 128);
    hide Bit;
    assert FromDigits(true, false, false, true, true, true, false, false) == 0x39;
  }

  lemma LastByte()
    ensures LowByte(0xcbf43926) == 0x26
  {
    assert !Bit(0xcbf43926, 1) && Bit(0xcbf43926, 2) && Bit(0xcbf43926, 4) && !Bit(0xcbf43926, 8);
    assert !Bit(0xcbf43926, 16) && Bit(0xcbf43926, 32) && !Bit(0xcbf43926, 64) && !Bit(0xcbf43926, 128);
    hide Bit;
    assert FromDigits(false, true, true, false, false, true, false, false) == 0x26;
  }

  lemma FinishedRegister()
    ensures Finish(0x340bc6d9) == 0xcbf43926
  {
    hide LowByte;
    FirstByte();
    SecondByte();
    ThirdByte();
    LastByte();
  }

  // The nine digits 1 to 9.
  const CHECK_MESSAGE: seq<byte> := [0x31, 0x32, 0x33, 0x34, 0x35, 0x36, 0x37, 0x38, 0x39]

  lemma DigitsOneAndTwo(message: seq<byte>)
    requires message == CHECK_MESSAGE
    ensures UpdateAll(0xffffffff, message[0..]) == UpdateAll(0xb0acbb32, message[2..])
  {
    hide UpdateAll;
    NextByte(0xffffffff, 0x31, 0x7c231048, message, 0);
    NextByte(0x7c231048, 0x32, 0xb0acbb32, message, 1);
  }

  lemma DigitsThreeAndFour(message: seq<byte>)
    requires message == CHECK_MESSAGE
    ensures UpdateAll(0xb0acbb32, message[2..]) == UpdateAll(0x641c1f5c, message[4..])
  {
    hide UpdateAll;
    NextByte(0xb0acbb32, 0x33, 0x77b79c2d, message, 2);
    NextByte(0x77b79c2d, 0x34, 0x641c1f5c, message, 3);
  }

  lemma DigitsFiveAndSix(message: seq<byte>)
    requires message == CHECK_MESSAGE
    ensures UpdateAll(0x641c1f5c, message[4..]) == UpdateAll(0xf68d2c9e, message[6..])
  {
    hide UpdateAll;
    NextByte(0x641c1f5c, 0x35, 0x340ac5e3, message, 4);
    NextByte(0x340ac5e3, 0x36, 0xf68d2c9e, message, 5);
  }

  lemma DigitsSevenToNine(message: seq<byte>)
    requires message == CHECK_MESSAGE
    ensures UpdateAll(0xf68d2c9e, message[6..]) == UpdateAll(0x340bc6d9, message[9..])
  {
    hide UpdateAll;
    NextByte(0xf68d2c9e, 0x37, 0xaffc9660, message, 6);
    NextByte(0xaffc9660, 0x38, 0x651f2550, message, 7);
    NextByte(0x651f2550, 0x39, 0x340bc6d9, message, 8);
  }

  // The usual check value of CRC-32.
  lemma CheckValue()
    ensures Crc(CHECK_MESSAGE) == 0xcbf43926
  {
    hide UpdateAll, Finish;
    assert CHECK_MESSAGE[0..] == CHECK_MESSAGE;
    DigitsOneAndTwo(CHECK_MESSAGE);
    DigitsThreeAndFour(CHECK_MESSAGE);
    DigitsFiveAndSix(CHECK_MESSAGE);
    DigitsSevenToNine(CHECK_MESSAGE);
    NoBytesLeft(0x340bc6d9, CHECK_MESSAGE);
    FinishedRegister();
  }
}
