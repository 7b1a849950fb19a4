/** CRC-32 as section 8 of RFC 1952 defines it, the bitwise loop the firmware runs instead of
    a table, and the two injectivity facts that make it catch corruption. */
module Crc32 {
  import opened Bytes

  const POLY: bv32 := 0xEDB88320

  /** One hexadecimal digit as a word, and back; the casts between numbers and words go digit by digit. */
  function Digit(n: int): bv32
    requires 0 <= n < 16
  {
    if n < 8 then
      if n < 4 then if n < 2 then if n == 0 then 0 else 1 else if n == 2 then 2 else 3
      else if n < 6 then if n == 4 then 4 else 5 else if n == 6 then 6 else 7
    else
      if n < 12 then if n < 10 then if n == 8 then 8 else 9 else if n == 10 then 10 else 11
      else if n < 14 then if n == 12 then 12 else 13 else if n == 14 then 14 else 15
  }

  function Number(d: bv32): (n: int)
    ensures 0 <= n < 16
  {
    (if d & 8 != 0 then 8 else 0) + (if d & 4 != 0 then 4 else 0) + (if d & 2 != 0 then 2 else 0)
    + (if d & 1 != 0 then 1 else 0)
  }

  function Low4(w: bv32): bv32
  {
    w & 0xF
  }

  lemma NumberOfDigit(n: int)
    requires 0 <= n < 16
    ensures Number(Digit(n)) == n && Low4(Digit(n)) == Digit(n)
  {
  }

  lemma DigitOfNumber(d: bv32)
    requires Low4(d) == d
    ensures Digit(Number(d)) == d
  {
  }

  function Join(high: bv32, low: bv32): bv32
  {
    (high << 4) | low
  }

  /** A byte as a 32-bit word, and the low byte of a word. */
  function Word(b: byte): bv32
  {
    Join(Digit(b / 16), Digit(b % 16))
  }

  function High4(w: bv32): bv32
  {
    (w >> 4) & 0xF
  }

  function LowByte(w: bv32): byte
  {
    16 * Number(High4(w)) + Number(Low4(w))
  }

  /** Exclusive-or and the two shifts the register makes, named so that proofs can treat them as symbols. */
  function Xor(a: bv32, b: bv32): bv32
  {
    a ^ b
  }

  function Shr1(a: bv32): bv32
  {
    a >> 1
  }

  function LowBit(a: bv32): bv32
  {
    a & 1
  }

  function Shr8(a: bv32): bv32
  {
    a >> 8
  }

  function Low8(a: bv32): bv32
  {
    a & 0xFF
  }

  /** One step of the table construction. */
  function ShiftBit(c: bv32): bv32
  {
    if LowBit(c) == 1 then Xor(POLY, Shr1(c)) else Shr1(c)
  }

  function ShiftBits(c: bv32, n: nat): bv32
    decreases n
  {
    if n == 0 then c else ShiftBits(ShiftBit(c), n - 1)
  }

  /** Entry x of the 256-entry table. */
  function TableEntry(x: bv32): bv32
  {
    ShiftBits(x, 8)
  }

  /** The effect of one byte on the running value, as the standard writes it with its table. */
  function Update(c: bv32, b: byte): bv32
  {
    Xor(TableEntry(Low8(Xor(c, Word(b)))), Shr8(c))
  }

  function Fold(c: bv32, data: seq<byte>): bv32
    decreases |data|
  {
    if data == [] then c else Fold(Update(c, data[0]), data[1..])
  }

  /** The checksum: initial value and final exclusive-or are both all ones. */
  function Checksum(data: seq<byte>): bv32
  {
    Xor(Fold(0xFFFF_FFFF, data), 0xFFFF_FFFF)
  }

  function Byte1(w: bv32): bv32
  {
    (w >> 8) & 0xFF
  }

  function Byte2(w: bv32): bv32
  {
    (w >> 16) & 0xFF
  }

  function Byte3(w: bv32): bv32
  {
    (w >> 24) & 0xFF
  }

  /** The four bytes of a word, least significant first, and back. */
  function Le32(w: bv32): (r: seq<byte>)
  {
    [LowByte(Low8(w)), LowByte(Byte1(w)), LowByte(Byte2(w)), LowByte(Byte3(w))]
  }

  function Pack(a: bv32, b: bv32, c: bv32, d: bv32): bv32
  {
    a | (b << 8) | (c << 16) | (d << 24)
  }

  function FromLe32(b0: byte, b1: byte, b2: byte, b3: byte): bv32
  {
    Pack(Word(b0), Word(b1), Word(b2), Word(b3))
  }

  // --- words and bytes ---

  lemma SplitJoin(high: bv32, low: bv32)
    requires Low4(high) == high && Low4(low) == low
    ensures High4(Join(high, low)) == high && Low4(Join(high, low)) == low && Low8(Join(high, low)) == Join(high, low)
  {
  }

  lemma LowByteOfWord(b: byte)
    ensures LowByte(Word(b)) == b && Low8(Word(b)) == Word(b)
  {
    hide Number, Digit, Join, Low4, High4, Low8;
    NumberOfDigit(b / 16);
    NumberOfDigit(b % 16);
    SplitJoin(Digit(b / 16), Digit(b % 16));
  }

  lemma WordInjective(a: byte, b: byte)
    requires Word(a) == Word(b)
    ensures a == b
  {
    hide *;
    LowByteOfWord(a);
    LowByteOfWord(b);
  }

  lemma JoinSplit(w: bv32)
    ensures Join(High4(w), Low4(w)) == Low8(w)
    ensures Low4(High4(w)) == High4(w) && Low4(Low4(w)) == Low4(w)
  {
  }

  lemma WordOfLowByte(w: bv32)
    ensures Word(LowByte(w)) == Low8(w)
  {
    hide Number, Digit, Join, Low4, High4, Low8;
    JoinSplit(w);
    DigitOfNumber(High4(w));
    DigitOfNumber(Low4(w));
    var h, l := Number(High4(w)), Number(Low4(w));
    assert LowByte(w) / 16 == h && LowByte(w) % 16 == l;
  }

  lemma PackBytes(w: bv32)
    ensures Pack(Low8(w), Byte1(w), Byte2(w), Byte3(w)) == w
    ensures Low8(Low8(w)) == Low8(w) && Low8(Byte1(w)) == Byte1(w)
    ensures Low8(Byte2(w)) == Byte2(w) && Low8(Byte3(w)) == Byte3(w)
  {
  }

  lemma BytesOfPack(a: bv32, b: bv32, c: bv32, d: bv32)
    requires Low8(a) == a && Low8(b) == b && Low8(c) == c && Low8(d) == d
    ensures var w := Pack(a, b, c, d); Low8(w) == a && Byte1(w) == b && Byte2(w) == c && Byte3(w) == d
  {
  }

  /** Four bytes read as a word are the bytes the word is written as. */
  lemma FromLe32RoundTrip(a: byte, b: byte, c: byte, d: byte)
    ensures Le32(FromLe32(a, b, c, d)) == [a, b, c, d]
  {
    hide Word, LowByte, Low8, Byte1, Byte2, Byte3, Pack;
    LowByteOfWord(a);
    LowByteOfWord(b);
    LowByteOfWord(c);
    LowByteOfWord(d);
    BytesOfPack(Word(a), Word(b), Word(c), Word(d));
  }

  /** Printing a checksum and reading it back. */
  lemma Le32RoundTrip(w: bv32)
    ensures FromLe32(Le32(w)[0], Le32(w)[1], Le32(w)[2], Le32(w)[3]) == w
  {
    hide Word, LowByte, Low8, Byte1, Byte2, Byte3, Pack;
    PackBytes(w);
    WordOfLowByte(Low8(w));
    WordOfLowByte(Byte1(w));
    WordOfLowByte(Byte2(w));
    WordOfLowByte(Byte3(w));
  }

  // --- the shift register is linear over exclusive-or ---

  lemma XorShr1(a: bv32, b: bv32)
    ensures Shr1(Xor(a, b)) == Xor(Shr1(a), Shr1(b))
  {
  }

  lemma XorLowBit(a: bv32, b: bv32)
    ensures LowBit(a) == 0 || LowBit(a) == 1
    ensures LowBit(b) == 0 || LowBit(b) == 1
    ensures LowBit(Xor(a, b)) == if LowBit(a) == LowBit(b) then 0 else 1
  {
  }

  lemma XorLeft(p: bv32, a: bv32, b: bv32)
    ensures Xor(p, Xor(a, b)) == Xor(Xor(p, a), b)
  {
  }

  lemma XorRight(p: bv32, a: bv32, b: bv32)
    ensures Xor(p, Xor(a, b)) == Xor(a, Xor(p, b))
  {
  }

  lemma XorSelf(p: bv32, a: bv32)
    ensures Xor(p, Xor(p, a)) == a
  {
  }

  lemma XorBoth(p: bv32, a: bv32, b: bv32)
    ensures Xor(Xor(p, a), Xor(p, b)) == Xor(a, b)
  {
    hide Xor;
    XorRight(p, Xor(p, a), b);
    XorLeft(p, a, b);
    XorSelf(p, Xor(a, b));
  }

  lemma ShiftBitXor(a: bv32, b: bv32)
    ensures ShiftBit(Xor(a, b)) == Xor(ShiftBit(a), ShiftBit(b))
  {
    hide Xor, Shr1, LowBit;
    XorShr1(a, b);
    XorLowBit(a, b);
    if LowBit(a) == 1 {
      if LowBit(b) == 1 {
        XorBoth(POLY, Shr1(a), Shr1(b));
      } else {
        XorLeft(POLY, Shr1(a), Shr1(b));
      }
    } else if LowBit(b) == 1 {
      XorRight(POLY, Shr1(a), Shr1(b));
    }
  }

  lemma {:induction false} ShiftBitsXor(a: bv32, b: bv32, n: nat)
    ensures ShiftBits(Xor(a, b), n) == Xor(ShiftBits(a, n), ShiftBits(b, n))
    decreases n
  {
    hide ShiftBit, Xor, Shr1, LowBit;
    if n > 0 {
      ShiftBitXor(a, b);
      ShiftBitsXor(ShiftBit(a), ShiftBit(b), n - 1);
    }
  }

  lemma LowBitsClear(h: bv32)
    requires Low8(h) == 0
    ensures LowBit(h) == 0 && LowBit(Shr1(h)) == 0
    ensures LowBit(Shr1(Shr1(h))) == 0 && LowBit(Shr1(Shr1(Shr1(h)))) == 0
    ensures Low4(Shr1(Shr1(Shr1(Shr1(h))))) == 0
  {
  }

  lemma NibbleClear(h: bv32)
    requires Low4(h) == 0
    ensures LowBit(h) == 0 && LowBit(Shr1(h)) == 0
    ensures LowBit(Shr1(Shr1(h))) == 0 && LowBit(Shr1(Shr1(Shr1(h)))) == 0
  {
  }

  lemma EightShifts(h: bv32)
    ensures Shr1(Shr1(Shr1(Shr1(Shr1(Shr1(Shr1(Shr1(h)))))))) == Shr8(h)
  {
  }

  lemma ShiftEight(h: bv32, h1: bv32, h2: bv32, h3: bv32, h4: bv32, h5: bv32, h6: bv32, h7: bv32, h8: bv32)
    requires ShiftBit(h) == h1 && ShiftBit(h1) == h2 && ShiftBit(h2) == h3 && ShiftBit(h3) == h4
    requires ShiftBit(h4) == h5 && ShiftBit(h5) == h6 && ShiftBit(h6) == h7 && ShiftBit(h7) == h8
    ensures ShiftBits(h, 8) == h8
  {
    hide ShiftBit;
    assert ShiftBits(h7, 1) == ShiftBits(h8, 0);
    assert ShiftBits(h6, 2) == ShiftBits(h7, 1);
    assert ShiftBits(h5, 3) == ShiftBits(h6, 2);
    assert ShiftBits(h4, 4) == ShiftBits(h5, 3);
    assert ShiftBits(h3, 5) == ShiftBits(h4, 4);
    assert ShiftBits(h2, 6) == ShiftBits(h3, 5);
    assert ShiftBits(h1, 7) == ShiftBits(h2, 6);
  }

  /** Eight shifts of a word whose low byte is clear are a plain shift by eight. */
  lemma ShiftHigh(h: bv32)
    requires Low8(h) == 0
    ensures ShiftBits(h, 8) == Shr8(h)
  {
    hide Xor, Shr1, LowBit, Shr8, Low8, Low4;
    LowBitsClear(h);
    NibbleClear(Shr1(Shr1(Shr1(Shr1(h)))));
    EightShifts(h);
    var h1 := Shr1(h);
    var h2 := Shr1(h1);
    var h3 := Shr1(h2);
    var h4 := Shr1(h3);
    var h5 := Shr1(h4);
    var h6 := Shr1(h5);
    var h7 := Shr1(h6);
    ShiftEight(h, h1, h2, h3, h4, h5, h6, h7, Shr1(h7));
  }

  lemma SplitWord(x: bv32) returns (high: bv32)
    ensures x == Xor(Low8(x), high) && Low8(high) == 0 && Shr8(high) == Shr8(x)
  {
    high := x & 0xFFFF_FF00;
  }

  lemma XorShift(c: bv32, w: bv32)
    requires Shr8(w) == 0
    ensures Shr8(Xor(c, w)) == Shr8(c)
  {
  }

  lemma SmallWord(w: bv32)
    requires Low8(w) == w
    ensures Shr8(w) == 0
  {
  }

  lemma WordSmall(b: byte)
    ensures Shr8(Word(b)) == 0
  {
    hide *;
    LowByteOfWord(b);
    SmallWord(Word(b));
  }

  /** The standard's table step is eight shifts of the register with the byte mixed in. */
  lemma UpdateIsEightShifts(c: bv32, b: byte)
    ensures ShiftBits(Xor(c, Word(b)), 8) == Update(c, b)
  {
    hide ShiftBits, Word, Xor, Shr1, LowBit, Shr8, Low8;
    var x := Xor(c, Word(b));
    var high := SplitWord(x);
    ShiftBitsXor(Low8(x), high, 8);
    ShiftHigh(high);
    WordSmall(b);
    XorShift(c, Word(b));
  }

  // --- injectivity ---

  /** The polynomial sets the top bit, which a plain shift clears, so the branch taken can be read off. */
  lemma TopBit(a: bv32)
    ensures LowBit(a) == 0 || LowBit(a) == 1
    ensures Shr1(a) & 0x8000_0000 == 0
    ensures Xor(POLY, Shr1(a)) & 0x8000_0000 != 0
  {
  }

  lemma ShiftAndLowBit(a: bv32, b: bv32)
    requires Shr1(a) == Shr1(b) && LowBit(a) == LowBit(b)
    ensures a == b
  {
  }

  lemma XorCancel(a: bv32, b: bv32, w: bv32)
    requires Xor(a, w) == Xor(b, w) || Xor(w, a) == Xor(w, b)
    ensures a == b
  {
  }

  lemma ShiftBitInjective(a: bv32, b: bv32)
    requires ShiftBit(a) == ShiftBit(b)
    ensures a == b
  {
    hide Xor, Shr1, LowBit;
    TopBit(a);
    TopBit(b);
    if LowBit(a) == LowBit(b) {
      if LowBit(a) == 1 {
        XorCancel(Shr1(a), Shr1(b), POLY);
      }
      ShiftAndLowBit(a, b);
    }
  }

  lemma {:induction false} ShiftBitsInjective(a: bv32, b: bv32, n: nat)
    requires ShiftBits(a, n) == ShiftBits(b, n)
    ensures a == b
    decreases n
  {
    hide ShiftBit;
    if n > 0 {
      ShiftBitsInjective(ShiftBit(a), ShiftBit(b), n - 1);
      ShiftBitInjective(a, b);
    }
  }

  /** The register never forgets a difference in its own value ... */
  lemma UpdateInjectiveInState(c: bv32, d: bv32, b: byte)
    requires Update(c, b) == Update(d, b)
    ensures c == d
  {
    hide *;
    UpdateIsEightShifts(c, b);
    UpdateIsEightShifts(d, b);
    ShiftBitsInjective(Xor(c, Word(b)), Xor(d, Word(b)), 8);
    XorCancel(c, d, Word(b));
  }

  /** ... nor a difference in the byte it is fed. */
  lemma UpdateInjectiveInByte(c: bv32, a: byte, b: byte)
    requires Update(c, a) == Update(c, b)
    ensures a == b
  {
    hide *;
    UpdateIsEightShifts(c, a);
    UpdateIsEightShifts(c, b);
    ShiftBitsInjective(Xor(c, Word(a)), Xor(c, Word(b)), 8);
    XorCancel(Word(a), Word(b), c);
    WordInjective(a, b);
  }

  lemma {:induction false} FoldInjectiveInState(c: bv32, d: bv32, data: seq<byte>)
    requires Fold(c, data) == Fold(d, data)
    ensures c == d
    decreases |data|
  {
    hide Update;
    if data != [] {
      FoldInjectiveInState(Update(c, data[0]), Update(d, data[0]), data[1..]);
      UpdateInjectiveInState(c, d, data[0]);
    }
  }

  /** Changing one byte, anywhere, changes the checksum. */
  lemma {:induction false} FoldDetectsOneByte(c: bv32, data: seq<byte>, i: nat, b: byte)
    requires i < |data| && b != data[i]
    ensures Fold(c, data[i := b]) != Fold(c, data)
    decreases |data|
  {
    hide Update;
    if i == 0 {
      assert data[0 := b][1..] == data[1..];
      if Fold(c, data[0 := b]) == Fold(c, data) {
        FoldInjectiveInState(Update(c, b), Update(c, data[0]), data[1..]);
        UpdateInjectiveInByte(c, b, data[0]);
      }
    } else {
      assert data[i := b][1..] == data[1..][i - 1 := b];
      FoldDetectsOneByte(Update(c, data[0]), data[1..], i - 1, b);
    }
  }

  lemma ChecksumDetectsOneByte(data: seq<byte>, i: nat, b: byte)
    requires i < |data| && b != data[i]
    ensures Checksum(data[i := b]) != Checksum(data)
  {
    FoldDetectsOneByte(0xFFFF_FFFF, data, i, b);
    var x, y := Fold(0xFFFF_FFFF, data[i := b]), Fold(0xFFFF_FFFF, data);
    hide Fold, Xor;
    if Xor(x, 0xFFFF_FFFF) == Xor(y, 0xFFFF_FFFF) {
      XorCancel(x, y, 0xFFFF_FFFF);
    }
  }

  // --- the firmware's loop ---

  lemma {:induction false} FoldSnoc(c: bv32, data: seq<byte>, b: byte)
    ensures Fold(c, data + [b]) == Update(Fold(c, data), b)
    decreases |data|
  {
    hide Update;
    if data == [] {
      assert Fold(c, [b]) == Fold(Update(c, b), []);
    } else {
      assert (data + [b])[1..] == data[1..] + [b];
      FoldSnoc(Update(c, data[0]), data[1..], b);
    }
  }

  lemma {:induction false} ShiftBitsLast(c: bv32, n: nat)
    ensures ShiftBits(c, n + 1) == ShiftBit(ShiftBits(c, n))
    decreases n
  {
    hide ShiftBit;
    if n > 0 {
      ShiftBitsLast(ShiftBit(c), n - 1);
    }
  }

  lemma MaskOfBit(bit: bv32)
    ensures bit == 0 ==> POLY & (0 - bit) == 0
    ensures bit == 1 ==> POLY & (0 - bit) == POLY
  {
  }

  lemma BitIsZeroOrOne(c: bv32)
    ensures LowBit(c) == 0 || LowBit(c) == 1
  {
  }

  lemma XorBasics(a: bv32, b: bv32)
    ensures Xor(a, 0) == a && Xor(a, b) == Xor(b, a)
  {
  }

  lemma MaskedShift(c: bv32)
    ensures Xor(Shr1(c), POLY & (0 - LowBit(c))) == ShiftBit(c)
  {
    hide Shr1, LowBit, Xor;
    BitIsZeroOrOne(c);
    MaskOfBit(LowBit(c));
    XorBasics(Shr1(c), POLY);
  }

  /** The branch-free bitwise computation, proved against the table definition. */
  method ComputeCrc32(data: array<byte>, len: nat) returns (sum: bv32)
    requires len <= data.Length
    ensures sum == Checksum(data[..len])
  {
    hide ShiftBit, Update, Word, Xor, Shr1, LowBit;
    var crc: bv32 := 0xFFFF_FFFF;
    for i := 0 to len
      invariant crc == Fold(0xFFFF_FFFF, data[..i])
    {
      ghost var before := crc;
      crc := Xor(crc, Word(data[i]));
      ghost var mixed := crc;
      for b := 0 to 8
        invariant crc == ShiftBits(mixed, b)
      {
        var mask: bv32 := 0 - LowBit(crc);
        MaskedShift(crc);
        ShiftBitsLast(mixed, b);
        crc := Xor(Shr1(crc), POLY & mask);
      }
      UpdateIsEightShifts(before, data[i]);
      FoldSnoc(0xFFFF_FFFF, data[..i], data[i]);
      assert data[..i + 1] == data[..i] + [data[i]];
    }
    return Xor(crc, 0xFFFF_FFFF);
  }

  // --- the check value that both ends are held to ---

  /** The bytes of a word, the low one first. */
  lemma LowByteFirst()
    ensures Le32(0x7672F676) == [0x76, 0xF6, 0x72, 0x76]
  {
  }

  lemma DigitWords()
    ensures Word(0x31) == 0x31 && Word(0x32) == 0x32 && Word(0x33) == 0x33
    ensures Word(0x34) == 0x34 && Word(0x35) == 0x35 && Word(0x36) == 0x36
    ensures Word(0x37) == 0x37 && Word(0x38) == 0x38 && Word(0x39) == 0x39
  {
  }

  lemma SomeEntries()
    ensures TableEntry(0xCE) == 0x7CDCEFB7 && TableEntry(0x7A) == 0xB0D09822
    ensures TableEntry(0x1) == 0x77073096 && TableEntry(0x19) == 0x646BA8C0 && TableEntry(0x69) == 0x346ED9FC
  {
  }

  lemma MoreEntries()
    ensures TableEntry(0xD5) == 0xF6B9265B && TableEntry(0xA9) == 0xAF0A1B4C
    ensures TableEntry(0x58) == 0x65B0D9C6
  {
  }

  lemma FirstUpdates()
    ensures Update(0xFFFFFFFF, 0x31) == 0x7C231048
    ensures Update(0x7C231048, 0x32) == 0xB0ACBB32
    ensures Update(0xB0ACBB32, 0x33) == 0x77B79C2D
    ensures Update(0x77B79C2D, 0x34) == 0x641C1F5C
    ensures Update(0x641C1F5C, 0x35) == 0x340AC5E3
  {
    DigitWords();
    SomeEntries();
    hide TableEntry, Word;
  }

  lemma LastUpdates()
    ensures Update(0x340AC5E3, 0x36) == 0xF68D2C9E
    ensures Update(0xF68D2C9E, 0x37) == 0xAFFC9660
    ensures Update(0xAFFC9660, 0x38) == 0x651F2550
    ensures Update(0x651F2550, 0x39) == 0x340BC6D9
  {
    DigitWords();
    SomeEntries();
    MoreEntries();
    hide TableEntry, Word;
  }

  lemma FoldFirst(c: bv32, b: byte, rest: seq<byte>)
    ensures Fold(c, [b] + rest) == Fold(Update(c, b), rest)
  {
    assert ([b] + rest)[1..] == rest;
  }

  lemma EmptyFold(c: bv32)
    ensures Fold(c, []) == c
  {
  }

  /** The published check value of this checksum: that of the text 123456789. */
  lemma CheckValue()
    ensures Checksum([0x31, 0x32, 0x33, 0x34, 0x35, 0x36, 0x37, 0x38, 0x39]) == 0xCBF43926
  {
    FirstUpdates();
    LastUpdates();
    hide Update, Fold;
    var t8: seq<byte> := [0x39] + [];
    var t7 := [0x38] + t8;
    var t6 := [0x37] + t7;
    var t5 := [0x36] + t6;
    var t4 := [0x35] + t5;
    var t3 := [0x34] + t4;
    var t2 := [0x33] + t3;
    var t1 := [0x32] + t2;
    var t0 := [0x31] + t1;
    FoldFirst(0xFFFFFFFF, 0x31, t1);
    FoldFirst(0x7C231048, 0x32, t2);
    FoldFirst(0xB0ACBB32, 0x33, t3);
    FoldFirst(0x77B79C2D, 0x34, t4);
    FoldFirst(0x641C1F5C, 0x35, t5);
    FoldFirst(0x340AC5E3, 0x36, t6);
    FoldFirst(0xF68D2C9E, 0x37, t7);
    FoldFirst(0xAFFC9660, 0x38, t8);
    FoldFirst(0x651F2550, 0x39, []);
    EmptyFold(0x340BC6D9);
    assert t0 == [0x31, 0x32, 0x33, 0x34, 0x35, 0x36, 0x37, 0x38, 0x39];
  }
}
