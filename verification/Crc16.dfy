/** crc16.c against the bit-by-bit definition. */
module Crc16 {
  import opened CrcTable

  // ----- the definition

  function Xor(x: bv16, y: bv16): bv16 {
    x ^ y
  }

  /** The register after one more byte. */
  function Step(crc: bv16, byte: bv8): bv16 {
    EightBits(Xor(crc, byte as bv16))
  }

  function CrcFrom(crc: bv16, data: seq<bv8>): bv16
    decreases |data|
  {
    if data == [] then crc else CrcFrom(Step(crc, data[0]), data[1..])
  }

  /** The CRC of a message starts from 0xFFFF. */
  function Crc(data: seq<bv8>): bv16 {
    CrcFrom(0xFFFF, data)
  }

  lemma {:induction false} CrcSplits(crc: bv16, first: seq<bv8>, second: seq<bv8>)
    ensures CrcFrom(crc, first + second) == CrcFrom(CrcFrom(crc, first), second)
    decreases |first|
  {
    hide Step;
    if first == [] {
      assert first + second == second;
    } else {
      assert (first + second)[1..] == first[1..] + second;
      CrcSplits(Step(crc, first[0]), first[1..], second);
    }
  }

  // ----- words, bit by bit

  function Down(x: bv16, n: bv4): bv16 {
    x >> n
  }

  predicate Odd(x: bv16) {
    x & 1 != 0
  }

  lemma XorAssociates(x: bv16, y: bv16, z: bv16)
    ensures Xor(x, Xor(y, z)) == Xor(Xor(x, y), z)
  {
  }

  lemma XorCommutes(x: bv16, y: bv16)
    ensures Xor(x, y) == Xor(y, x)
  {
  }

  lemma XorUndoes(x: bv16, y: bv16)
    ensures Xor(x, Xor(x, y)) == y
  {
  }

  lemma XorLaws(x: bv16, y: bv16, z: bv16)
    ensures Xor(Xor(x, y), z) == Xor(Xor(x, z), y) && Xor(x, Xor(y, z)) == Xor(Xor(x, y), z) && Xor(x, y) == Xor(y, x)
    ensures Xor(x, y) == Xor(x, z) <==> y == z
  {
    hide Xor;
    XorAssociates(x, y, z);
    XorAssociates(x, z, y);
    XorCommutes(x, y);
    XorCommutes(y, z);
    XorUndoes(x, y);
    XorUndoes(x, z);
  }

  lemma DownXor(x: bv16, y: bv16)
    ensures Down(Xor(x, y), 1) == Xor(Down(x, 1), Down(y, 1)) && (!Odd(y) ==> (Odd(Xor(x, y)) <==> Odd(x)))
  {
  }

  lemma BitForm(x: bv16)
    ensures Bit(x) == if Odd(x) then Xor(Down(x, 1), 0xA001) else Down(x, 1)
  {
    DownOne(x);
    hide Down;
  }

  lemma DownOne(x: bv16)
    ensures Down(x, 1) == x >> 1
  {
  }

  /** What has not reached the low bit yet only moves down. */
  lemma BitPasses(x: bv16, y: bv16)
    requires !Odd(y)
    ensures Bit(Xor(x, y)) == Xor(Bit(x), Down(y, 1))
  {
    hide Bit, Xor, Down, Odd;
    BitForm(x);
    BitForm(Xor(x, y));
    DownXor(x, y);
    XorLaws(Down(x, 1), Down(y, 1), 0xA001);
  }

  lemma HighPart(h: bv16)
    requires h & 0xFF == 0
    ensures !Odd(h) && !Odd(Down(h, 1)) && !Odd(Down(h, 2)) && !Odd(Down(h, 3))
    ensures !Odd(Down(h, 4)) && !Odd(Down(h, 5)) && !Odd(Down(h, 6)) && !Odd(Down(h, 7))
    ensures Down(Down(h, 1), 1) == Down(h, 2) && Down(Down(h, 2), 1) == Down(h, 3) && Down(Down(h, 3), 1) == Down(h, 4)
    ensures Down(Down(h, 4), 1) == Down(h, 5) && Down(Down(h, 5), 1) == Down(h, 6) && Down(Down(h, 6), 1) == Down(h, 7)
    ensures Down(Down(h, 7), 1) == Down(h, 8)
  {
  }

  /** The high byte only moves down in eight steps. */
  lemma HighBytePasses(x: bv16, h: bv16)
    requires h & 0xFF == 0
    ensures EightBits(Xor(x, h)) == Xor(EightBits(x), Down(h, 8))
  {
    HighPart(h);
    hide Bit, Xor, Down, Odd;
    var x1 := Bit(x);
    var x2 := Bit(x1);
    var x3 := Bit(x2);
    var x4 := Bit(x3);
    var x5 := Bit(x4);
    var x6 := Bit(x5);
    var x7 := Bit(x6);
    BitPasses(x, h);
    BitPasses(x1, Down(h, 1));
    BitPasses(x2, Down(h, 2));
    BitPasses(x3, Down(h, 3));
    BitPasses(x4, Down(h, 4));
    BitPasses(x5, Down(h, 5));
    BitPasses(x6, Down(h, 6));
    BitPasses(x7, Down(h, 7));
  }

  // ----- the table form

  function LowByte(x: bv16): bv8 {
    (x & 0xFF) as bv8
  }

  function HighByte(x: bv16): bv8 {
    (x >> 8) as bv8
  }

  /** The index of the table: the byte and the low byte of the register. */
  function Index(crc: bv16, byte: bv8): bv8 {
    byte ^ LowByte(crc)
  }

  /** The body of the loop of CRC16_calc. */
  function TableStep(crc: bv16, byte: bv8): bv16 {
    Xor(Down(crc, 8), Entry(Index(crc, byte)))
  }

  lemma Halves(crc: bv16, byte: bv8)
    ensures var high := crc & 0xFF00;
      Xor(Index(crc, byte) as bv16, high) == Xor(crc, byte as bv16) && high & 0xFF == 0 && Down(high, 8) == Down(crc, 8)
  {
  }

  /** One table step is eight bit steps. */
  lemma TableStepIsStep(crc: bv16, byte: bv8)
    ensures TableStep(crc, byte) == Step(crc, byte)
  {
    hide EightBits, Entry, Xor, Down, Index;
    Halves(crc, byte);
    EntryIsBitwise(Index(crc, byte));
    HighBytePasses(Index(crc, byte) as bv16, crc & 0xFF00);
    XorLaws(Down(crc, 8), Entry(Index(crc, byte)), 0);
  }

  /** CRC16_calc: the table form computes the bit-by-bit CRC of every byte string (its index is an
      int32_t, which bounds the length). */
  method Calc(data: array<bv8>) returns (crc: bv16)
    requires data.Length < 0x8000_0000
    ensures crc == Crc(data[..])
  {
    hide Step, TableStep;
    crc := 0xFFFF;
    var i := 0;
    assert data[..0] == [];
    while i < data.Length
      invariant i <= data.Length && crc == CrcFrom(0xFFFF, data[..i])
    {
      TableStepIsStep(crc, data[i]);
      CrcSplits(0xFFFF, data[..i], [data[i]]);
      OneByte(crc, data[i]);
      assert data[..i] + [data[i]] == data[..i + 1];
      crc := TableStep(crc, data[i]);
      i := i + 1;
    }
    assert data[..i] == data[..];
  }

  lemma OneByte(crc: bv16, byte: bv8)
    ensures CrcFrom(crc, [byte]) == Step(crc, byte)
  {
    hide Step;
    assert [byte][1..] == [];
  }

  lemma TwoBytes(crc: bv16, a: bv8, b: bv8)
    ensures CrcFrom(crc, [a, b]) == Step(Step(crc, a), b)
  {
    hide Step;
    assert [a, b][1..] == [b];
    OneByte(Step(crc, a), b);
  }

  // ----- no information is lost

  lemma BitInjective(x: bv16, y: bv16)
    ensures Bit(x) == Bit(y) ==> x == y
  {
  }

  lemma EightBitsInjective(x: bv16, y: bv16)
    ensures EightBits(x) == EightBits(y) ==> x == y
  {
    hide Bit;
    BitInjective(x, y);
    BitInjective(Bit(x), Bit(y));
    BitInjective(Bit(Bit(x)), Bit(Bit(y)));
    BitInjective(Bit(Bit(Bit(x))), Bit(Bit(Bit(y))));
    BitInjective(Bit(Bit(Bit(Bit(x)))), Bit(Bit(Bit(Bit(y)))));
    BitInjective(Bit(Bit(Bit(Bit(Bit(x))))), Bit(Bit(Bit(Bit(Bit(y))))));
    BitInjective(Bit(Bit(Bit(Bit(Bit(Bit(x)))))), Bit(Bit(Bit(Bit(Bit(Bit(y)))))));
    BitInjective(Bit(Bit(Bit(Bit(Bit(Bit(Bit(x))))))), Bit(Bit(Bit(Bit(Bit(Bit(Bit(y))))))));
  }

  lemma StepInjective(x: bv16, y: bv16, byte: bv8)
    ensures Step(x, byte) == Step(y, byte) ==> x == y
  {
    hide EightBits, Xor;
    var b := byte as bv16;
    EightBitsInjective(Xor(x, b), Xor(y, b));
    XorLaws(b, x, y);
    XorLaws(x, b, 0);
    XorLaws(y, b, 0);
  }

  /** Different registers stay different under the same bytes. */
  lemma {:induction false} SuffixInjective(x: bv16, y: bv16, suffix: seq<bv8>)
    ensures CrcFrom(x, suffix) == CrcFrom(y, suffix) <==> x == y
    decreases |suffix|
  {
    hide Step;
    if suffix != [] {
      SuffixInjective(Step(x, suffix[0]), Step(y, suffix[0]), suffix[1..]);
      StepInjective(x, y, suffix[0]);
    }
  }

  function Word(low: bv8, high: bv8): bv16 {
    (low as bv16) | ((high as bv16) << 8)
  }

  lemma WordParts(low: bv8, high: bv8)
    ensures var h := (high as bv16) << 8;
      h & 0xFF == 0 && Down(h, 8) == high as bv16 && Word(low, high) == Xor(low as bv16, h)
    ensures LowByte(Word(low, high)) == low && HighByte(Word(low, high)) == high
  {
  }

  /** Two bytes at once: sixteen bit steps on the register with the word of both added. */
  lemma TwoBytesAsWord(crc: bv16, a: bv8, b: bv8)
    ensures Step(Step(crc, a), b) == EightBits(EightBits(Xor(crc, Word(a, b))))
  {
    hide EightBits, Xor, Down, Word;
    var h := (b as bv16) << 8;
    WordParts(a, b);
    XorLaws(crc, a as bv16, h);
    HighBytePasses(Xor(crc, a as bv16), h);
  }

  lemma WordsDecide(crc: bv16, a: bv8, b: bv8, c: bv8, d: bv8)
    ensures Step(Step(crc, a), b) == Step(Step(crc, c), d) <==> a == c && b == d
  {
    hide Step, EightBits, Word, Xor, LowByte, HighByte;
    TwoBytesAsWord(crc, a, b);
    TwoBytesAsWord(crc, c, d);
    var v, w := Word(a, b), Word(c, d);
    EightBitsInjective(EightBits(Xor(crc, v)), EightBits(Xor(crc, w)));
    EightBitsInjective(Xor(crc, v), Xor(crc, w));
    XorLaws(crc, v, w);
    WordParts(a, b);
    WordParts(c, d);
  }

  /** Messages that differ only within two adjacent bytes never have the same CRC. */
  lemma AdjacentBytesNeverCollide(prefix: seq<bv8>, a: bv8, b: bv8, c: bv8, d: bv8, suffix: seq<bv8>)
    ensures Crc(prefix + [a, b] + suffix) == Crc(prefix + [c, d] + suffix) <==> a == c && b == d
  {
    hide Step;
    var crc := CrcFrom(0xFFFF, prefix);
    CrcSplits(0xFFFF, prefix + [a, b], suffix);
    CrcSplits(0xFFFF, prefix + [c, d], suffix);
    CrcSplits(0xFFFF, prefix, [a, b]);
    CrcSplits(0xFFFF, prefix, [c, d]);
    TwoBytes(crc, a, b);
    TwoBytes(crc, c, d);
    SuffixInjective(Step(Step(crc, a), b), Step(Step(crc, c), d), suffix);
    WordsDecide(crc, a, b, c, d);
  }

  /** Messages that differ only in one byte never have the same CRC. */
  lemma OneByteNeverCollides(prefix: seq<bv8>, a: bv8, c: bv8, suffix: seq<bv8>)
    ensures Crc(prefix + [a] + suffix) == Crc(prefix + [c] + suffix) <==> a == c
  {
    hide Step;
    var crc := CrcFrom(0xFFFF, prefix);
    CrcSplits(0xFFFF, prefix + [a], suffix);
    CrcSplits(0xFFFF, prefix + [c], suffix);
    CrcSplits(0xFFFF, prefix, [a]);
    CrcSplits(0xFFFF, prefix, [c]);
    OneByte(crc, a);
    OneByte(crc, c);
    SuffixInjective(Step(crc, a), Step(crc, c), suffix);
    WordsDecide(crc, a, 0, c, 0);
  }

  // ----- the receiver's check

  lemma OwnBytes(crc: bv16)
    ensures Xor(crc, Word(LowByte(crc), HighByte(crc))) == 0 && EightBits(0) == 0
  {
  }

  /** A message followed by two bytes has CRC 0 exactly when they are its CRC, low byte first. */
  lemma ResidueIsZeroIff(data: seq<bv8>, low: bv8, high: bv8)
    ensures Crc(data + [low, high]) == 0 <==> low == LowByte(Crc(data)) && high == HighByte(Crc(data))
  {
    hide Step, EightBits, Word, Xor, LowByte, HighByte;
    var crc := Crc(data);
    CrcSplits(0xFFFF, data, [low, high]);
    TwoBytes(crc, low, high);
    OwnBytes(crc);
    TwoBytesAsWord(crc, LowByte(crc), HighByte(crc));
    WordsDecide(crc, low, high, LowByte(crc), HighByte(crc));
  }
}
