/** The cipher of FIPS PUB 46-3, bit by bit, and the code against it: initial permutation, key schedule,
    expansion and rounds are the standard's, for whatever the substitution tables hold. Bits are
    numbered from 0 at the left; the standard's tables count from 1. */
module DesStandard {
  import opened DesBits
  import opened DesWords
  import opened DesKeys

  // ---- The standard ----

  type BitNumber = n: int | 1 <= n <= 64 witness 1
  type RegisterBit = n: int | 1 <= n <= 56 witness 1

  const IP_LEFT: seq<BitNumber> := [
    58, 50, 42, 34, 26, 18, 10,  2,
    60, 52, 44, 36, 28, 20, 12,  4,
    62, 54, 46, 38, 30, 22, 14,  6,
    64, 56, 48, 40, 32, 24, 16,  8]

  const IP_RIGHT: seq<BitNumber> := [
    57, 49, 41, 33, 25, 17,  9,  1,
    59, 51, 43, 35, 27, 19, 11,  3,
    61, 53, 45, 37, 29, 21, 13,  5,
    63, 55, 47, 39, 31, 23, 15,  7]

  const PC1_C: seq<BitNumber> := [
    57, 49, 41, 33, 25, 17,  9,  1, 58, 50, 42, 34, 26, 18,
    10,  2, 59, 51, 43, 35, 27, 19, 11,  3, 60, 52, 44, 36]

  const PC1_D: seq<BitNumber> := [
    63, 55, 47, 39, 31, 23, 15,  7, 62, 54, 46, 38, 30, 22,
    14,  6, 61, 53, 45, 37, 29, 21, 13,  5, 28, 20, 12,  4]

  const PC2_C: seq<RegisterBit> := [
    14, 17, 11, 24,  1,  5,  3, 28, 15,  6, 21, 10,
    23, 19, 12,  4, 26,  8, 16,  7, 27, 20, 13,  2]

  const PC2_D: seq<RegisterBit> := [
    41, 52, 31, 37, 47, 55, 30, 40, 51, 45, 33, 48,
    44, 49, 39, 56, 34, 53, 46, 42, 50, 36, 29, 32]

  const SHIFTS: seq<nat> := [1, 1, 2, 2, 2, 2, 2, 2, 1, 2, 2, 2, 2, 2, 2, 1]

  function ByteBit(s: seq<Byte>, n: BitNumber): bool
    requires |s| == 8
  {
    KeyBitAt(s, n - 1)
  }

  /** The halves `b` are the initial permutation of the eight bytes `s`. */
  ghost predicate IsInitialPermutation(s: seq<Byte>, b: Block)
    requires |s| == 8
  {
    forall k :: 0 <= k < 32 ==>
      WordBit(b.l, k) == ByteBit(s, IP_LEFT[k]) && WordBit(b.r, k) == ByteBit(s, IP_RIGHT[k])
  }

  function TurnedLeft(s: seq<bool>, n: nat): (t: seq<bool>)
    requires n <= |s|
    ensures |t| == |s|
  {
    s[n..] + s[..n]
  }

  function Shift(i: nat): nat
    requires i < 16
  {
    SHIFTS[i]
  }

  /** The register after the shifts of rounds 0 to `i`. */
  function Register(start: seq<bool>, i: nat): (t: seq<bool>)
    requires i < 16 && |start| == 28
    ensures |t| == 28
  {
    TurnedLeft(if i == 0 then start else Register(start, i - 1), Shift(i))
  }

  function RegisterC(key: Key): (s: seq<bool>)
    ensures |s| == 28
  {
    seq(28, k requires 0 <= k < 28 => ByteBit(key, PC1_C[k]))
  }

  function RegisterD(key: Key): (s: seq<bool>)
    ensures |s| == 28
  {
    seq(28, k requires 0 <= k < 28 => ByteBit(key, PC1_D[k]))
  }

  /** Bit `j` of the 48 key bits of round `i`. */
  function KeyOf(key: Key, i: nat, j: nat): bool
    requires i < 16 && j < 48
  {
    var n: int := if j < 24 then PC2_C[j] else PC2_D[j - 24];
    (Register(RegisterC(key), i) + Register(RegisterD(key), i))[n - 1]
  }

  function SixBits(b0: bool, b1: bool, b2: bool, b3: bool, b4: bool, b5: bool): bv6 {
    (if b0 then 32 else 0) | (if b1 then 16 else 0) | (if b2 then 8 else 0)
      | (if b3 then 4 else 0) | (if b4 then 2 else 0) | (if b5 then 1 else 0)
  }

  /** Bit `j` that goes into box `box`: the expanded right half and the key of the round. */
  function BoxBit(right: Word, key: Key, i: nat, box: nat, j: nat): bool
    requires i < 16 && box < 8 && j < 6
  {
    WordBit(right, (4 * box + 31 + j) % 32) != KeyOf(key, i, 6 * box + j)
  }

  function BoxInput(right: Word, key: Key, i: nat, box: nat): (n: nat)
    requires i < 16 && box < 8
    ensures n < 64
  {
    var g := SixBits(BoxBit(right, key, i, box, 0), BoxBit(right, key, i, box, 1), BoxBit(right, key, i, box, 2),
                     BoxBit(right, key, i, box, 3), BoxBit(right, key, i, box, 4), BoxBit(right, key, i, box, 5));
    g as int
  }

  /** The outputs of the eight boxes together. A table holds the output of its box after the permutation
      P, turned left by one. */
  function CipherFunction(sp: SpTables, right: Word, key: Key, i: nat): Word
    requires i < 16
  {
    RotateRight(Or(
      Or(Or(Or(sp.sp7[BoxInput(right, key, i, 6)], sp.sp5[BoxInput(right, key, i, 4)]),
            sp.sp3[BoxInput(right, key, i, 2)]), sp.sp1[BoxInput(right, key, i, 0)]),
      Or(Or(Or(sp.sp8[BoxInput(right, key, i, 7)], sp.sp6[BoxInput(right, key, i, 5)]),
            sp.sp4[BoxInput(right, key, i, 3)]), sp.sp2[BoxInput(right, key, i, 1)])))
  }

  /** The halves after `n` rounds. Deciphering takes the keys of the rounds from the last to the first. */
  function StandardRounds(sp: SpTables, key: Key, edf: int, b: Block, n: nat): Block
    requires n <= 16
  {
    if n == 0 then b
    else
      var p := StandardRounds(sp, key, edf, b, n - 1);
      Block(p.r, Xor(p.l, CipherFunction(sp, p.r, key, if edf == DE1 then 16 - n else n - 1)))
  }

  // ---- The initial permutation ----

  /** The place of a bit that the standard numbers. */
  function Numbered(n: BitNumber): Place {
    Place(n > 32, Mask((n - 1) % 32))
  }

  // The rows of the permutation, one bit at a time.

  predicate Moved(right: bool, m: Bits, fromRight: bool, from: Bits) {
    PermutedFrom(Place(right, Word(m))) == Place(fromRight, Word(from))
  }

  lemma LeftRow0()
    ensures Moved(false, 0x80000000, true, 0x00000040) && Moved(false, 0x40000000, true, 0x00004000)
    ensures Moved(false, 0x20000000, true, 0x00400000) && Moved(false, 0x10000000, true, 0x40000000)
    ensures Moved(false, 0x08000000, false, 0x00000040) && Moved(false, 0x04000000, false, 0x00004000)
    ensures Moved(false, 0x02000000, false, 0x00400000) && Moved(false, 0x01000000, false, 0x40000000)
  {
  }

  lemma LeftRow1()
    ensures Moved(false, 0x00800000, true, 0x00000010) && Moved(false, 0x00400000, true, 0x00001000)
    ensures Moved(false, 0x00200000, true, 0x00100000) && Moved(false, 0x00100000, true, 0x10000000)
    ensures Moved(false, 0x00080000, false, 0x00000010) && Moved(false, 0x00040000, false, 0x00001000)
    ensures Moved(false, 0x00020000, false, 0x00100000) && Moved(false, 0x00010000, false, 0x10000000)
  {
  }

  lemma LeftRow2()
    ensures Moved(false, 0x00008000, true, 0x00000004) && Moved(false, 0x00004000, true, 0x00000400)
    ensures Moved(false, 0x00002000, true, 0x00040000) && Moved(false, 0x00001000, true, 0x04000000)
    ensures Moved(false, 0x00000800, false, 0x00000004) && Moved(false, 0x00000400, false, 0x00000400)
    ensures Moved(false, 0x00000200, false, 0x00040000) && Moved(false, 0x00000100, false, 0x04000000)
  {
  }

  lemma LeftRow3()
    ensures Moved(false, 0x00000080, true, 0x00000001) && Moved(false, 0x00000040, true, 0x00000100)
    ensures Moved(false, 0x00000020, true, 0x00010000) && Moved(false, 0x00000010, true, 0x01000000)
    ensures Moved(false, 0x00000008, false, 0x00000001) && Moved(false, 0x00000004, false, 0x00000100)
    ensures Moved(false, 0x00000002, false, 0x00010000) && Moved(false, 0x00000001, false, 0x01000000)
  {
  }

  lemma RightRow0()
    ensures Moved(true, 0x80000000, true, 0x00000080) && Moved(true, 0x40000000, true, 0x00008000)
    ensures Moved(true, 0x20000000, true, 0x00800000) && Moved(true, 0x10000000, true, 0x80000000)
    ensures Moved(true, 0x08000000, false, 0x00000080) && Moved(true, 0x04000000, false, 0x00008000)
    ensures Moved(true, 0x02000000, false, 0x00800000) && Moved(true, 0x01000000, false, 0x80000000)
  {
  }

  lemma RightRow1()
    ensures Moved(true, 0x00800000, true, 0x00000020) && Moved(true, 0x00400000, true, 0x00002000)
    ensures Moved(true, 0x00200000, true, 0x00200000) && Moved(true, 0x00100000, true, 0x20000000)
    ensures Moved(true, 0x00080000, false, 0x00000020) && Moved(true, 0x00040000, false, 0x00002000)
    ensures Moved(true, 0x00020000, false, 0x00200000) && Moved(true, 0x00010000, false, 0x20000000)
  {
  }

  lemma RightRow2()
    ensures Moved(true, 0x00008000, true, 0x00000008) && Moved(true, 0x00004000, true, 0x00000800)
    ensures Moved(true, 0x00002000, true, 0x00080000) && Moved(true, 0x00001000, true, 0x08000000)
    ensures Moved(true, 0x00000800, false, 0x00000008) && Moved(true, 0x00000400, false, 0x00000800)
    ensures Moved(true, 0x00000200, false, 0x00080000) && Moved(true, 0x00000100, false, 0x08000000)
  {
  }

  lemma RightRow3()
    ensures Moved(true, 0x00000080, true, 0x00000002) && Moved(true, 0x00000040, true, 0x00000200)
    ensures Moved(true, 0x00000020, true, 0x00020000) && Moved(true, 0x00000010, true, 0x02000000)
    ensures Moved(true, 0x00000008, false, 0x00000002) && Moved(true, 0x00000004, false, 0x00000200)
    ensures Moved(true, 0x00000002, false, 0x00020000) && Moved(true, 0x00000001, false, 0x02000000)
  {
  }

  lemma MaskValues0()
    ensures Mask(0) == Word(0x80000000) && Mask(1) == Word(0x40000000)
    ensures Mask(2) == Word(0x20000000) && Mask(3) == Word(0x10000000)
    ensures Mask(4) == Word(0x08000000) && Mask(5) == Word(0x04000000)
    ensures Mask(6) == Word(0x02000000) && Mask(7) == Word(0x01000000)
    ensures Mask(8) == Word(0x00800000) && Mask(9) == Word(0x00400000)
    ensures Mask(10) == Word(0x00200000) && Mask(11) == Word(0x00100000)
    ensures Mask(12) == Word(0x00080000) && Mask(13) == Word(0x00040000)
    ensures Mask(14) == Word(0x00020000) && Mask(15) == Word(0x00010000)
  {
  }

  lemma MaskValues1()
    ensures Mask(16) == Word(0x00008000) && Mask(17) == Word(0x00004000)
    ensures Mask(18) == Word(0x00002000) && Mask(19) == Word(0x00001000)
    ensures Mask(20) == Word(0x00000800) && Mask(21) == Word(0x00000400)
    ensures Mask(22) == Word(0x00000200) && Mask(23) == Word(0x00000100)
    ensures Mask(24) == Word(0x00000080) && Mask(25) == Word(0x00000040)
    ensures Mask(26) == Word(0x00000020) && Mask(27) == Word(0x00000010)
    ensures Mask(28) == Word(0x00000008) && Mask(29) == Word(0x00000004)
    ensures Mask(30) == Word(0x00000002) && Mask(31) == Word(0x00000001)
  {
  }

  lemma OpenedLeft(k: nat)
    requires k < 32
    ensures PermutedFrom(Place(false, Mask(k))) == Numbered(IP_LEFT[k])
  {
    hide PermutedFrom, Mask;
    LeftRow0();
    LeftRow1();
    LeftRow2();
    LeftRow3();
    MaskValues0();
    MaskValues1();
  }

  lemma OpenedRight(k: nat)
    requires k < 32
    ensures PermutedFrom(Place(true, Mask(k))) == Numbered(IP_RIGHT[k])
  {
    hide PermutedFrom, Mask;
    RightRow0();
    RightRow1();
    RightRow2();
    RightRow3();
    MaskValues0();
    MaskValues1();
  }

  // The bits of packed bytes.

  predicate ByteHas(b: Byte, j: nat)
    requires j < 8
  {
    b & BYTEBIT[j] != 0
  }

  lemma PackedByte0(a: Byte, b: Byte, c: Byte, d: Byte, m: Byte)
    ensures Has(PackWord(a, b, c, d), Word((m as Bits) << 24)) == (a & m != 0)
  {
  }

  lemma PackedByte1(a: Byte, b: Byte, c: Byte, d: Byte, m: Byte)
    ensures Has(PackWord(a, b, c, d), Word((m as Bits) << 16)) == (b & m != 0)
  {
  }

  lemma PackedByte2(a: Byte, b: Byte, c: Byte, d: Byte, m: Byte)
    ensures Has(PackWord(a, b, c, d), Word((m as Bits) << 8)) == (c & m != 0)
  {
  }

  lemma PackedByte3(a: Byte, b: Byte, c: Byte, d: Byte, m: Byte)
    ensures Has(PackWord(a, b, c, d), Word(m as Bits)) == (d & m != 0)
  {
  }

  lemma MaskOfByte0(j: nat)
    requires j < 8
    ensures Mask(j) == Word((BYTEBIT[j] as Bits) << 24)
  {
    assert j == 0 || j == 1 || j == 2 || j == 3 || j == 4 || j == 5 || j == 6 || j == 7;
  }

  lemma MaskOfByte1(j: nat)
    requires j < 8
    ensures Mask(8 + j) == Word((BYTEBIT[j] as Bits) << 16)
  {
    assert j == 0 || j == 1 || j == 2 || j == 3 || j == 4 || j == 5 || j == 6 || j == 7;
  }

  lemma MaskOfByte2(j: nat)
    requires j < 8
    ensures Mask(16 + j) == Word((BYTEBIT[j] as Bits) << 8)
  {
    assert j == 0 || j == 1 || j == 2 || j == 3 || j == 4 || j == 5 || j == 6 || j == 7;
  }

  lemma MaskOfByte3(j: nat)
    requires j < 8
    ensures Mask(24 + j) == Word(BYTEBIT[j] as Bits)
  {
    assert j == 0 || j == 1 || j == 2 || j == 3 || j == 4 || j == 5 || j == 6 || j == 7;
  }

  lemma PackedBitOf0(a: Byte, b: Byte, c: Byte, d: Byte, j: nat)
    requires j < 8
    ensures WordBit(PackWord(a, b, c, d), j) == ByteHas(a, j)
  {
    hide Has, PackWord, Mask;
    MaskOfByte0(j);
    PackedByte0(a, b, c, d, BYTEBIT[j]);
  }

  lemma PackedBitOf1(a: Byte, b: Byte, c: Byte, d: Byte, j: nat)
    requires j < 8
    ensures WordBit(PackWord(a, b, c, d), 8 + j) == ByteHas(b, j)
  {
    hide Has, PackWord, Mask;
    MaskOfByte1(j);
    PackedByte1(a, b, c, d, BYTEBIT[j]);
  }

  lemma PackedBitOf2(a: Byte, b: Byte, c: Byte, d: Byte, j: nat)
    requires j < 8
    ensures WordBit(PackWord(a, b, c, d), 16 + j) == ByteHas(c, j)
  {
    hide Has, PackWord, Mask;
    MaskOfByte2(j);
    PackedByte2(a, b, c, d, BYTEBIT[j]);
  }

  lemma PackedBitOf3(a: Byte, b: Byte, c: Byte, d: Byte, j: nat)
    requires j < 8
    ensures WordBit(PackWord(a, b, c, d), 24 + j) == ByteHas(d, j)
  {
    hide Has, PackWord, Mask;
    MaskOfByte3(j);
    PackedByte3(a, b, c, d, BYTEBIT[j]);
  }

  lemma PackedBit(s: seq<Byte>, p: nat)
    requires |s| == 4 && p < 32
    ensures WordBit(PackWord(s[0], s[1], s[2], s[3]), p) == ByteHas(s[p / 8], p % 8)
  {
    hide WordBit, PackWord, ByteHas;
    var j := p % 8;
    if p < 8 {
      PackedBitOf0(s[0], s[1], s[2], s[3], j);
    } else if p < 16 {
      PackedBitOf1(s[0], s[1], s[2], s[3], j);
    } else if p < 24 {
      PackedBitOf2(s[0], s[1], s[2], s[3], j);
    } else {
      PackedBitOf3(s[0], s[1], s[2], s[3], j);
    }
  }

  lemma KeyBitIsByteBit(s: Key, n: KeyBit)
    ensures KeyBitAt(s, n) == ByteHas(s[n / 8], n % 8)
  {
  }

  lemma NumberedBit(s: seq<Byte>, n: BitNumber)
    requires |s| == 8
    ensures Bit(Pack(s), Numbered(n)) == ByteBit(s, n)
  {
    hide Has, PackWord, Mask, ByteHas;
    assert ByteBit(s, n) == ByteHas(s[(n - 1) / 8], (n - 1) % 8) by { KeyBitIsByteBit(s, n - 1); }
    hide ByteBit;
    if n > 32 {
      assert (n - 1) / 8 == 4 + (n - 33) / 8 && (n - 1) % 8 == (n - 33) % 8;
      PackedBit(s[4..], n - 33);
    } else {
      PackedBit(s[..4], n - 1);
    }
  }

  lemma MaskSingle(p: nat)
    requires p < 32
    ensures Single(Mask(p))
  {
  }

  /** The opening swap-moves are the initial permutation. */
  lemma OpeningPermutes(s: seq<Byte>)
    requires |s| == 8
    ensures IsInitialPermutation(s, Righted(Opening(Pack(s))))
  {
    var b := Righted(Opening(Pack(s)));
    forall k: nat | k < 32
      ensures WordBit(b.l, k) == ByteBit(s, IP_LEFT[k])
      ensures WordBit(b.r, k) == ByteBit(s, IP_RIGHT[k])
    {
      hide Has, Mask, Pack, Opening, PermutedFrom, Numbered, Righted, Single, ByteBit;
      MaskSingle(k);
      OpeningBit(Pack(s), Place(false, Mask(k)));
      OpeningBit(Pack(s), Place(true, Mask(k)));
      OpenedLeft(k);
      OpenedRight(k);
      NumberedBit(s, IP_LEFT[k]);
      NumberedBit(s, IP_RIGHT[k]);
    }
  }

  lemma NoneOf(w: Word)
    requires !WordBit(w, 0) && !WordBit(w, 1) && !WordBit(w, 2) && !WordBit(w, 3)
    requires !WordBit(w, 4) && !WordBit(w, 5) && !WordBit(w, 6) && !WordBit(w, 7)
    requires !WordBit(w, 8) && !WordBit(w, 9) && !WordBit(w, 10) && !WordBit(w, 11)
    requires !WordBit(w, 12) && !WordBit(w, 13) && !WordBit(w, 14) && !WordBit(w, 15)
    requires !WordBit(w, 16) && !WordBit(w, 17) && !WordBit(w, 18) && !WordBit(w, 19)
    requires !WordBit(w, 20) && !WordBit(w, 21) && !WordBit(w, 22) && !WordBit(w, 23)
    requires !WordBit(w, 24) && !WordBit(w, 25) && !WordBit(w, 26) && !WordBit(w, 27)
    requires !WordBit(w, 28) && !WordBit(w, 29) && !WordBit(w, 30) && !WordBit(w, 31)
    ensures w == ZERO
  {
  }

  lemma NoBitLeft(w: Word)
    requires forall k :: 0 <= k < 32 ==> !WordBit(w, k)
    ensures w == ZERO
  {
    hide WordBit;
    NoneOf(w);
  }

  lemma XorApart(a: Word, c: Word)
    requires Xor(a, c) == ZERO
    ensures a == c
  {
  }

  lemma SameBits(a: Word, c: Word)
    requires forall k :: 0 <= k < 32 ==> WordBit(a, k) == WordBit(c, k)
    ensures a == c
  {
    hide Xor, Single;
    forall k: nat | k < 32 ensures !WordBit(Xor(a, c), k) {
      hide Has, Mask;
      MaskSingle(k);
      XorHas(a, c, Mask(k));
      assert WordBit(a, k) == WordBit(c, k);
    }
    NoBitLeft(Xor(a, c));
    XorApart(a, c);
  }

  /** A block has one initial permutation. */
  lemma PermutedOnce(s: seq<Byte>, b: Block)
    requires |s| == 8
    ensures IsInitialPermutation(s, b) <==> b == Righted(Opening(Pack(s)))
  {
    hide Has, Mask, Righted, Opening, Pack, ByteBit;
    var c := Righted(Opening(Pack(s)));
    OpeningPermutes(s);
    if IsInitialPermutation(s, b) {
      SameBits(b.l, c.l);
      SameBits(b.r, c.r);
    }
  }
}
