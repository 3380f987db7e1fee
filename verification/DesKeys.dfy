/** The key schedule of `deskey` and `cookey` as functions of the key, and the round function the
    cooked words feed. */
module DesKeys {
  import opened DesWords
  import opened DesFeistel

  type KeyBit = n: int | 0 <= n < 64
  type ChosenBit = n: int | 0 <= n < 56
  type Key = s: seq<Byte> | |s| == 8 witness seq(8, _ => 0)
  type Table = s: seq<Word> | |s| == 64 witness seq(64, _ => ZERO)

  /** The eight combined substitution and permutation tables. They are arbitrary here. */
  datatype SpTables = SpTables(
    sp1: Table, sp2: Table, sp3: Table, sp4: Table,
    sp5: Table, sp6: Table, sp7: Table, sp8: Table)

  // Any mode other than `DE1` makes `deskey` lay the pairs out for enciphering.
  const EN0: int := 0
  const DE1: int := 1

  const BYTEBIT: seq<Byte> := [0x80, 0x40, 0x20, 0x10, 0x08, 0x04, 0x02, 0x01]

  // The source's `pc1`, by the halves that are rotated on their own.
  const PC1_LEFT: seq<KeyBit> := [
    56, 48, 40, 32, 24, 16,  8,  0, 57, 49, 41, 33, 25, 17,
     9,  1, 58, 50, 42, 34, 26, 18, 10,  2, 59, 51, 43, 35]

  const PC1_RIGHT: seq<KeyBit> := [
    62, 54, 46, 38, 30, 22, 14,  6, 61, 53, 45, 37, 29, 21,
    13,  5, 60, 52, 44, 36, 28, 20, 12,  4, 27, 19, 11,  3]

  const PC1: seq<KeyBit> := PC1_LEFT + PC1_RIGHT

  const TOTROT: seq<ChosenBit> := [1, 2, 4, 6, 8, 10, 12, 14, 15, 17, 19, 21, 23, 25, 27, 28]

  // The source's `pc2`, by the halves it selects from.
  const PC2_LEFT: seq<ChosenBit> := [
    13, 16, 10, 23,  0,  4,  2, 27, 14,  5, 20,  9,
    22, 18, 11,  3, 25,  7, 15,  6, 26, 19, 12,  1]

  const PC2_RIGHT: seq<ChosenBit> := [
    40, 51, 30, 36, 46, 54, 29, 39, 50, 44, 32, 47,
    43, 48, 38, 55, 33, 52, 45, 41, 49, 35, 28, 31]

  const PC2: seq<ChosenBit> := PC2_LEFT + PC2_RIGHT

  /** The source's `bigbyte` table: 0x800000 at 0, then each entry half the one before. */
  function BigByte(j: nat): Word
    requires j < 24
  {
    if j == 0 then Word(0x800000) else Word(BigByte(j - 1).bits >> 1)
  }

  function KeyBitAt(key: Key, n: KeyBit): bool {
    key[n / 8] & BYTEBIT[n % 8] != 0
  }

  /** Bit `k` of the 56 key bits that `pc1` keeps. */
  function Chosen(key: Key, k: ChosenBit): bool {
    KeyBitAt(key, PC1[k])
  }

  /** Where bit `j` of the rotated register comes from when the register turned by `rot`. */
  function Rotated(j: ChosenBit, rot: ChosenBit): int {
    var l := j + rot;
    if j < 28 then (if l < 28 then l else l - 28) else (if l < 56 then l else l - 28)
  }

  lemma RotatedInRange(j: ChosenBit, i: nat)
    requires i < 16
    ensures 0 <= Rotated(j, TOTROT[i]) < 56
  {
    assert i == 0 || i == 1 || i == 2 || i == 3 || i == 4 || i == 5 || i == 6 || i == 7 || i == 8
        || i == 9 || i == 10 || i == 11 || i == 12 || i == 13 || i == 14 || i == 15;
  }

  lemma SelectsAll()
    ensures |PC2| == 48
  {
  }

  /** Bit `j` of round `i`'s 48 selected key bits. */
  function Selected(key: Key, i: nat, j: nat): bool
    requires i < 16 && j < 48
  {
    RotatedInRange(PC2[j], i);
    Chosen(key, Rotated(PC2[j], TOTROT[i]))
  }

  /** The first `n` selected bits of one half of round `i`, as `deskey` gathers them. */
  function RawBits(key: Key, i: nat, half: nat, n: nat): Word
    requires i < 16 && half < 2 && n <= 24
  {
    if n == 0 then ZERO
    else if Selected(key, i, n - 1 + 24 * half) then Or(RawBits(key, i, half, n - 1), BigByte(n - 1))
    else RawBits(key, i, half, n - 1)
  }

  function RawPair(key: Key, i: nat): KeyPair
    requires i < 16
  {
    KeyPair(RawBits(key, i, 0, 24), RawBits(key, i, 1, 24))
  }

  function CookFirst(raw0: Word, raw1: Word): Word {
    Word(((raw0.bits & 0x00fc0000) << 6) | ((raw0.bits & 0x00000fc0) << 10)
         | ((raw1.bits & 0x00fc0000) >> 10) | ((raw1.bits & 0x00000fc0) >> 6))
  }

  function CookSecond(raw0: Word, raw1: Word): Word {
    Word(((raw0.bits & 0x0003f000) << 12) | ((raw0.bits & 0x0000003f) << 16)
         | ((raw1.bits & 0x0003f000) >> 4) | (raw1.bits & 0x0000003f))
  }

  /** One turn of `cookey`: four 6-bit groups of each raw word go into each cooked word. */
  function Cook(raw: KeyPair): KeyPair {
    KeyPair(CookFirst(raw.k0, raw.k1), CookSecond(raw.k0, raw.k1))
  }

  /** The round whose bits `deskey` stores at pair `t`. */
  function RoundOf(edf: int, t: nat): nat
    requires t < 16
    ensures RoundOf(edf, t) < 16
  {
    if edf == DE1 then 15 - t else t
  }

  function Schedule(key: Key, edf: int): (ks: seq<KeyPair>)
    ensures |ks| == 16
  {
    seq(16, t requires 0 <= t < 16 => Cook(RawPair(key, RoundOf(edf, t))))
  }

  // ---- The round function ----

  datatype Lane = L0 | L8 | L16 | L24

  /** The 6-bit group of `w` that starts at the lane, as a table index. */
  function Six(w: Word, lane: Lane): (i: nat)
    ensures i < 64
  {
    var g := match lane
      case L0 => w.bits & 0x3f
      case L8 => (w.bits >> 8) & 0x3f
      case L16 => (w.bits >> 16) & 0x3f
      case L24 => (w.bits >> 24) & 0x3f;
    (g as bv6) as int
  }

  /** The table look-ups for the first and for the second word of a pair. */
  function Odd(sp: SpTables, w: Word): Word {
    Or(Or(Or(sp.sp7[Six(w, L0)], sp.sp5[Six(w, L8)]), sp.sp3[Six(w, L16)]), sp.sp1[Six(w, L24)])
  }

  function Even(sp: SpTables, w: Word): Word {
    Or(Or(Or(sp.sp8[Six(w, L0)], sp.sp6[Six(w, L8)]), sp.sp4[Six(w, L16)]), sp.sp2[Six(w, L24)])
  }

  function Turned(w: Word): Word {
    Word((w.bits << 28) | (w.bits >> 4))
  }

  /** `fval` of one round. */
  function RoundValue(sp: SpTables, right: Word, k: KeyPair): Word {
    Or(Odd(sp, Xor(Turned(right), k.k0)), Even(sp, Xor(right, k.k1)))
  }

  function Fval(sp: SpTables): RoundFunction {
    (right, k) => RoundValue(sp, right, k)
  }

  // ---- What the order of the schedule means ----

  lemma {:induction false} ReversedAt<T>(s: seq<T>, i: nat)
    requires i < |s|
    ensures |Reversed(s)| == |s| && Reversed(s)[i] == s[|s| - 1 - i]
  {
    if i > 0 {
      ReversedAt(s[..|s| - 1], i - 1);
    } else if |s| > 1 {
      ReversedAt(s[..|s| - 1], 0);
    }
  }

  /** Deciphering uses the enciphering key pairs backwards. */
  lemma ScheduleReverses(key: Key, edf: int)
    ensures Schedule(key, DE1) == Reversed(Schedule(key, EN0))
    ensures Schedule(key, EN0) == Reversed(Schedule(key, DE1))
    ensures edf != DE1 ==> Schedule(key, edf) == Schedule(key, EN0)
  {
    hide Cook, RawPair, Reversed;
    var e, d := Schedule(key, EN0), Schedule(key, DE1);
    forall i: nat | i < 16
      ensures |Reversed(e)| == 16 && |Reversed(d)| == 16 && Reversed(e)[i] == d[i] && Reversed(d)[i] == e[i]
    {
      ReversedAt(e, i);
      ReversedAt(d, i);
    }
    ReversedAt(e, 0);
    ReversedAt(d, 0);
    if edf != DE1 {
      assert Schedule(key, edf) == e;
    }
  }

  // ---- The parity bits of the key ----

  /** The keys agree but for the lowest bit of each byte, its parity bit. */
  predicate SameButParity(key: Key, other: Key) {
    forall i :: 0 <= i < 8 ==> key[i] & 0xFE == other[i] & 0xFE
  }

  lemma HalvesSkipParity(k: nat)
    requires k < 28
    ensures PC1_LEFT[k] % 8 != 7 && PC1_RIGHT[k] % 8 != 7
  {
    assert k == 0 || k == 1 || k == 2 || k == 3 || k == 4 || k == 5 || k == 6
      || k == 7 || k == 8 || k == 9 || k == 10 || k == 11 || k == 12 || k == 13
      || k == 14 || k == 15 || k == 16 || k == 17 || k == 18 || k == 19 || k == 20
      || k == 21 || k == 22 || k == 23 || k == 24 || k == 25 || k == 26 || k == 27;
  }

  /** `pc1` names no parity bit. */
  lemma SkipsParity(k: ChosenBit)
    ensures PC1[k] % 8 != 7
  {
    HalvesSkipParity(if k < 28 then k else k - 28);
  }

  lemma OneBitIgnoresParity(a: Byte, b: Byte, m: nat)
    requires m < 7 && a & 0xFE == b & 0xFE
    ensures (a & BYTEBIT[m] != 0) == (b & BYTEBIT[m] != 0)
  {
    assert m == 0 || m == 1 || m == 2 || m == 3 || m == 4 || m == 5 || m == 6;
  }

  lemma ChosenIgnoresParity(key: Key, other: Key, k: ChosenBit)
    requires SameButParity(key, other)
    ensures Chosen(key, k) == Chosen(other, k)
  {
    var n := PC1[k];
    SkipsParity(k);
    OneBitIgnoresParity(key[n / 8], other[n / 8], n % 8);
  }

  lemma {:induction false} RawBitsIgnoreParity(key: Key, other: Key, i: nat, half: nat, n: nat)
    requires SameButParity(key, other) && i < 16 && half < 2 && n <= 24
    ensures RawBits(key, i, half, n) == RawBits(other, i, half, n)
  {
    hide SameButParity, Chosen, Rotated, PC2;
    SelectsAll();
    if n > 0 {
      RawBitsIgnoreParity(key, other, i, half, n - 1);
      var j := n - 1 + 24 * half;
      RotatedInRange(PC2[j], i);
      ChosenIgnoresParity(key, other, Rotated(PC2[j], TOTROT[i]));
    }
  }

  /** The parity bits of the key do not reach the schedule (FIPS PUB 46-3). */
  lemma ParityBitsIgnored(key: Key, other: Key, edf: int)
    requires SameButParity(key, other)
    ensures Schedule(key, edf) == Schedule(other, edf)
  {
    hide SameButParity, Cook;
    forall t: nat | t < 16 ensures RawPair(key, RoundOf(edf, t)) == RawPair(other, RoundOf(edf, t)) {
      RawBitsIgnoreParity(key, other, RoundOf(edf, t), 0, 24);
      RawBitsIgnoreParity(key, other, RoundOf(edf, t), 1, 24);
    }
  }

  // ---- What complementing the key does ----

  function Complement(s: seq<Byte>): (t: seq<Byte>)
    ensures |t| == |s|
  {
    seq(|s|, i requires 0 <= i < |s| => !s[i])
  }

  lemma KeyBitFlips(key: Key, n: KeyBit)
    ensures KeyBitAt(Complement(key), n) == !KeyBitAt(key, n)
  {
    var m := n % 8;
    assert m == 0 || m == 1 || m == 2 || m == 3 || m == 4 || m == 5 || m == 6 || m == 7;
    OneBitFlips(key[n / 8], m);
  }

  lemma OneBitFlips(b: Byte, m: nat)
    requires m < 8
    ensures (!b & BYTEBIT[m] != 0) == (b & BYTEBIT[m] == 0)
  {
    assert m == 0 || m == 1 || m == 2 || m == 3 || m == 4 || m == 5 || m == 6 || m == 7;
  }

  const GROUPS := Word(0x3f3f3f3f)
  const ALL24 := Word(0xffffff)

  /** All 24 bit positions but the top `n`. */
  function BitsBelow(n: nat): Word
    requires n <= 24
  {
    if n == 0 then ALL24 else Halved(BitsBelow(n - 1))
  }

  function Halved(w: Word): Word {
    Word(w.bits >> 1)
  }

  function TopBits(n: nat): Word
    requires n <= 24
  {
    Xor(ALL24, BitsBelow(n))
  }

  /** `r` has no bit outside `m`. */
  predicate Within(r: Word, m: Word) {
    r.bits & !m.bits == 0
  }

  predicate Apart(a: Word, b: Word) {
    a.bits & b.bits == 0
  }

  lemma {:induction false} BitsBelowShape(n: nat)
    requires n < 24
    ensures Within(Halved(BitsBelow(n)), BitsBelow(n)) && Within(BitsBelow(n), ALL24)
    ensures BigByte(n) == Xor(BitsBelow(n), Halved(BitsBelow(n)))
  {
    hide Within, Xor, Halved;
    if n == 0 {
      FirstShape();
    } else {
      BitsBelowShape(n - 1);
      var x := BitsBelow(n - 1);
      HalvedWithin(Halved(x), x);
      HalvedWithin(x, ALL24);
      HalvedXor(x, Halved(x));
      assert BigByte(n) == Halved(BigByte(n - 1)) by { BigByteHalves(n); }
    }
  }

  lemma BigByteHalves(n: nat)
    requires 0 < n < 24
    ensures BigByte(n) == Halved(BigByte(n - 1))
  {
  }

  lemma FirstShape()
    ensures Within(Halved(ALL24), ALL24) && Within(ALL24, ALL24)
    ensures BigByte(0) == Xor(ALL24, Halved(ALL24))
  {
  }

  lemma HalvedWithin(x: Word, y: Word)
    requires Within(x, y)
    ensures Within(Halved(x), Halved(y)) && (y == ALL24 ==> Within(Halved(x), ALL24))
  {
  }

  lemma HalvedXor(x: Word, y: Word)
    ensures Halved(Xor(x, y)) == Xor(Halved(x), Halved(y))
  {
  }

  lemma TopBitsGrow(n: nat)
    requires n < 24
    ensures Or(TopBits(n), BigByte(n)) == TopBits(n + 1)
    ensures Apart(BigByte(n), TopBits(n))
  {
    hide Within, Apart, Xor, Or, Halved;
    BitsBelowShape(n);
    ShapeGrows(BitsBelow(n));
    ShapeApart(BitsBelow(n));
  }

  lemma ShapeGrows(x: Word)
    requires Within(Halved(x), x) && Within(x, ALL24)
    ensures Or(Xor(ALL24, x), Xor(x, Halved(x))) == Xor(ALL24, Halved(x))
  {
  }

  lemma ShapeApart(x: Word)
    requires Within(Halved(x), x) && Within(x, ALL24)
    ensures Apart(Xor(x, Halved(x)), Xor(ALL24, x))
  {
  }

  lemma AllTopBits()
    ensures TopBits(24) == ALL24
  {
    assert BitsBelow(2) == Word(0x3fffff);
    assert BitsBelow(4) == Word(0x0fffff);
    assert BitsBelow(6) == Word(0x03ffff);
    assert BitsBelow(8) == Word(0x00ffff);
    assert BitsBelow(10) == Word(0x003fff);
    assert BitsBelow(12) == Word(0x000fff);
    assert BitsBelow(14) == Word(0x0003ff);
    assert BitsBelow(16) == Word(0x0000ff);
    assert BitsBelow(18) == Word(0x00003f);
    assert BitsBelow(20) == Word(0x00000f);
    assert BitsBelow(22) == Word(0x000003);
  }

  lemma NoBits(w: Word)
    ensures Within(ZERO, w) && Xor(ZERO, ZERO) == ZERO && Xor(ALL24, ALL24) == ZERO
  {
  }

  lemma OrAsXor(a: Word, b: Word)
    ensures Or(a, b) == Xor(Xor(a, b), Word(a.bits & b.bits))
  {
  }

  lemma XorZero(a: Word)
    ensures Xor(a, ZERO) == a
  {
  }

  lemma OrOfApart(a: Word, b: Word)
    requires Apart(a, b)
    ensures Or(a, b) == Xor(a, b)
  {
    hide Or, Xor;
    OrAsXor(a, b);
    XorZero(Xor(a, b));
  }

  lemma ApartFromFlipped(r: Word, m: Word, b: Word)
    requires Apart(b, m) && Within(r, m)
    ensures Apart(Xor(r, m), b) && Apart(m, b)
  {
  }

  lemma XorGroups(a: Word, b: Word, c: Word)
    ensures Xor(Xor(a, b), c) == Xor(a, Xor(b, c))
  {
  }

  lemma ApartOfWithin(r: Word, m: Word, b: Word)
    requires Apart(b, m) && Within(r, m)
    ensures Apart(r, b)
  {
  }

  lemma XorCancels(a: Word, b: Word, c: Word)
    ensures Xor(Xor(a, c), Xor(b, c)) == Xor(a, b)
  {
  }

  lemma FlipSelected(r: Word, m: Word, b: Word)
    requires Apart(b, m) && Within(r, m)
    ensures Xor(r, m) == Xor(Or(r, b), Or(m, b))
  {
    hide Or, Xor, Apart, Within;
    ApartOfWithin(r, m, b);
    ApartFromFlipped(r, m, b);
    OrOfApart(r, b);
    OrOfApart(m, b);
    XorCancels(r, m, b);
  }

  lemma FlipUnselected(r: Word, m: Word, b: Word)
    requires Apart(b, m) && Within(r, m)
    ensures Or(Xor(r, m), b) == Xor(r, Or(m, b))
  {
    hide Or, Xor, Apart, Within;
    ApartFromFlipped(r, m, b);
    OrOfApart(Xor(r, m), b);
    OrOfApart(m, b);
    XorGroups(r, m, b);
  }

  lemma StaysWithin(r: Word, m: Word, b: Word)
    requires Within(r, m)
    ensures Within(r, Or(m, b)) && Within(Or(r, b), Or(m, b))
  {
  }

  lemma NothingOnTop()
    ensures TopBits(0) == ZERO
  {
    NoBits(ZERO);
  }

  lemma {:induction false} RawBitsFlip(key: Key, i: nat, half: nat, n: nat)
    requires i < 16 && half < 2 && n <= 24
    ensures RawBits(Complement(key), i, half, n) == Xor(RawBits(key, i, half, n), TopBits(n))
    ensures Within(RawBits(key, i, half, n), TopBits(n))
  {
    hide Xor, Or, Within, Apart, Selected, TopBits, BigByte;
    if n == 0 {
      NoBits(TopBits(0));
      NothingOnTop();
    } else {
      RawBitsFlip(key, i, half, n - 1);
      SelectedFlips(key, i, n - 1 + 24 * half);
      TopBitsGrow(n - 1);
      var r, m, b := RawBits(key, i, half, n - 1), TopBits(n - 1), BigByte(n - 1);
      FlipSelected(r, m, b);
      FlipUnselected(r, m, b);
      StaysWithin(r, m, b);
    }
  }

  lemma SelectedFlips(key: Key, i: nat, j: nat)
    requires i < 16 && j < 48
    ensures Selected(Complement(key), i, j) == !Selected(key, i, j)
  {
    RotatedInRange(PC2[j], i);
    KeyBitFlips(key, PC1[Rotated(PC2[j], TOTROT[i])]);
  }

  /** Complementing the key turns over exactly the eight 6-bit groups of each cooked pair. */
  function FlippedGroups(k: KeyPair): KeyPair {
    KeyPair(Xor(k.k0, GROUPS), Xor(k.k1, GROUPS))
  }

  lemma CookFirstFlips(raw0: Word, raw1: Word)
    ensures CookFirst(Xor(raw0, ALL24), Xor(raw1, ALL24)) == Xor(CookFirst(raw0, raw1), GROUPS)
  {
  }

  lemma CookSecondFlips(raw0: Word, raw1: Word)
    ensures CookSecond(Xor(raw0, ALL24), Xor(raw1, ALL24)) == Xor(CookSecond(raw0, raw1), GROUPS)
  {
  }

  lemma RawWordFlips(key: Key, i: nat, half: nat)
    requires i < 16 && half < 2
    ensures RawBits(Complement(key), i, half, 24) == Xor(RawBits(key, i, half, 24), ALL24)
  {
    hide RawBits, Xor, TopBits;
    RawBitsFlip(key, i, half, 24);
    AllTopBits();
  }

  lemma ScheduleFlips(key: Key, edf: int, t: nat)
    requires t < 16
    ensures Schedule(Complement(key), edf)[t] == FlippedGroups(Schedule(key, edf)[t])
  {
    hide CookFirst, CookSecond, RawBits, Xor;
    var i := RoundOf(edf, t);
    RawWordFlips(key, i, 0);
    RawWordFlips(key, i, 1);
    CookFirstFlips(RawBits(key, i, 0, 24), RawBits(key, i, 1, 24));
    CookSecondFlips(RawBits(key, i, 0, 24), RawBits(key, i, 1, 24));
  }

  lemma TurnedGroupsKept(w: Word, k: Word)
    ensures SameGroups(Xor(Turned(Not(w)), Xor(k, GROUPS)), Xor(Turned(w), k))
  {
  }

  lemma GroupsKept(w: Word, k: Word)
    ensures SameGroups(Xor(Not(w), Xor(k, GROUPS)), Xor(w, k))
  {
  }

  /** The eight 6-bit groups the tables are indexed by agree. */
  predicate SameGroups(v: Word, w: Word) {
    v.bits & 0x3f3f3f3f == w.bits & 0x3f3f3f3f
  }

  lemma SameSix(v: Word, w: Word, lane: Lane)
    requires SameGroups(v, w)
    ensures Six(v, lane) == Six(w, lane)
  {
    match lane
    case L0 => assert v.bits & 0x3f == w.bits & 0x3f;
    case L8 => assert (v.bits >> 8) & 0x3f == (w.bits >> 8) & 0x3f;
    case L16 => assert (v.bits >> 16) & 0x3f == (w.bits >> 16) & 0x3f;
    case L24 => assert (v.bits >> 24) & 0x3f == (w.bits >> 24) & 0x3f;
  }

  lemma SameLookups(sp: SpTables, v: Word, w: Word)
    requires SameGroups(v, w)
    ensures Odd(sp, v) == Odd(sp, w) && Even(sp, v) == Even(sp, w)
  {
    hide Or, Six, SameGroups;
    SameSix(v, w, L0);
    SameSix(v, w, L8);
    SameSix(v, w, L16);
    SameSix(v, w, L24);
  }

  lemma RoundValueIgnoresComplement(sp: SpTables, w: Word, k: KeyPair)
    ensures RoundValue(sp, Not(w), FlippedGroups(k)) == RoundValue(sp, w, k)
  {
    hide Odd, Even, Turned, Xor, Or, Not, SameGroups;
    TurnedGroupsKept(w, k.k0);
    GroupsKept(w, k.k1);
    SameLookups(sp, Xor(Turned(Not(w)), Xor(k.k0, GROUPS)), Xor(Turned(w), k.k0));
    SameLookups(sp, Xor(Not(w), Xor(k.k1, GROUPS)), Xor(w, k.k1));
  }

  lemma FvalIgnoresComplement(sp: SpTables)
    ensures IgnoresComplement(Fval(sp), FlippedGroups)
  {
    hide RoundValue, FlippedGroups, Not;
    forall w: Word, k: KeyPair
      ensures Fval(sp)(Not(w), FlippedGroups(k)) == Fval(sp)(w, k)
    {
      RoundValueIgnoresComplement(sp, w, k);
    }
  }
}
