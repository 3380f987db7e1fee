/** The key schedule and the rounds of the code against those of FIPS PUB 46-3. */
module DesStandardRounds {
  import opened DesBits
  import opened DesWords
  import opened DesFeistel
  import opened DesKeys
  import opened DesCipher
  import opened DesStandard

  // ---- The key schedule ----

  function Total(i: nat): nat
    requires i < 16
  {
    TOTROT[i]
  }

  /** `totrot` holds the running totals of the shifts. */
  lemma ShiftTotals(i: nat)
    requires i < 16
    ensures Total(i) == Shift(i) + if i == 0 then 0 else Total(i - 1)
    ensures Total(i) <= 28 && Shift(i) <= 2
  {
  }

  lemma TurnedAt(s: seq<bool>, n: nat, k: nat)
    requires n <= 28 && |s| == 28 && k < 28
    ensures TurnedLeft(s, n)[k] == s[(k + n) % 28]
  {
  }

  lemma TurnedTwice(s: seq<bool>, k: nat, n: nat, m: nat)
    requires |s| == 28
    ensures s[((k + n) % 28 + m) % 28] == s[(k + n + m) % 28]
  {
  }

  lemma {:induction false} RegisterAt(start: seq<bool>, i: nat, k: nat)
    requires i < 16 && |start| == 28 && k < 28
    ensures Register(start, i)[k] == start[(k + Total(i)) % 28]
  {
    hide TurnedLeft, Total, Shift;
    ShiftTotals(i);
    if i == 0 {
      TurnedAt(start, Shift(i), k);
    } else {
      TurnedAt(Register(start, i - 1), Shift(i), k);
      RegisterAt(start, i - 1, (k + Shift(i)) % 28);
      TurnedTwice(start, k, Shift(i), Total(i - 1));
    }
  }

  lemma FirstChoice(k: nat)
    requires k < 28
    ensures PC1_C[k] == PC1_LEFT[k] + 1 && PC1_D[k] == PC1_RIGHT[k] + 1
  {
  }

  /** Where `pc2` takes the bit `j` of either half from, within the half's register. */
  function FromLeft(j: nat): (q: nat)
    requires j < 24
    ensures q < 28
  {
    SecondChoice(j);
    PC2_LEFT[j]
  }

  function FromRight(j: nat): (q: nat)
    requires j < 24
    ensures q < 28
  {
    SecondChoice(j);
    PC2_RIGHT[j] - 28
  }

  lemma SecondChoice(j: nat)
    requires j < 24
    ensures var l: int, r: int := PC2_LEFT[j], PC2_RIGHT[j]; PC2_C[j] == l + 1 && PC2_D[j] == r + 1 && l < 28 <= r
  {
  }

  lemma RotatedLeft(q: nat, rot: nat)
    requires q < 28 && rot <= 28
    ensures Rotated(q, rot) == (q + rot) % 28
  {
  }

  lemma RotatedRight(q: nat, rot: nat)
    requires q < 28 && rot <= 28
    ensures Rotated(28 + q, rot) == 28 + (q + rot) % 28
  {
  }

  lemma ChosenLeft(key: Key, x: nat)
    requires x < 28
    ensures Chosen(key, x) == RegisterC(key)[x]
  {
    hide KeyBitAt;
    FirstChoice(x);
    assert PC1[x] == PC1_LEFT[x];
  }

  lemma ChosenRight(key: Key, x: nat)
    requires x < 28
    ensures Chosen(key, 28 + x) == RegisterD(key)[x]
  {
    hide KeyBitAt;
    FirstChoice(x);
    assert PC1[28 + x] == PC1_RIGHT[x];
  }

  lemma KeyOfLeft(key: Key, i: nat, j: nat)
    requires i < 16 && j < 24
    ensures KeyOf(key, i, j) == Register(RegisterC(key), i)[FromLeft(j)]
  {
    hide Register, RegisterC, RegisterD;
    SecondChoice(j);
  }

  lemma KeyOfRight(key: Key, i: nat, j: nat)
    requires i < 16 && j < 24
    ensures KeyOf(key, i, 24 + j) == Register(RegisterD(key), i)[FromRight(j)]
  {
    hide Register, RegisterC, RegisterD;
    SecondChoice(j);
  }

  lemma SelectedPlace(key: Key, i: nat, j: nat)
    requires i < 16 && j < 24
    requires 0 <= Rotated(FromLeft(j), Total(i)) < 56 && 0 <= Rotated(28 + FromRight(j), Total(i)) < 56
    ensures Selected(key, i, j) == Chosen(key, Rotated(FromLeft(j), Total(i)))
    ensures Selected(key, i, 24 + j) == Chosen(key, Rotated(28 + FromRight(j), Total(i)))
  {
    hide Chosen, Rotated;
    assert PC2[j] == PC2_LEFT[j] && PC2[24 + j] == PC2_RIGHT[j];
  }

  lemma LeftSelected(key: Key, i: nat, j: nat)
    requires i < 16 && j < 24
    ensures Selected(key, i, j) == KeyOf(key, i, j)
  {
    hide KeyOf, Chosen, Selected, Register, RegisterC, Rotated, Total, FromLeft, FromRight;
    var q, rot := FromLeft(j), Total(i);
    ShiftTotals(i);
    KeyOfLeft(key, i, j);
    RotatedLeft(q, rot);
    RotatedRight(FromRight(j), rot);
    SelectedPlace(key, i, j);
    RegisterAt(RegisterC(key), i, q);
    ChosenLeft(key, (q + rot) % 28);
  }

  lemma RightSelected(key: Key, i: nat, j: nat)
    requires i < 16 && j < 24
    ensures Selected(key, i, 24 + j) == KeyOf(key, i, 24 + j)
  {
    hide KeyOf, Chosen, Selected, Register, RegisterD, Rotated, Total, FromLeft, FromRight;
    var q, rot := FromRight(j), Total(i);
    ShiftTotals(i);
    KeyOfRight(key, i, j);
    RotatedLeft(FromLeft(j), rot);
    RotatedRight(q, rot);
    SelectedPlace(key, i, j);
    RegisterAt(RegisterD(key), i, q);
    ChosenRight(key, (q + rot) % 28);
  }

  /** The bits the code selects are the standard's. */
  lemma SelectedIsKeyBit(key: Key, i: nat, j: nat)
    requires i < 16 && j < 48
    ensures Selected(key, i, j) == KeyOf(key, i, j)
  {
    hide Selected, KeyOf;
    if j < 24 {
      LeftSelected(key, i, j);
    } else {
      RightSelected(key, i, j - 24);
    }
  }

  lemma OrHasFirst(a: Word, b: Word, m: Word)
    requires Has(a, m)
    ensures Has(Or(a, b), m)
  {
  }

  lemma OrHasSecond(a: Word, b: Word, m: Word)
    requires Has(b, m)
    ensures Has(Or(a, b), m)
  {
  }

  lemma OrHasNeither(a: Word, b: Word, m: Word)
    requires !Has(a, m) && !Has(b, m)
    ensures !Has(Or(a, b), m)
  {
  }

  lemma OrHas(a: Word, b: Word, m: Word)
    ensures Has(Or(a, b), m) == (Has(a, m) || Has(b, m))
  {
    hide Has, Or;
    if Has(a, m) {
      OrHasFirst(a, b, m);
    } else if Has(b, m) {
      OrHasSecond(a, b, m);
    } else {
      OrHasNeither(a, b, m);
    }
  }

  lemma ApartHas(a: Word, m: Word)
    requires Apart(a, m)
    ensures !Has(a, m)
  {
  }

  lemma ApartBothWays(a: Word, b: Word)
    requires Apart(a, b)
    ensures Apart(b, a)
  {
  }

  lemma PartWithin(m: Word, b: Word)
    ensures Within(b, Or(m, b))
  {
  }

  lemma SingleHas(m: Word)
    requires Single(m)
    ensures Has(m, m)
  {
  }

  lemma NextMask(p: nat)
    requires p < 31
    ensures Mask(p + 1) == Halved(Mask(p))
  {
  }

  lemma {:induction false} BigByteIsMask(j: nat)
    requires j < 24
    ensures BigByte(j) == Mask(8 + j)
  {
    if j > 0 {
      hide Mask;
      BigByteIsMask(j - 1);
      NextMask(7 + j);
    }
  }

  lemma {:induction false} BigByteWithin(j: nat, n: nat)
    requires j < n <= 24
    ensures Within(BigByte(j), TopBits(n))
  {
    hide Within, TopBits, Or, BigByte;
    TopBitsGrow(n - 1);
    if j == n - 1 {
      PartWithin(TopBits(j), BigByte(j));
    } else {
      BigByteWithin(j, n - 1);
      StaysWithin(BigByte(j), TopBits(n - 1), BigByte(n - 1));
    }
  }

  lemma {:induction false} RawBit(key: Key, i: nat, half: nat, n: nat, j: nat)
    requires i < 16 && half < 2 && j < n <= 24
    ensures Has(RawBits(key, i, half, n), BigByte(j)) == Selected(key, i, j + 24 * half)
  {
    hide Has, Or, Within, Apart, TopBits, BigByte, Selected, Single, Mask;
    var r, b, m := RawBits(key, i, half, n - 1), BigByte(n - 1), BigByte(j);
    TopBitsGrow(n - 1);
    OrHas(r, b, m);
    if j == n - 1 {
      RawBitsFlip(key, i, half, j);
      ApartOfWithin(r, TopBits(j), m);
      ApartHas(r, m);
      BigByteIsMask(j);
      MaskSingle(8 + j);
      SingleHas(m);
    } else {
      RawBit(key, i, half, n - 1, j);
      BigByteWithin(j, n - 1);
      ApartOfWithin(m, TopBits(n - 1), b);
      ApartBothWays(m, b);
      ApartHas(b, m);
    }
  }

  /** Bit `j` of a 6-bit group. */
  function GroupBit(j: nat): (m: Bits)
    requires j < 6
  {
    if j == 0 then 0x20 else if j == 1 then 0x10 else if j == 2 then 8 else if j == 3 then 4 else if j == 4 then 2 else 1
  }

  lemma GroupMask24(j: nat)
    requires j < 6
    ensures Mask(2 + j) == Word(GroupBit(j) << 24)
  {
  }

  lemma GroupMask18(j: nat)
    requires j < 6
    ensures Mask(8 + j) == Word(GroupBit(j) << 18)
  {
  }

  lemma GroupMask16(j: nat)
    requires j < 6
    ensures Mask(10 + j) == Word(GroupBit(j) << 16)
  {
  }

  lemma GroupMask12(j: nat)
    requires j < 6
    ensures Mask(14 + j) == Word(GroupBit(j) << 12)
  {
  }

  lemma GroupMask8(j: nat)
    requires j < 6
    ensures Mask(18 + j) == Word(GroupBit(j) << 8)
  {
  }

  lemma GroupMask6(j: nat)
    requires j < 6
    ensures Mask(20 + j) == Word(GroupBit(j) << 6)
  {
  }

  lemma GroupMask0(j: nat)
    requires j < 6
    ensures Mask(26 + j) == Word(GroupBit(j))
  {
  }

  lemma CookedFirst2(raw0: Word, raw1: Word, m: Bits)
    requires m & 0x3f == m
    ensures Has(CookFirst(raw0, raw1), Word(m << 24)) == Has(raw0, Word(m << 18))
  {
  }

  lemma CookedFirst10(raw0: Word, raw1: Word, m: Bits)
    requires m & 0x3f == m
    ensures Has(CookFirst(raw0, raw1), Word(m << 16)) == Has(raw0, Word(m << 6))
  {
  }

  lemma CookedFirst18(raw0: Word, raw1: Word, m: Bits)
    requires m & 0x3f == m
    ensures Has(CookFirst(raw0, raw1), Word(m << 8)) == Has(raw1, Word(m << 18))
  {
  }

  lemma CookedFirst26(raw0: Word, raw1: Word, m: Bits)
    requires m & 0x3f == m
    ensures Has(CookFirst(raw0, raw1), Word(m)) == Has(raw1, Word(m << 6))
  {
  }

  lemma CookedSecond2(raw0: Word, raw1: Word, m: Bits)
    requires m & 0x3f == m
    ensures Has(CookSecond(raw0, raw1), Word(m << 24)) == Has(raw0, Word(m << 12))
  {
  }

  lemma CookedSecond10(raw0: Word, raw1: Word, m: Bits)
    requires m & 0x3f == m
    ensures Has(CookSecond(raw0, raw1), Word(m << 16)) == Has(raw0, Word(m))
  {
  }

  lemma CookedSecond18(raw0: Word, raw1: Word, m: Bits)
    requires m & 0x3f == m
    ensures Has(CookSecond(raw0, raw1), Word(m << 8)) == Has(raw1, Word(m << 12))
  {
  }

  lemma CookedSecond26(raw0: Word, raw1: Word, m: Bits)
    requires m & 0x3f == m
    ensures Has(CookSecond(raw0, raw1), Word(m)) == Has(raw1, Word(m))
  {
  }

  lemma SixOfL24(w: Word)
    ensures Six(w, L24)
         == SixBits(WordBit(w, 2), WordBit(w, 3), WordBit(w, 4), WordBit(w, 5), WordBit(w, 6), WordBit(w, 7)) as int
  {
  }

  lemma SixOfL16(w: Word)
    ensures Six(w, L16)
         == SixBits(WordBit(w, 10), WordBit(w, 11), WordBit(w, 12), WordBit(w, 13), WordBit(w, 14), WordBit(w, 15)) as int
  {
  }

  lemma SixOfL8(w: Word)
    ensures Six(w, L8)
         == SixBits(WordBit(w, 18), WordBit(w, 19), WordBit(w, 20), WordBit(w, 21), WordBit(w, 22), WordBit(w, 23)) as int
  {
  }

  lemma SixOfL0(w: Word)
    ensures Six(w, L0)
         == SixBits(WordBit(w, 26), WordBit(w, 27), WordBit(w, 28), WordBit(w, 29), WordBit(w, 30), WordBit(w, 31)) as int
  {
  }

  lemma GroupBitSmall(j: nat)
    requires j < 6
    ensures GroupBit(j) & 0x3f == GroupBit(j)
  {
  }

  /** Where the bits of a box stand in its word, and the lane that makes. */
  function FirstBit(box: nat): (p: nat)
    requires box < 8
    ensures p <= 26
  {
    2 + 8 * (box / 2)
  }

  function LaneOf(box: nat): Lane
    requires box < 8
  {
    if box < 2 then L24 else if box < 4 then L16 else if box < 6 then L8 else L0
  }

  /** The boxes take turns in the two words of a pair. */
  function Cooked(raw0: Word, raw1: Word, box: nat): Word
    requires box < 8
  {
    if box % 2 == 0 then CookFirst(raw0, raw1) else CookSecond(raw0, raw1)
  }

  lemma CookedFirstBit(raw0: Word, raw1: Word, b: nat, j: nat)
    requires b < 4 && j < 6
    ensures WordBit(CookFirst(raw0, raw1), 2 + 8 * b + j) == WordBit(if b < 2 then raw0 else raw1, (if b % 2 == 0 then 8 else 20) + j)
  {
    hide Has, Mask, GroupBit, CookFirst, CookSecond;
    var m := GroupBit(j);
    GroupBitSmall(j);
    match b
    case 0 => GroupMask24(j); GroupMask18(j); CookedFirst2(raw0, raw1, m);
    case 1 => GroupMask16(j); GroupMask6(j); CookedFirst10(raw0, raw1, m);
    case 2 => GroupMask8(j); GroupMask18(j); CookedFirst18(raw0, raw1, m);
    case 3 => GroupMask0(j); GroupMask6(j); CookedFirst26(raw0, raw1, m);
  }

  lemma CookedSecondBit(raw0: Word, raw1: Word, b: nat, j: nat)
    requires b < 4 && j < 6
    ensures WordBit(CookSecond(raw0, raw1), 2 + 8 * b + j) == WordBit(if b < 2 then raw0 else raw1, (if b % 2 == 0 then 14 else 26) + j)
  {
    hide Has, Mask, GroupBit, CookFirst, CookSecond;
    var m := GroupBit(j);
    GroupBitSmall(j);
    match b
    case 0 => GroupMask24(j); GroupMask12(j); CookedSecond2(raw0, raw1, m);
    case 1 => GroupMask16(j); GroupMask0(j); CookedSecond10(raw0, raw1, m);
    case 2 => GroupMask8(j); GroupMask12(j); CookedSecond18(raw0, raw1, m);
    case 3 => GroupMask0(j); CookedSecond26(raw0, raw1, m);
  }

  /** Cooking puts six bits of a raw word where each box is looked up. */
  lemma CookedBit(raw0: Word, raw1: Word, box: nat, j: nat)
    requires box < 8 && j < 6
    ensures WordBit(Cooked(raw0, raw1, box), FirstBit(box) + j) == WordBit(if box < 4 then raw0 else raw1, 8 + 6 * (box % 4) + j)
  {
    hide WordBit, CookFirst, CookSecond;
    if box % 2 == 0 {
      CookedFirstBit(raw0, raw1, box / 2, j);
    } else {
      CookedSecondBit(raw0, raw1, box / 2, j);
    }
  }

  lemma RawIsKey(key: Key, i: nat, half: nat, k: nat)
    requires i < 16 && half < 2 && k < 24
    ensures WordBit(RawBits(key, i, half, 24), 8 + k) == KeyOf(key, i, k + 24 * half)
  {
    hide Has, Mask, BigByte, Selected, KeyOf, RawBits;
    RawBit(key, i, half, 24, k);
    BigByteIsMask(k);
    SelectedIsKeyBit(key, i, k + 24 * half);
  }

  /** The cooked word that the box `box` is indexed from. */
  function CookedFor(key: Key, i: nat, box: nat): Word
    requires i < 16 && box < 8
  {
    var k := Cook(RawPair(key, i));
    if box % 2 == 0 then k.k0 else k.k1
  }

  lemma KeyForBox(key: Key, i: nat, box: nat, j: nat)
    requires i < 16 && box < 8 && j < 6
    ensures WordBit(CookedFor(key, i, box), FirstBit(box) + j) == KeyOf(key, i, 6 * box + j)
  {
    hide WordBit, KeyOf, RawBits, CookFirst, CookSecond;
    CookedBit(RawBits(key, i, 0, 24), RawBits(key, i, 1, 24), box, j);
    RawIsKey(key, i, box / 4, 6 * (box % 4) + j);
  }

  // ---- The expansion ----

  lemma MaskToTheRight(p: nat)
    requires p < 32
    ensures RotateRight(Mask(p)) == Mask((p + 1) % 32)
  {
  }

  lemma MaskToTheLeft(p: nat)
    requires p < 32
    ensures RotateLeft(Mask(p)) == Mask((p + 31) % 32)
  {
    hide Mask, RotateLeft, RotateRight;
    MaskToTheRight((p + 31) % 32);
    RotationsUndo(Mask((p + 31) % 32));
  }

  lemma FourTurns(m: Word)
    ensures TurnedBack(m) == RotateLeft(RotateLeft(RotateLeft(RotateLeft(m))))
  {
  }

  lemma MaskTurnedBack(p: nat)
    requires p < 32
    ensures TurnedBack(Mask(p)) == Mask((p + 28) % 32)
  {
    hide Mask, RotateLeft, TurnedBack;
    FourTurns(Mask(p));
    MaskToTheLeft(p);
    MaskToTheLeft((p + 31) % 32);
    MaskToTheLeft((p + 30) % 32);
    MaskToTheLeft((p + 29) % 32);
  }

  /** What goes into the lookups of the box `box` when the half in the registers is `right` turned left. */
  function Looked(right: Word, key: Key, i: nat, box: nat): Word
    requires i < 16 && box < 8
  {
    Xor(if box % 2 == 0 then Turned(RotateLeft(right)) else RotateLeft(right), CookedFor(key, i, box))
  }

  lemma ExpandedBit(right: Word, p: nat)
    requires p < 32
    ensures WordBit(RotateLeft(right), p) == WordBit(right, (p + 1) % 32)
    ensures WordBit(Turned(RotateLeft(right)), p) == WordBit(right, (p + 29) % 32)
  {
    hide Has, Mask, RotateLeft, RotateRight, Turned, TurnedBack;
    var q := (p + 28) % 32;
    LeftHas(right, Mask(p));
    MaskToTheRight(p);
    TurnedHas(RotateLeft(right), Mask(p));
    MaskTurnedBack(p);
    LeftHas(right, Mask(q));
    MaskToTheRight(q);
    assert (q + 1) % 32 == (p + 29) % 32;
  }

  lemma LookedBit(right: Word, key: Key, i: nat, box: nat, j: nat)
    requires i < 16 && box < 8 && j < 6
    ensures WordBit(Looked(right, key, i, box), FirstBit(box) + j) == BoxBit(right, key, i, box, j)
  {
    hide Has, Mask, Single, Xor, RotateLeft, Turned, CookedFor, KeyOf;
    var p := FirstBit(box) + j;
    KeyForBox(key, i, box, j);
    MaskSingle(p);
    ExpandedBit(right, p);
    XorHas(if box % 2 == 0 then Turned(RotateLeft(right)) else RotateLeft(right), CookedFor(key, i, box), Mask(p));
  }

  lemma SixOf(w: Word, box: nat)
    requires box < 8
    ensures var p := FirstBit(box);
            Six(w, LaneOf(box)) == SixBits(WordBit(w, p), WordBit(w, p + 1), WordBit(w, p + 2),
                                           WordBit(w, p + 3), WordBit(w, p + 4), WordBit(w, p + 5)) as int
  {
    hide WordBit, SixBits, Six;
    SixOfL24(w);
    SixOfL16(w);
    SixOfL8(w);
    SixOfL0(w);
  }

  /** Each box is looked up where the standard says. */
  lemma IndexOfBox(right: Word, key: Key, i: nat, box: nat)
    requires i < 16 && box < 8
    ensures Six(Looked(right, key, i, box), LaneOf(box)) == BoxInput(right, key, i, box)
  {
    hide WordBit, Looked, BoxBit, SixBits, Six, FirstBit, LaneOf;
    SixOf(Looked(right, key, i, box), box);
    LookedBit(right, key, i, box, 0);
    LookedBit(right, key, i, box, 1);
    LookedBit(right, key, i, box, 2);
    LookedBit(right, key, i, box, 3);
    LookedBit(right, key, i, box, 4);
    LookedBit(right, key, i, box, 5);
  }

  /** The round function of the code is the standard's cipher function. */
  lemma RoundIsCipherFunction(sp: SpTables, right: Word, key: Key, i: nat)
    requires i < 16
    ensures RoundValue(sp, RotateLeft(right), Cook(RawPair(key, i))) == RotateLeft(CipherFunction(sp, right, key, i))
  {
    hide Six, BoxInput, Xor, Or, RotateLeft, RotateRight, Turned, Cook, RawPair;
    forall box: nat | box < 8 ensures Six(Looked(right, key, i, box), LaneOf(box)) == BoxInput(right, key, i, box) {
      IndexOfBox(right, key, i, box);
    }
    var boxes := Or(
      Or(Or(Or(sp.sp7[BoxInput(right, key, i, 6)], sp.sp5[BoxInput(right, key, i, 4)]),
            sp.sp3[BoxInput(right, key, i, 2)]), sp.sp1[BoxInput(right, key, i, 0)]),
      Or(Or(Or(sp.sp8[BoxInput(right, key, i, 7)], sp.sp6[BoxInput(right, key, i, 5)]),
            sp.sp4[BoxInput(right, key, i, 3)]), sp.sp2[BoxInput(right, key, i, 1)]));
    RotationsUndo(boxes);
  }

  // ---- The rounds and the whole cipher ----

  lemma LeftXor(a: Word, c: Word)
    ensures RotateLeft(Xor(a, c)) == Xor(RotateLeft(a), RotateLeft(c))
  {
  }

  lemma {:induction false} RoundsAreStandard(sp: SpTables, key: Key, edf: int, b: Block, n: nat)
    requires n <= 16
    ensures Rounds(Fval(sp), Lefted(b), Schedule(key, edf)[..n]) == Lefted(StandardRounds(sp, key, edf, b, n))
  {
    hide RoundValue, CipherFunction, Xor, RotateLeft, Cook, RawPair;
    if n > 0 {
      var ks := Schedule(key, edf);
      assert ks[..n][..n - 1] == ks[..n - 1];
      RoundsAreStandard(sp, key, edf, b, n - 1);
      var p := StandardRounds(sp, key, edf, b, n - 1);
      var i := RoundOf(edf, n - 1);
      RoundIsCipherFunction(sp, p.r, key, i);
      LeftXor(p.l, CipherFunction(sp, p.r, key, i));
    }
  }

  lemma LeftedRighted(b: Block)
    ensures Lefted(Righted(b)) == b && Righted(Lefted(b)) == b
  {
    hide RotateLeft, RotateRight;
    RotationsUndo(b.l);
    RotationsUndo(b.r);
  }

  /** `des` computes the standard's cipher: the initial permutation of what it writes is the exchanged
      halves that the sixteen rounds make of the initial permutation of what it reads, for every key,
      block and mode and whatever the tables hold. */
  lemma CodeIsStandard(sp: SpTables, key: Key, edf: int, s: seq<Byte>, b: Block)
    requires |s| == 8 && IsInitialPermutation(s, b)
    ensures IsInitialPermutation(Crypt(sp, s, Schedule(key, edf)), Swapped(StandardRounds(sp, key, edf, b, 16)))
  {
    hide Lefted, Righted, Opening, Closing, Pack, Unpack, Rounds, StandardRounds, Schedule, Fval, IsInitialPermutation;
    var ks, c := Schedule(key, edf), StandardRounds(sp, key, edf, b, 16);
    PermutedOnce(s, b);
    LeftedRighted(Opening(Pack(s)));
    assert Opening(Pack(s)) == Lefted(b);
    RoundsAreStandard(sp, key, edf, b, 16);
    assert ks[..16] == ks;
    var out := Closing(Lefted(c));
    assert Crypt(sp, s, ks) == Unpack(out);
    UnpackThenPack(out);
    OpeningUndoesClosing(Lefted(c));
    SwappedLefted(c);
    LeftedRighted(Swapped(c));
    PermutedOnce(Unpack(out), Swapped(c));
  }

  lemma SwappedLefted(b: Block)
    ensures Swapped(Lefted(b)) == Lefted(Swapped(b))
  {
  }
}
