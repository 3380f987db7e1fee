/** Where single bits go: each word operation of the cipher told by the one bit a mask picks out. */
module DesBits {
  import opened DesWords
  import opened DesKeys

  /** The mask of bit `p`, counted from 0 at the left. */
  function Mask(p: nat): Word
    requires p < 32
  {
    Word(0x8000_0000 >> p)
  }

  predicate Has(w: Word, m: Word) {
    w.bits & m.bits != 0
  }

  function WordBit(w: Word, p: nat): bool
    requires p < 32
  {
    Has(w, Mask(p))
  }

  /** A mask of one bit. */
  predicate Single(m: Word) {
    m.bits != 0 && m.bits & (m.bits - 1) == 0
  }

  function And(a: Word, b: Word): Word { Word(a.bits & b.bits) }

  lemma AndSingle(a: Word, m: Word)
    requires Single(m)
    ensures And(a, m) == ZERO || And(a, m) == m
  {
  }

  lemma XorAnd(a: Word, c: Word, m: Word)
    ensures And(Xor(a, c), m) == Xor(And(a, m), And(c, m))
  {
  }

  lemma XorSelf(m: Word)
    ensures Xor(m, m) == ZERO
  {
  }

  lemma ZeroXor(m: Word)
    ensures Xor(ZERO, m) == m
  {
  }

  lemma HasAnd(a: Word, m: Word)
    ensures Has(a, m) <==> And(a, m) != ZERO
  {
  }

  lemma SingleNotZero(m: Word)
    requires Single(m)
    ensures m != ZERO
  {
  }

  lemma XorHas(a: Word, c: Word, m: Word)
    requires Single(m)
    ensures Has(Xor(a, c), m) == (Has(a, m) != Has(c, m))
  {
    hide Has, Single, And, Xor;
    HasAnd(a, m);
    HasAnd(c, m);
    HasAnd(Xor(a, c), m);
    XorAnd(a, c, m);
    AndSingle(a, m);
    AndSingle(c, m);
    SingleNotZero(m);
    XorSelf(m);
    XorZero(m);
    ZeroXor(m);
    ZeroXor(ZERO);
  }

  lemma LeftHas(w: Word, m: Word)
    ensures Has(RotateLeft(w), m) == Has(w, RotateRight(m))
  {
  }

  lemma RightHas(w: Word, m: Word)
    ensures Has(RotateRight(w), m) == Has(w, RotateLeft(m))
  {
  }

  function TurnedBack(m: Word): Word {
    Word((m.bits << 4) | (m.bits >> 28))
  }

  lemma TurnedHas(w: Word, m: Word)
    ensures Has(Turned(w), m) == Has(w, TurnedBack(m))
  {
  }

  predicate InField(d: Distance, m: Word) {
    match d
    case D2 => m.bits & 0x33333333 != 0
    case D4 => m.bits & 0x0f0f0f0f != 0
    case D8 => m.bits & 0x00ff00ff != 0
    case D16 => m.bits & 0x0000ffff != 0
  }

  function Lowered(d: Distance, m: Word): Word {
    match d
    case D2 => Word(m.bits >> 2)
    case D4 => Word(m.bits >> 4)
    case D8 => Word(m.bits >> 8)
    case D16 => Word(m.bits >> 16)
  }

  function FieldWord(d: Distance): Word {
    match d
    case D2 => Word(0x33333333)
    case D4 => Word(0x0f0f0f0f)
    case D8 => Word(0x00ff00ff)
    case D16 => Word(0x0000ffff)
  }

  lemma WorkAsWords(d: Distance, l: Word, r: Word)
    ensures Work(d, l, r) == And(Xor(Lowered(d, l), r), FieldWord(d))
  {
  }

  lemma AndHas(a: Word, f: Word, m: Word)
    requires Single(m)
    ensures Has(And(a, f), m) == (Has(a, m) && Has(f, m))
  {
    hide Has, Single, And;
    HasAnd(a, m);
    HasAnd(f, m);
    HasAnd(And(a, f), m);
    AndSingle(a, m);
    AndSingle(f, m);
    AndOfAnds(a, f, m);
    AndSelf(m);
    SingleNotZero(m);
  }

  lemma AndOfAnds(a: Word, f: Word, m: Word)
    ensures And(And(a, f), m) == And(And(a, m), And(f, m))
  {
  }

  lemma AndSelf(m: Word)
    ensures And(m, m) == m && And(m, ZERO) == ZERO && And(ZERO, m) == ZERO && And(ZERO, ZERO) == ZERO
  {
  }

  lemma LoweredHasD2(w: Word, m: Word)
    ensures Has(Lowered(D2, w), m) == Has(w, Up(D2, m))
  {
  }

  lemma LoweredHasD4(w: Word, m: Word)
    ensures Has(Lowered(D4, w), m) == Has(w, Up(D4, m))
  {
  }

  lemma LoweredHasD8(w: Word, m: Word)
    ensures Has(Lowered(D8, w), m) == Has(w, Up(D8, m))
  {
  }

  lemma LoweredHasD16(w: Word, m: Word)
    ensures Has(Lowered(D16, w), m) == Has(w, Up(D16, m))
  {
  }

  lemma LoweredHas(d: Distance, w: Word, m: Word)
    ensures Has(Lowered(d, w), m) == Has(w, Up(d, m))
  {
    hide Has, Up, Lowered;
    match d
    case D2 => LoweredHasD2(w, m);
    case D4 => LoweredHasD4(w, m);
    case D8 => LoweredHasD8(w, m);
    case D16 => LoweredHasD16(w, m);
  }

  lemma UpHasD2(w: Word, m: Word)
    ensures Has(Up(D2, w), m) == Has(w, Lowered(D2, m))
  {
  }

  lemma UpHasD4(w: Word, m: Word)
    ensures Has(Up(D4, w), m) == Has(w, Lowered(D4, m))
  {
  }

  lemma UpHasD8(w: Word, m: Word)
    ensures Has(Up(D8, w), m) == Has(w, Lowered(D8, m))
  {
  }

  lemma UpHasD16(w: Word, m: Word)
    ensures Has(Up(D16, w), m) == Has(w, Lowered(D16, m))
  {
  }

  lemma UpHas(d: Distance, w: Word, m: Word)
    ensures Has(Up(d, w), m) == Has(w, Lowered(d, m))
  {
    hide Has, Up, Lowered;
    match d
    case D2 => UpHasD2(w, m);
    case D4 => UpHasD4(w, m);
    case D8 => UpHasD8(w, m);
    case D16 => UpHasD16(w, m);
  }

  lemma FieldHas(d: Distance, m: Word)
    ensures Has(FieldWord(d), m) == InField(d, m)
  {
  }

  lemma WorkHas(d: Distance, l: Word, r: Word, m: Word)
    requires Single(m)
    ensures Has(Work(d, l, r), m) == (InField(d, m) && Has(l, Up(d, m)) != Has(r, m))
  {
    hide Has, Single, And, Xor, Lowered, FieldWord, InField, Work, Up;
    WorkAsWords(d, l, r);
    AndHas(Xor(Lowered(d, l), r), FieldWord(d), m);
    XorHas(Lowered(d, l), r, m);
    LoweredHas(d, l, m);
    FieldHas(d, m);
  }

  const EVENS := Word(0xaaaaaaaa)

  lemma AlternateHas(l: Word, r: Word, m: Word)
    requires Single(m)
    ensures Has(Alternate(l, r), m) == (Has(EVENS, m) && Has(l, m) != Has(r, m))
  {
    assert Alternate(l, r) == And(Xor(l, r), EVENS) by { AlternateAsWords(l, r); }
    hide Has, Single, And, Xor, Alternate;
    AndHas(Xor(l, r), EVENS, m);
    XorHas(l, r, m);
  }

  lemma AlternateAsWords(l: Word, r: Word)
    ensures Alternate(l, r) == And(Xor(l, r), EVENS)
  {
  }

  lemma RaisedSingle(d: Distance, m: Word)
    requires Single(m) && InField(d, m)
    ensures Single(Up(d, m))
  {
    match d
    case D2 =>
    case D4 =>
    case D8 =>
    case D16 =>
  }

  lemma LoweredSingleD2(m: Word)
    requires Single(m) && Lowered(D2, m) != ZERO
    ensures Single(Lowered(D2, m))
  {
  }

  lemma RaisedAgainD2(m: Word)
    requires Single(m) && Lowered(D2, m) != ZERO
    ensures Up(D2, Lowered(D2, m)) == m
  {
  }

  lemma LoweredSingleD4(m: Word)
    requires Single(m) && Lowered(D4, m) != ZERO
    ensures Single(Lowered(D4, m))
  {
  }

  lemma RaisedAgainD4(m: Word)
    requires Single(m) && Lowered(D4, m) != ZERO
    ensures Up(D4, Lowered(D4, m)) == m
  {
  }

  lemma LoweredSingleD8(m: Word)
    requires Single(m) && Lowered(D8, m) != ZERO
    ensures Single(Lowered(D8, m))
  {
  }

  lemma RaisedAgainD8(m: Word)
    requires Single(m) && Lowered(D8, m) != ZERO
    ensures Up(D8, Lowered(D8, m)) == m
  {
  }

  lemma LoweredSingleD16(m: Word)
    requires Single(m) && Lowered(D16, m) != ZERO
    ensures Single(Lowered(D16, m))
  {
  }

  lemma RaisedAgainD16(m: Word)
    requires Single(m) && Lowered(D16, m) != ZERO
    ensures Up(D16, Lowered(D16, m)) == m
  {
  }

  lemma LoweredSingle(d: Distance, m: Word)
    requires Single(m) && Lowered(d, m) != ZERO
    ensures Single(Lowered(d, m)) && Up(d, Lowered(d, m)) == m
  {
    hide Single, Up, Lowered;
    match d
    case D2 => LoweredSingleD2(m); RaisedAgainD2(m);
    case D4 => LoweredSingleD4(m); RaisedAgainD4(m);
    case D8 => LoweredSingleD8(m); RaisedAgainD8(m);
    case D16 => LoweredSingleD16(m); RaisedAgainD16(m);
  }

  lemma NothingLowered(d: Distance, w: Word)
    ensures !Has(w, ZERO) && !InField(d, ZERO)
  {
  }

  // ---- Swap-moves ----

  /** A bit of a block. */
  datatype Place = Place(right: bool, mask: Word)

  function Bit(b: Block, x: Place): bool {
    Has(if x.right then b.r else b.l, x.mask)
  }

  /** Where a bit of the result of a swap-move comes from. */
  function MovedFrom(d: Distance, x: Place): Place {
    if x.right then if InField(d, x.mask) then Place(false, Up(d, x.mask)) else x
    else if InField(d, Lowered(d, x.mask)) then Place(true, Lowered(d, x.mask))
    else x
  }

  lemma MovedSingle(d: Distance, x: Place)
    requires Single(x.mask)
    ensures Single(MovedFrom(d, x).mask)
  {
    hide InField, Up, Lowered, Single;
    if x.right {
      if InField(d, x.mask) {
        RaisedSingle(d, x.mask);
      }
    } else if InField(d, Lowered(d, x.mask)) {
      NothingLowered(d, ZERO);
      LoweredSingle(d, x.mask);
    }
  }

  lemma MoveBit(d: Distance, b: Block, x: Place)
    requires Single(x.mask)
    ensures Bit(Move(d, b), x) == Bit(b, MovedFrom(d, x))
  {
    hide Has, Work, Up, Xor, Single, InField, Lowered;
    var w, m := Work(d, b.l, b.r), x.mask;
    if x.right {
      XorHas(b.r, w, m);
      WorkHas(d, b.l, b.r, m);
    } else {
      XorHas(b.l, Up(d, w), m);
      UpHas(d, w, m);
      NothingLowered(d, w);
      if Lowered(d, m) != ZERO {
        LoweredSingle(d, m);
        WorkHas(d, b.l, b.r, Lowered(d, m));
      }
    }
  }

  function MixedFrom(x: Place): Place {
    if Has(EVENS, x.mask) then Place(!x.right, x.mask) else x
  }

  lemma MixBit(b: Block, x: Place)
    requires Single(x.mask)
    ensures Bit(Mix(b), x) == Bit(b, MixedFrom(x))
  {
    hide Has, Alternate, Xor, Single;
    var w := Alternate(b.l, b.r);
    AlternateHas(b.l, b.r, x.mask);
    XorHas(b.l, w, x.mask);
    XorHas(b.r, w, x.mask);
  }

  function Other(x: Place): Place {
    Place(!x.right, x.mask)
  }

  lemma RightSingle(m: Word)
    requires Single(m)
    ensures Single(RotateRight(m))
  {
  }

  lemma LeftSingle(m: Word)
    requires Single(m)
    ensures Single(RotateLeft(m))
  {
  }

  /** The code keeps both halves turned left by one during the rounds. */
  function Lefted(b: Block): Block {
    Block(RotateLeft(b.l), RotateLeft(b.r))
  }

  function Righted(b: Block): Block {
    Block(RotateRight(b.l), RotateRight(b.r))
  }

  /** Where a bit comes from that the opening statements leave at `x`, not counting that turn. */
  function PermutedFrom(x: Place): Place {
    var a := MixedFrom(if x.right then Place(true, RotateLeft(x.mask)) else x);
    var c := if a.right then Place(true, RotateRight(a.mask)) else a;
    MovedFrom(D4, MovedFrom(D16, Other(MovedFrom(D2, MovedFrom(D8, Other(c))))))
  }

  lemma OpeningBit(b: Block, x: Place)
    requires Single(x.mask)
    ensures Bit(Righted(Opening(b)), x) == Bit(b, PermutedFrom(x))
  {
    hide Has, Move, Mix, RotateLeft, RotateRight, MovedFrom, Single;
    var m1 := Move(D4, b);
    var m2 := Move(D16, m1);
    var m3 := Move(D2, Swapped(m2));
    var c := Swapped(Move(D8, m3));
    var c0 := Block(c.l, RotateLeft(c.r));
    var d := Mix(c0);
    RotationsUndo(d.l);
    RightHas(d.r, x.mask);
    LeftSingle(x.mask);
    var x1 := if x.right then Place(true, RotateLeft(x.mask)) else x;
    var x2 := MixedFrom(x1);
    MixBit(c0, x1);
    RightSingle(x2.mask);
    LeftHas(c.r, x2.mask);
    var x3 := if x2.right then Place(true, RotateRight(x2.mask)) else x2;
    var x4 := MovedFrom(D8, Other(x3));
    MovedSingle(D8, Other(x3));
    MoveBit(D8, m3, Other(x3));
    var x5 := MovedFrom(D2, x4);
    MovedSingle(D2, x4);
    MoveBit(D2, Swapped(m2), x4);
    MovedSingle(D16, Other(x5));
    MoveBit(D16, m1, Other(x5));
    MoveBit(D4, b, MovedFrom(D16, Other(x5)));
  }
}
