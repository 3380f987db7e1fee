/** The data path of the block cipher that does not depend on any key: bytes to words and back, and
    the swap-moves before and after the rounds. */
module DesWords {

  type Byte = bv8
  type Bits = bv32

  /** A machine word. The operations on it are named, so that a lemma about whole words need not
      look at single bits. */
  datatype Word = Word(bits: Bits)

  function Xor(a: Word, b: Word): Word { Word(a.bits ^ b.bits) }

  function Or(a: Word, b: Word): Word { Word(a.bits | b.bits) }

  function Not(a: Word): Word { Word(!a.bits) }

  const ZERO := Word(0)

  /** The two halves that `desfunc` calls leftt and right. */
  datatype Block = Block(l: Word, r: Word)

  function Swapped(b: Block): Block {
    Block(b.r, b.l)
  }

  // ---- Bytes and words (scrunch, unscrun) ----

  function PackWord(a: Byte, b: Byte, c: Byte, d: Byte): Word {
    Word(((a as Bits) << 24) | ((b as Bits) << 16) | ((c as Bits) << 8) | (d as Bits))
  }

  function Pack(s: seq<Byte>): Block
    requires |s| == 8
  {
    Block(PackWord(s[0], s[1], s[2], s[3]), PackWord(s[4], s[5], s[6], s[7]))
  }

  function UnpackWord(w: Word): (s: seq<Byte>)
    ensures |s| == 4
  {
    [((w.bits >> 24) & 0xff) as Byte, ((w.bits >> 16) & 0xff) as Byte,
     ((w.bits >> 8) & 0xff) as Byte, (w.bits & 0xff) as Byte]
  }

  function Unpack(b: Block): (s: seq<Byte>)
    ensures |s| == 8
  {
    UnpackWord(b.l) + UnpackWord(b.r)
  }

  lemma UnpackThenPackWord(w: Word)
    ensures var s := UnpackWord(w); PackWord(s[0], s[1], s[2], s[3]) == w
  {
  }

  lemma HighBytes(a: Byte, b: Byte, c: Byte, d: Byte)
    ensures ((PackWord(a, b, c, d).bits >> 24) & 0xff) as Byte == a
    ensures ((PackWord(a, b, c, d).bits >> 16) & 0xff) as Byte == b
  {
  }

  lemma LowBytes(a: Byte, b: Byte, c: Byte, d: Byte)
    ensures ((PackWord(a, b, c, d).bits >> 8) & 0xff) as Byte == c
    ensures (PackWord(a, b, c, d).bits & 0xff) as Byte == d
  {
  }

  lemma PackThenUnpackWord(a: Byte, b: Byte, c: Byte, d: Byte)
    ensures UnpackWord(PackWord(a, b, c, d)) == [a, b, c, d]
  {
    hide PackWord;
    HighBytes(a, b, c, d);
    LowBytes(a, b, c, d);
  }

  lemma UnpackThenPack(b: Block)
    ensures Pack(Unpack(b)) == b
  {
    hide PackWord, UnpackWord;
    UnpackThenPackWord(b.l);
    UnpackThenPackWord(b.r);
  }

  lemma PackThenUnpack(s: seq<Byte>)
    requires |s| == 8
    ensures Unpack(Pack(s)) == s
  {
    hide PackWord, UnpackWord;
    PackThenUnpackWord(s[0], s[1], s[2], s[3]);
    PackThenUnpackWord(s[4], s[5], s[6], s[7]);
    assert s == [s[0], s[1], s[2], s[3]] + [s[4], s[5], s[6], s[7]];
  }

  // ---- Swap-moves ----

  /** The distances of the four swap-moves. */
  datatype Distance = D2 | D4 | D8 | D16

  /** The source's `work`: the masked bits in which `r` differs from the bits of `l` that lie the
      distance higher. */
  function Work(d: Distance, l: Word, r: Word): Word {
    match d
    case D2 => Word(((l.bits >> 2) ^ r.bits) & 0x33333333)
    case D4 => Word(((l.bits >> 4) ^ r.bits) & 0x0f0f0f0f)
    case D8 => Word(((l.bits >> 8) ^ r.bits) & 0x00ff00ff)
    case D16 => Word(((l.bits >> 16) ^ r.bits) & 0x0000ffff)
  }

  function Up(d: Distance, w: Word): Word {
    match d
    case D2 => Word(w.bits << 2)
    case D4 => Word(w.bits << 4)
    case D8 => Word(w.bits << 8)
    case D16 => Word(w.bits << 16)
  }

  /** One swap-move. */
  function Move(d: Distance, b: Block): Block {
    var w := Work(d, b.l, b.r);
    Block(Xor(b.l, Up(d, w)), Xor(b.r, w))
  }

  /** The bits in which the halves differ at every other position. */
  function Alternate(l: Word, r: Word): Word {
    Word((l.bits ^ r.bits) & 0xaaaaaaaa)
  }

  function Mix(b: Block): Block {
    var w := Alternate(b.l, b.r);
    Block(Xor(b.l, w), Xor(b.r, w))
  }

  function RotateLeft(w: Word): Word {
    Word((w.bits << 1) | ((w.bits >> 31) & 1))
  }

  function RotateRight(w: Word): Word {
    Word((w.bits << 31) | (w.bits >> 1))
  }

  /** The statements of `desfunc` before its rounds. */
  function Opening(b: Block): Block {
    var c := Swapped(Move(D8, Move(D2, Swapped(Move(D16, Move(D4, b))))));
    var d := Mix(Block(c.l, RotateLeft(c.r)));
    Block(RotateLeft(d.l), d.r)
  }

  /** The statements of `desfunc` after its rounds; the halves are stored exchanged. */
  function Closing(b: Block): Block {
    var c := Mix(Block(b.l, RotateRight(b.r)));
    var d := Move(D2, Move(D8, Block(RotateRight(c.l), c.r)));
    Move(D4, Move(D16, Swapped(d)))
  }

  lemma XorTwice(a: Word, f: Word)
    ensures Xor(Xor(a, f), f) == a
  {
  }

  lemma WorkKept(d: Distance, l: Word, r: Word)
    ensures var w := Work(d, l, r); Work(d, Xor(l, Up(d, w)), Xor(r, w)) == w
  {
    match d
    case D2 =>
    case D4 =>
    case D8 =>
    case D16 =>
  }

  lemma MoveUndoes(d: Distance, b: Block)
    ensures Move(d, Move(d, b)) == b
  {
    hide Xor, Work, Up;
    var w := Work(d, b.l, b.r);
    WorkKept(d, b.l, b.r);
    XorTwice(b.l, Up(d, w));
    XorTwice(b.r, w);
  }

  lemma AlternateKept(l: Word, r: Word)
    ensures var w := Alternate(l, r); Alternate(Xor(r, w), Xor(l, w)) == w
  {
  }

  lemma MixUndoes(b: Block)
    ensures Mix(Swapped(Mix(b))) == Swapped(b)
  {
    hide Xor, Alternate;
    var w := Alternate(b.l, b.r);
    AlternateKept(b.l, b.r);
    XorTwice(b.l, w);
    XorTwice(b.r, w);
  }

  lemma RotationsUndo(w: Word)
    ensures RotateLeft(RotateRight(w)) == w && RotateRight(RotateLeft(w)) == w
  {
  }

  /** The closing swap-moves undo the opening ones, with the halves exchanged on the way. */
  lemma OpeningUndoesClosing(b: Block)
    ensures Opening(Closing(b)) == Swapped(b)
  {
    hide Move, Mix, RotateLeft, RotateRight;
    var b0 := Block(b.l, RotateRight(b.r));
    var c := Mix(b0);
    var d := Block(RotateRight(c.l), c.r);
    MoveUndoes(D4, Move(D16, Swapped(Move(D2, Move(D8, d)))));
    MoveUndoes(D16, Swapped(Move(D2, Move(D8, d))));
    MoveUndoes(D2, Move(D8, d));
    MoveUndoes(D8, d);
    RotationsUndo(c.l);
    RotationsUndo(b.r);
    MixUndoes(b0);
  }

  lemma ClosingUndoesOpening(b: Block)
    ensures Closing(Swapped(Opening(b))) == b
  {
    hide Move, Mix, RotateLeft, RotateRight;
    var e := Swapped(Move(D16, Move(D4, b)));
    var c := Swapped(Move(D8, Move(D2, e)));
    var c0 := Block(c.l, RotateLeft(c.r));
    RotationsUndo(Mix(c0).l);
    RotationsUndo(c.r);
    MixUndoes(c0);
    MoveUndoes(D8, Move(D2, e));
    MoveUndoes(D2, e);
    MoveUndoes(D16, Move(D4, b));
    MoveUndoes(D4, b);
  }

  // ---- Complementing both halves ----

  function Inverted(b: Block): Block {
    Block(Not(b.l), Not(b.r))
  }

  lemma NotXor(a: Word, w: Word)
    ensures Xor(Not(a), w) == Not(Xor(a, w))
  {
  }

  lemma LeftInverts(w: Word)
    ensures RotateLeft(Not(w)) == Not(RotateLeft(w))
  {
  }

  lemma RightInverts(w: Word)
    ensures RotateRight(Not(w)) == Not(RotateRight(w))
  {
  }

  lemma WorkIgnores(d: Distance, l: Word, r: Word)
    ensures Work(d, Not(l), Not(r)) == Work(d, l, r)
  {
    match d
    case D2 =>
    case D4 =>
    case D8 =>
    case D16 =>
  }

  lemma AlternateIgnores(l: Word, r: Word)
    ensures Alternate(Not(l), Not(r)) == Alternate(l, r)
  {
  }

  lemma MoveInverts(d: Distance, b: Block)
    ensures Move(d, Inverted(b)) == Inverted(Move(d, b))
  {
    hide Xor, Not, Work, Up;
    WorkIgnores(d, b.l, b.r);
    NotXor(b.l, Up(d, Work(d, b.l, b.r)));
    NotXor(b.r, Work(d, b.l, b.r));
  }

  lemma MixInverts(b: Block)
    ensures Mix(Inverted(b)) == Inverted(Mix(b))
  {
    hide Xor, Not, Alternate;
    AlternateIgnores(b.l, b.r);
    NotXor(b.l, Alternate(b.l, b.r));
    NotXor(b.r, Alternate(b.l, b.r));
  }

  lemma InvertedOpens(b: Block)
    ensures Opening(Inverted(b)) == Inverted(Opening(b))
  {
    hide Move, Mix, RotateLeft, Not;
    MoveInverts(D4, b);
    MoveInverts(D16, Move(D4, b));
    var e := Swapped(Move(D16, Move(D4, b)));
    MoveInverts(D2, e);
    MoveInverts(D8, Move(D2, e));
    var c := Swapped(Move(D8, Move(D2, e)));
    LeftInverts(c.r);
    MixInverts(Block(c.l, RotateLeft(c.r)));
    LeftInverts(Mix(Block(c.l, RotateLeft(c.r))).l);
  }

  lemma InvertedCloses(b: Block)
    ensures Closing(Inverted(b)) == Inverted(Closing(b))
  {
    hide Move, Mix, RotateRight, Not;
    RightInverts(b.r);
    MixInverts(Block(b.l, RotateRight(b.r)));
    var c := Mix(Block(b.l, RotateRight(b.r)));
    RightInverts(c.l);
    var d := Block(RotateRight(c.l), c.r);
    MoveInverts(D8, d);
    MoveInverts(D2, Move(D8, d));
    var e := Swapped(Move(D2, Move(D8, d)));
    MoveInverts(D16, e);
    MoveInverts(D4, Move(D16, e));
  }
}
