/** The same data path on 64-bit words, where left shifts carry bits above the 32 that matter. No
    such bit reaches the output, so the two builds of the source compute the same bytes. */
module DesWidth {
  import opened DesWords
  import opened DesFeistel
  import opened DesKeys
  import opened DesCipher

  type Wide = bv64
  datatype WideBlock = WideBlock(l: Wide, r: Wide)

  function Low(w: Wide): Word { Word((w & 0xffffffff) as Bits) }

  function LowBlock(b: WideBlock): Block { Block(Low(b.l), Low(b.r)) }

  function Widened(w: Word): Wide { w.bits as bv64 }

  predicate Clean(w: Wide) { w >> 32 == 0 }

  function WideXor(a: Wide, b: Wide): Wide { a ^ b }

  function WideWork(d: Distance, l: Wide, r: Wide): Wide {
    match d
    case D2 => ((l >> 2) ^ r) & 0x33333333
    case D4 => ((l >> 4) ^ r) & 0x0f0f0f0f
    case D8 => ((l >> 8) ^ r) & 0x00ff00ff
    case D16 => ((l >> 16) ^ r) & 0x0000ffff
  }

  function WideUp(d: Distance, w: Wide): Wide {
    match d
    case D2 => w << 2
    case D4 => w << 4
    case D8 => w << 8
    case D16 => w << 16
  }

  function WideMove(d: Distance, b: WideBlock): WideBlock {
    var w := WideWork(d, b.l, b.r);
    WideBlock(WideXor(b.l, WideUp(d, w)), WideXor(b.r, w))
  }

  function WideAlternate(l: Wide, r: Wide): Wide {
    (l ^ r) & 0xaaaaaaaa
  }

  function WideMix(b: WideBlock): WideBlock {
    var w := WideAlternate(b.l, b.r);
    WideBlock(WideXor(b.l, w), WideXor(b.r, w))
  }

  function WideRotateLeft(w: Wide): Wide {
    ((w << 1) | ((w >> 31) & 1)) & 0xffffffff
  }

  function WideRotateRight(w: Wide): Wide {
    (w << 31) | (w >> 1)
  }

  function WideTurned(w: Wide): Wide {
    (w << 28) | (w >> 4)
  }

  function WideSwapped(b: WideBlock): WideBlock {
    WideBlock(b.r, b.l)
  }

  function WideOpening(b: WideBlock): WideBlock {
    var c := WideSwapped(WideMove(D8, WideMove(D2, WideSwapped(WideMove(D16, WideMove(D4, b))))));
    var d := WideMix(WideBlock(c.l, WideRotateLeft(c.r)));
    WideBlock(WideRotateLeft(d.l), d.r)
  }

  function WideClosing(b: WideBlock): WideBlock {
    var c := WideMix(WideBlock(b.l, WideRotateRight(b.r)));
    var d := WideMove(D2, WideMove(D8, WideBlock(WideRotateRight(c.l), c.r)));
    WideMove(D4, WideMove(D16, WideSwapped(d)))
  }

  /** `work & 0x3f` and its shifted forms look at the low 30 bits only, so the tables are indexed
      through `Low`; their entries are 32-bit constants. */
  function WideRoundValue(sp: SpTables, right: Wide, k: KeyPair): Wide {
    Widened(Or(Odd(sp, Low(WideXor(WideTurned(right), Widened(k.k0)))), Even(sp, Low(WideXor(right, Widened(k.k1))))))
  }

  function WideStep(sp: SpTables, b: WideBlock, k: KeyPair): WideBlock {
    WideBlock(b.r, WideXor(b.l, WideRoundValue(sp, b.r, k)))
  }

  function WideRounds(sp: SpTables, b: WideBlock, ks: seq<KeyPair>): WideBlock {
    if ks == [] then b else WideStep(sp, WideRounds(sp, b, ks[..|ks| - 1]), ks[|ks| - 1])
  }

  function WideDesfunc(sp: SpTables, b: WideBlock, ks: seq<KeyPair>): WideBlock {
    WideClosing(WideRounds(sp, WideOpening(b), ks))
  }

  lemma LowXor(a: Wide, b: Wide)
    ensures Low(WideXor(a, b)) == Xor(Low(a), Low(b))
  {
  }

  lemma LowWork(d: Distance, l: Wide, r: Wide)
    ensures Low(WideWork(d, l, r)) == Work(d, Low(l), Low(r))
  {
    match d
    case D2 =>
    case D4 =>
    case D8 =>
    case D16 =>
  }

  lemma LowUp2(w: Wide)
    ensures Low(w << 2) == Up(D2, Low(w))
  {
  }

  lemma LowUp4(w: Wide)
    ensures Low(w << 4) == Up(D4, Low(w))
  {
  }

  lemma LowUp8(w: Wide)
    ensures Low(w << 8) == Up(D8, Low(w))
  {
  }

  lemma LowUp16(w: Wide)
    ensures Low(w << 16) == Up(D16, Low(w))
  {
  }

  lemma LowUp(d: Distance, w: Wide)
    ensures Low(WideUp(d, w)) == Up(d, Low(w))
  {
    hide Low, Up;
    match d
    case D2 => LowUp2(w);
    case D4 => LowUp4(w);
    case D8 => LowUp8(w);
    case D16 => LowUp16(w);
  }

  lemma LowMove(d: Distance, b: WideBlock)
    ensures LowBlock(WideMove(d, b)) == Move(d, LowBlock(b))
  {
    hide Low, WideXor, WideWork, WideUp, Xor, Work, Up;
    var w := WideWork(d, b.l, b.r);
    LowWork(d, b.l, b.r);
    LowUp(d, w);
    LowXor(b.l, WideUp(d, w));
    LowXor(b.r, w);
  }

  lemma LowAlternate(l: Wide, r: Wide)
    ensures Low(WideAlternate(l, r)) == Alternate(Low(l), Low(r))
  {
  }

  lemma LowMix(b: WideBlock)
    ensures LowBlock(WideMix(b)) == Mix(LowBlock(b))
  {
    hide Low, WideXor, WideAlternate, Xor, Alternate;
    LowAlternate(b.l, b.r);
    LowXor(b.l, WideAlternate(b.l, b.r));
    LowXor(b.r, WideAlternate(b.l, b.r));
  }

  lemma LowRotateLeft(w: Wide)
    ensures Low(WideRotateLeft(w)) == RotateLeft(Low(w))
  {
  }

  lemma RotateLeftCleans(w: Wide)
    ensures Clean(WideRotateLeft(w))
  {
  }

  lemma LowRotateRight(w: Wide)
    requires Clean(w)
    ensures Low(WideRotateRight(w)) == RotateRight(Low(w))
  {
  }

  lemma LowTurned(w: Wide)
    requires Clean(w)
    ensures Low(WideTurned(w)) == Turned(Low(w))
  {
  }

  lemma LowWidened(w: Word)
    ensures Low(Widened(w)) == w
  {
  }

  lemma CleanWidened(w: Word)
    ensures Clean(Widened(w))
  {
  }

  lemma CleanXor(a: Wide, b: Wide)
    requires Clean(a) && Clean(b)
    ensures Clean(WideXor(a, b))
  {
  }

  lemma AlternateIsClean(l: Wide, r: Wide)
    ensures Clean(WideAlternate(l, r))
  {
  }

  lemma OpeningIsNarrow(b: WideBlock)
    ensures LowBlock(WideOpening(b)) == Opening(LowBlock(b))
    ensures Clean(WideOpening(b).l) && Clean(WideOpening(b).r)
  {
    hide Low, WideMove, Move, WideXor, WideAlternate, Mix, Clean, WideRotateLeft, RotateLeft;
    var e := WideSwapped(WideMove(D16, WideMove(D4, b)));
    LowMove(D4, b);
    LowMove(D16, WideMove(D4, b));
    LowMove(D2, e);
    LowMove(D8, WideMove(D2, e));
    var c := WideSwapped(WideMove(D8, WideMove(D2, e)));
    LowRotateLeft(c.r);
    var c0 := WideBlock(c.l, WideRotateLeft(c.r));
    LowMix(c0);
    LowRotateLeft(WideMix(c0).l);
    RotateLeftCleans(WideMix(c0).l);
    RotateLeftCleans(c.r);
    AlternateIsClean(c0.l, c0.r);
    CleanXor(c0.r, WideAlternate(c0.l, c0.r));
  }

  lemma ClosingIsNarrow(b: WideBlock)
    requires Clean(b.l) && Clean(b.r)
    ensures LowBlock(WideClosing(b)) == Closing(LowBlock(b))
  {
    hide Low, WideMove, Move, WideXor, WideAlternate, Mix, Clean, WideRotateRight, RotateRight;
    LowRotateRight(b.r);
    var b0 := WideBlock(b.l, WideRotateRight(b.r));
    LowMix(b0);
    AlternateIsClean(b0.l, b0.r);
    CleanXor(b0.l, WideAlternate(b0.l, b0.r));
    var c := WideMix(b0);
    LowRotateRight(c.l);
    var d := WideBlock(WideRotateRight(c.l), c.r);
    LowMove(D8, d);
    LowMove(D2, WideMove(D8, d));
    var e := WideSwapped(WideMove(D2, WideMove(D8, d)));
    LowMove(D16, e);
    LowMove(D4, WideMove(D16, e));
  }

  lemma RoundValueIsNarrow(sp: SpTables, right: Wide, k: KeyPair)
    requires Clean(right)
    ensures Low(WideRoundValue(sp, right, k)) == RoundValue(sp, Low(right), k)
    ensures Clean(WideRoundValue(sp, right, k))
  {
    hide Low, WideXor, Xor, Clean, Odd, Even, Or, WideTurned, Turned, Widened;
    LowXor(WideTurned(right), Widened(k.k0));
    LowXor(right, Widened(k.k1));
    LowTurned(right);
    LowWidened(k.k0);
    LowWidened(k.k1);
    LowWidened(RoundValue(sp, Low(right), k));
    CleanWidened(RoundValue(sp, Low(right), k));
  }

  lemma {:induction false} RoundsAreNarrow(sp: SpTables, b: WideBlock, ks: seq<KeyPair>)
    requires Clean(b.l) && Clean(b.r)
    ensures var c := WideRounds(sp, b, ks);
            Clean(c.l) && Clean(c.r) && LowBlock(c) == Rounds(Fval(sp), LowBlock(b), ks)
  {
    hide Low, WideXor, Xor, Clean, WideRoundValue, RoundValue;
    if ks != [] {
      var before, k := ks[..|ks| - 1], ks[|ks| - 1];
      RoundsAreNarrow(sp, b, before);
      var c := WideRounds(sp, b, before);
      RoundValueIsNarrow(sp, c.r, k);
      LowXor(c.l, WideRoundValue(sp, c.r, k));
      CleanXor(c.l, WideRoundValue(sp, c.r, k));
    }
  }

  /** `desfunc` on 64-bit words agrees with `desfunc` on 32-bit words in the bits that are kept,
      whatever the input words hold above bit 31. */
  lemma WidthDoesNotMatter(sp: SpTables, b: WideBlock, ks: seq<KeyPair>)
    ensures LowBlock(WideDesfunc(sp, b, ks)) == Desfunc(sp, LowBlock(b), ks)
  {
    hide WideOpening, WideClosing, Opening, Closing, LowBlock, WideRounds, Rounds, Clean;
    OpeningIsNarrow(b);
    RoundsAreNarrow(sp, WideOpening(b), ks);
    ClosingIsNarrow(WideRounds(sp, WideOpening(b), ks));
  }
}
