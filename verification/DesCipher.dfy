/** `desfunc` and the block operations of the cipher as functions, with the laws the standard gives
    them: deciphering undoes enciphering for one, two and three keys and for chained blocks, and
    complementing key and input complements the output. */
module DesCipher {
  import opened DesWords
  import opened DesFeistel
  import opened DesKeys

  function Desfunc(sp: SpTables, b: Block, ks: seq<KeyPair>): Block {
    Closing(Rounds(Fval(sp), Opening(b), ks))
  }

  /** `des` under the key register `ks`. */
  function Crypt(sp: SpTables, s: seq<Byte>, ks: seq<KeyPair>): (t: seq<Byte>)
    requires |s| == 8
    ensures |t| == 8
  {
    Unpack(Desfunc(sp, Pack(s), ks))
  }

  lemma DesfuncUndoes(sp: SpTables, b: Block, ks: seq<KeyPair>)
    ensures Desfunc(sp, Desfunc(sp, b, ks), Reversed(ks)) == b
  {
    hide Opening, Closing, Fval, Rounds;
    var mid := Rounds(Fval(sp), Opening(b), ks);
    OpeningUndoesClosing(mid);
    RoundsUndo(Fval(sp), Opening(b), ks);
    ClosingUndoesOpening(b);
  }

  lemma CryptUndoes(sp: SpTables, s: seq<Byte>, ks: seq<KeyPair>)
    requires |s| == 8
    ensures Crypt(sp, Crypt(sp, s, ks), Reversed(ks)) == s
  {
    hide Desfunc, Pack, Unpack;
    UnpackThenPack(Desfunc(sp, Pack(s), ks));
    DesfuncUndoes(sp, Pack(s), ks);
    PackThenUnpack(s);
  }

  /** Either mode of `deskey` undoes the other, for every key, block and set of tables. */
  lemma DecipheringUndoesEnciphering(sp: SpTables, key: Key, s: seq<Byte>)
    requires |s| == 8
    ensures Crypt(sp, Crypt(sp, s, Schedule(key, EN0)), Schedule(key, DE1)) == s
    ensures Crypt(sp, Crypt(sp, s, Schedule(key, DE1)), Schedule(key, EN0)) == s
  {
    hide Crypt, Schedule;
    ScheduleReverses(key, EN0);
    CryptUndoes(sp, s, Schedule(key, EN0));
    CryptUndoes(sp, s, Schedule(key, DE1));
  }

  // ---- Complementation ----

  lemma PackInverts(s: seq<Byte>)
    requires |s| == 8
    ensures Pack(Complement(s)) == Inverted(Pack(s))
  {
    hide PackWord, Not;
    PackWordInverts(s[0], s[1], s[2], s[3]);
    PackWordInverts(s[4], s[5], s[6], s[7]);
  }

  lemma PackWordInverts(a: Byte, b: Byte, c: Byte, d: Byte)
    ensures PackWord(!a, !b, !c, !d) == Not(PackWord(a, b, c, d))
  {
  }

  lemma DesfuncInverts(sp: SpTables, b: Block, key: Key, edf: int)
    ensures Desfunc(sp, Inverted(b), Schedule(Complement(key), edf)) == Inverted(Desfunc(sp, b, Schedule(key, edf)))
  {
    hide Opening, Closing, Fval, Rounds, Inverted, Schedule, FlippedGroups;
    InvertedOpens(b);
    var ks, ls := Schedule(key, edf), Schedule(Complement(key), edf);
    forall t: nat | t < 16 ensures ls[t] == FlippedGroups(ks[t]) {
      ScheduleFlips(key, edf, t);
    }
    FvalIgnoresComplement(sp);
    RoundsComplement(Fval(sp), FlippedGroups, Opening(b), ks, ls);
    InvertedCloses(Rounds(Fval(sp), Opening(b), ks));
  }

  /** Complementing every bit of the key and of the input complements every bit of the output. */
  lemma Complementation(sp: SpTables, key: Key, edf: int, s: seq<Byte>)
    requires |s| == 8
    ensures Crypt(sp, Complement(s), Schedule(Complement(key), edf)) == Complement(Crypt(sp, s, Schedule(key, edf)))
  {
    hide Desfunc, Pack, Unpack, Inverted, Schedule;
    var out := Desfunc(sp, Pack(s), Schedule(key, edf));
    PackInverts(s);
    DesfuncInverts(sp, Pack(s), key, edf);
    UnpackThenPack(out);
    PackInverts(Unpack(out));
    PackThenUnpack(Complement(Unpack(out)));
  }

  // ---- Two and three keys ----

  /** The three key registers KnL, KnR and Kn3. */
  datatype Registers = Registers(knL: seq<KeyPair>, knR: seq<KeyPair>, kn3: seq<KeyPair>)

  function Opposite(mode: int): int {
    if mode == EN0 then DE1 else EN0
  }

  function TwoKeys(hexkey: seq<Byte>, mode: int): Registers
    requires |hexkey| == 16
  {
    var outer := Schedule(hexkey[..8], mode);
    Registers(outer, Schedule(hexkey[8..], Opposite(mode)), outer)
  }

  function ThreeKeys(hexkey: seq<Byte>, mode: int): Registers
    requires |hexkey| == 24
  {
    var first := if mode == EN0 then hexkey[..8] else hexkey[16..];
    var third := if mode == EN0 then hexkey[16..] else hexkey[..8];
    Registers(Schedule(first, mode), Schedule(hexkey[8..16], Opposite(mode)), Schedule(third, mode))
  }

  /** The registers that take back `r`: used in the other order, each one backwards. */
  function Undoing(r: Registers): Registers {
    Registers(Reversed(r.kn3), Reversed(r.knR), Reversed(r.knL))
  }

  lemma TwoKeysUndo(hexkey: seq<Byte>)
    requires |hexkey| == 16
    ensures TwoKeys(hexkey, DE1) == Undoing(TwoKeys(hexkey, EN0))
    ensures TwoKeys(hexkey, EN0) == Undoing(TwoKeys(hexkey, DE1))
  {
    hide Schedule;
    ScheduleReverses(hexkey[..8], EN0);
    ScheduleReverses(hexkey[8..], EN0);
  }

  lemma ThreeKeysUndo(hexkey: seq<Byte>)
    requires |hexkey| == 24
    ensures ThreeKeys(hexkey, DE1) == Undoing(ThreeKeys(hexkey, EN0))
    ensures ThreeKeys(hexkey, EN0) == Undoing(ThreeKeys(hexkey, DE1))
  {
    hide Schedule;
    ScheduleReverses(hexkey[..8], EN0);
    ScheduleReverses(hexkey[8..16], EN0);
    ScheduleReverses(hexkey[16..], EN0);
  }

  /** `Ddes` and `D2des` and `D3des` differ only in how many blocks they chain. */
  function Pass(sp: SpTables, bs: seq<Block>, ks: seq<KeyPair>): (cs: seq<Block>)
    ensures |cs| == |bs|
  {
    seq(|bs|, i requires 0 <= i < |bs| => Desfunc(sp, bs[i], ks))
  }

  /** The swaps between passes: each block's right half changes places with the left half of the
      block after it. */
  function Exchange(bs: seq<Block>): (cs: seq<Block>)
    ensures |cs| == |bs|
  {
    seq(|bs|, i requires 0 <= i < |bs| =>
      Block(if i == 0 then bs[i].l else bs[i - 1].r, if i == |bs| - 1 then bs[i].r else bs[i + 1].l))
  }

  function Chain(sp: SpTables, bs: seq<Block>, r: Registers): (cs: seq<Block>)
    ensures |cs| == |bs|
  {
    Pass(sp, Exchange(Pass(sp, Exchange(Pass(sp, bs, r.knL)), r.knR)), r.kn3)
  }

  lemma ExchangeAt(bs: seq<Block>, i: nat)
    requires i < |bs|
    ensures Exchange(bs)[i].l == if i == 0 then bs[i].l else bs[i - 1].r
    ensures Exchange(bs)[i].r == if i == |bs| - 1 then bs[i].r else bs[i + 1].l
  {
  }

  lemma ExchangeUndoesAt(bs: seq<Block>, i: nat)
    requires i < |bs|
    ensures Exchange(Exchange(bs))[i] == bs[i]
  {
    hide Exchange;
    var cs := Exchange(bs);
    ExchangeAt(cs, i);
    if i > 0 {
      ExchangeAt(bs, i - 1);
    } else {
      ExchangeAt(bs, 0);
    }
    if i < |bs| - 1 {
      ExchangeAt(bs, i + 1);
    } else {
      ExchangeAt(bs, i);
    }
  }

  lemma ExchangeUndoes(bs: seq<Block>)
    ensures Exchange(Exchange(bs)) == bs
  {
    hide Exchange;
    forall i: nat | i < |bs| ensures Exchange(Exchange(bs))[i] == bs[i] {
      ExchangeUndoesAt(bs, i);
    }
  }

  lemma PassUndoes(sp: SpTables, bs: seq<Block>, ks: seq<KeyPair>)
    ensures Pass(sp, Pass(sp, bs, ks), Reversed(ks)) == bs
  {
    forall i | 0 <= i < |bs| ensures Pass(sp, Pass(sp, bs, ks), Reversed(ks))[i] == bs[i] {
      hide Desfunc;
      DesfuncUndoes(sp, bs[i], ks);
    }
  }

  lemma ChainUndoes(sp: SpTables, bs: seq<Block>, r: Registers)
    ensures Chain(sp, Chain(sp, bs, r), Undoing(r)) == bs
  {
    hide Pass, Exchange;
    var p1 := Pass(sp, bs, r.knL);
    var p2 := Pass(sp, Exchange(p1), r.knR);
    PassUndoes(sp, Exchange(p2), r.kn3);
    ExchangeUndoes(p2);
    PassUndoes(sp, Exchange(p1), r.knR);
    ExchangeUndoes(p1);
    PassUndoes(sp, bs, r.knL);
  }

  function PackAll(s: seq<Byte>): (bs: seq<Block>)
    requires |s| % 8 == 0
    ensures |bs| == |s| / 8
  {
    if s == [] then [] else [Pack(s[..8])] + PackAll(s[8..])
  }

  function UnpackAll(bs: seq<Block>): (s: seq<Byte>)
    ensures |s| == 8 * |bs|
  {
    if bs == [] then [] else Unpack(bs[0]) + UnpackAll(bs[1..])
  }

  lemma {:induction false} UnpackAllThenPackAll(bs: seq<Block>)
    ensures PackAll(UnpackAll(bs)) == bs
  {
    if bs != [] {
      hide Pack, Unpack;
      var s := UnpackAll(bs);
      assert s[..8] == Unpack(bs[0]) && s[8..] == UnpackAll(bs[1..]);
      UnpackThenPack(bs[0]);
      UnpackAllThenPackAll(bs[1..]);
    }
  }

  lemma {:induction false} PackAllThenUnpackAll(s: seq<Byte>)
    requires |s| % 8 == 0
    ensures UnpackAll(PackAll(s)) == s
  {
    if s != [] {
      hide Pack, Unpack;
      PackThenUnpack(s[..8]);
      PackAllThenUnpackAll(s[8..]);
      assert s == s[..8] + s[8..];
    }
  }

  /** What `Ddes` (8 bytes), `D2des` (16) and `D3des` (24) write for the bytes they read. */
  function ChainCrypt(sp: SpTables, s: seq<Byte>, r: Registers): (t: seq<Byte>)
    requires |s| % 8 == 0
    ensures |t| == |s|
  {
    UnpackAll(Chain(sp, PackAll(s), r))
  }

  lemma ChainCryptUndoes(sp: SpTables, s: seq<Byte>, r: Registers)
    requires |s| % 8 == 0
    ensures ChainCrypt(sp, ChainCrypt(sp, s, r), Undoing(r)) == s
  {
    hide Chain, PackAll, UnpackAll;
    UnpackAllThenPackAll(Chain(sp, PackAll(s), r));
    ChainUndoes(sp, PackAll(s), r);
    PackAllThenUnpackAll(s);
  }

  /** Under two keys either mode undoes the other, over one block or over two chained ones. */
  lemma TwoKeyInversion(sp: SpTables, hexkey: seq<Byte>, s: seq<Byte>)
    requires |hexkey| == 16 && |s| % 8 == 0
    ensures ChainCrypt(sp, ChainCrypt(sp, s, TwoKeys(hexkey, EN0)), TwoKeys(hexkey, DE1)) == s
    ensures ChainCrypt(sp, ChainCrypt(sp, s, TwoKeys(hexkey, DE1)), TwoKeys(hexkey, EN0)) == s
  {
    hide ChainCrypt, TwoKeys, Undoing;
    TwoKeysUndo(hexkey);
    ChainCryptUndoes(sp, s, TwoKeys(hexkey, EN0));
    ChainCryptUndoes(sp, s, TwoKeys(hexkey, DE1));
  }

  /** Under three keys either mode undoes the other, over one block or over three chained ones. */
  lemma ThreeKeyInversion(sp: SpTables, hexkey: seq<Byte>, s: seq<Byte>)
    requires |hexkey| == 24 && |s| % 8 == 0
    ensures ChainCrypt(sp, ChainCrypt(sp, s, ThreeKeys(hexkey, EN0)), ThreeKeys(hexkey, DE1)) == s
    ensures ChainCrypt(sp, ChainCrypt(sp, s, ThreeKeys(hexkey, DE1)), ThreeKeys(hexkey, EN0)) == s
  {
    hide ChainCrypt, ThreeKeys, Undoing;
    ThreeKeysUndo(hexkey);
    ChainCryptUndoes(sp, s, ThreeKeys(hexkey, EN0));
    ChainCryptUndoes(sp, s, ThreeKeys(hexkey, DE1));
  }

  /** With both keys equal the two-key form is single enciphering. */
  lemma EqualKeysAreOneKey(sp: SpTables, key: Key, mode: int, s: seq<Byte>)
    requires |s| == 8 && (mode == EN0 || mode == DE1)
    ensures ChainCrypt(sp, s, TwoKeys(key + key, mode)) == Crypt(sp, s, Schedule(key, mode))
  {
    hide Desfunc, Schedule, Pack, Unpack;
    assert (key + key)[..8] == key && (key + key)[8..] == key;
    ScheduleReverses(key, mode);
    var outer := Schedule(key, mode);
    var b := Pack(s);
    assert s[..8] == s && s[8..] == [];
    assert PackAll(s) == [b] + PackAll([]);
    DesfuncUndoes(sp, b, outer);
    var c := Desfunc(sp, b, outer);
    assert Pass(sp, [b], outer) == [c] && Exchange([c]) == [c];
    assert Pass(sp, [c], Reversed(outer)) == [b] && Exchange([b]) == [b];
    assert UnpackAll([c]) == Unpack(c) + UnpackAll([]);
  }

  // ---- What the passes are ----

  /** Over a single block the three registers are three ciphers one after the other. */
  lemma ThreePasses(sp: SpTables, s: seq<Byte>, r: Registers)
    requires |s| == 8
    ensures ChainCrypt(sp, s, r) == Crypt(sp, Crypt(sp, Crypt(sp, s, r.knL), r.knR), r.kn3)
  {
    hide Desfunc, Pack, Unpack;
    assert s[..8] == s && s[8..] == [];
    var a := Pack(s);
    assert PackAll(s) == [a] + PackAll([]);
    var b := Desfunc(sp, a, r.knL);
    var c := Desfunc(sp, b, r.knR);
    var d := Desfunc(sp, c, r.kn3);
    assert Pass(sp, [a], r.knL) == [b] && Exchange([b]) == [b];
    assert Pass(sp, [b], r.knR) == [c] && Exchange([c]) == [c];
    assert Pass(sp, [c], r.kn3) == [d];
    assert UnpackAll([d]) == Unpack(d) + UnpackAll([]);
    UnpackThenPack(b);
    UnpackThenPack(c);
  }

  /** Two keys: encipher with the first, decipher with the second, encipher with the first; and the
      converse (FIPS PUB 46-3, Triple Data Encryption Algorithm). */
  lemma TwoKeysCompose(sp: SpTables, k1: Key, k2: Key, s: seq<Byte>)
    requires |s| == 8
    ensures ChainCrypt(sp, s, TwoKeys(k1 + k2, EN0)) ==
      Crypt(sp, Crypt(sp, Crypt(sp, s, Schedule(k1, EN0)), Schedule(k2, DE1)), Schedule(k1, EN0))
    ensures ChainCrypt(sp, s, TwoKeys(k1 + k2, DE1)) ==
      Crypt(sp, Crypt(sp, Crypt(sp, s, Schedule(k1, DE1)), Schedule(k2, EN0)), Schedule(k1, DE1))
  {
    hide ChainCrypt, Crypt, Schedule;
    assert (k1 + k2)[..8] == k1 && (k1 + k2)[8..] == k2;
    ThreePasses(sp, s, TwoKeys(k1 + k2, EN0));
    ThreePasses(sp, s, TwoKeys(k1 + k2, DE1));
  }

  /** Three keys: encipher, decipher, encipher with one after the other; and the converse. */
  lemma ThreeKeysCompose(sp: SpTables, k1: Key, k2: Key, k3: Key, s: seq<Byte>)
    requires |s| == 8
    ensures ChainCrypt(sp, s, ThreeKeys(k1 + k2 + k3, EN0)) ==
      Crypt(sp, Crypt(sp, Crypt(sp, s, Schedule(k1, EN0)), Schedule(k2, DE1)), Schedule(k3, EN0))
    ensures ChainCrypt(sp, s, ThreeKeys(k1 + k2 + k3, DE1)) ==
      Crypt(sp, Crypt(sp, Crypt(sp, s, Schedule(k3, DE1)), Schedule(k2, EN0)), Schedule(k1, DE1))
  {
    hide ChainCrypt, Crypt, Schedule;
    var all := k1 + k2 + k3;
    assert all[..8] == k1 && all[8..16] == k2 && all[16..] == k3;
    ThreePasses(sp, s, ThreeKeys(all, EN0));
    ThreePasses(sp, s, ThreeKeys(all, DE1));
  }

  /** Two chained blocks: between the passes the right half of the first and the left half of the second
      change places. */
  lemma TwoBlocks(sp: SpTables, a: Block, b: Block, r: Registers)
    ensures var p, q := Desfunc(sp, a, r.knL), Desfunc(sp, b, r.knL);
            var x, y := Desfunc(sp, Block(p.l, q.l), r.knR), Desfunc(sp, Block(p.r, q.r), r.knR);
            Chain(sp, [a, b], r) == [Desfunc(sp, Block(x.l, y.l), r.kn3), Desfunc(sp, Block(x.r, y.r), r.kn3)]
  {
    hide Desfunc;
    var p, q := Desfunc(sp, a, r.knL), Desfunc(sp, b, r.knL);
    var x, y := Desfunc(sp, Block(p.l, q.l), r.knR), Desfunc(sp, Block(p.r, q.r), r.knR);
    assert Exchange([p, q]) == [Block(p.l, q.l), Block(p.r, q.r)];
    assert Exchange([x, y]) == [Block(x.l, y.l), Block(x.r, y.r)];
    assert Pass(sp, [a, b], r.knL) == [p, q];
    assert Pass(sp, [Block(p.l, q.l), Block(p.r, q.r)], r.knR) == [x, y];
  }

  /** Three: the two pairs of neighbouring halves do. */
  lemma ThreeBlocks(sp: SpTables, a: Block, b: Block, c: Block, r: Registers)
    ensures var p, q, t := Desfunc(sp, a, r.knL), Desfunc(sp, b, r.knL), Desfunc(sp, c, r.knL);
            var x, y, z := Desfunc(sp, Block(p.l, q.l), r.knR), Desfunc(sp, Block(p.r, t.l), r.knR), Desfunc(sp, Block(q.r, t.r), r.knR);
            Chain(sp, [a, b, c], r) ==
              [Desfunc(sp, Block(x.l, y.l), r.kn3), Desfunc(sp, Block(x.r, z.l), r.kn3), Desfunc(sp, Block(y.r, z.r), r.kn3)]
  {
    hide Desfunc;
    var p, q, t := Desfunc(sp, a, r.knL), Desfunc(sp, b, r.knL), Desfunc(sp, c, r.knL);
    var p2, q2, t2 := Block(p.l, q.l), Block(p.r, t.l), Block(q.r, t.r);
    var x, y, z := Desfunc(sp, p2, r.knR), Desfunc(sp, q2, r.knR), Desfunc(sp, t2, r.knR);
    assert Exchange([p, q, t]) == [p2, q2, t2];
    assert Exchange([x, y, z]) == [Block(x.l, y.l), Block(x.r, z.l), Block(y.r, z.r)];
    assert Pass(sp, [a, b, c], r.knL) == [p, q, t];
    assert Pass(sp, [p2, q2, t2], r.knR) == [x, y, z];
  }
}
