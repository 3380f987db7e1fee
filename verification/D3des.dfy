/** The three key registers and the routines that fill and use them, in the source's own form:
    arrays overwritten in loops, words changed in place. Each routine is proved to compute the
    function of `DesKeys` and `DesCipher` whose laws are proved there. */
module D3des {
  import opened DesWords
  import opened DesFeistel
  import opened DesKeys
  import opened DesCipher

  /** A register or a `dough` of 32 words read as 16 pairs. */
  function Pairs(ws: seq<Word>): (ks: seq<KeyPair>)
    requires |ws| == 32
    ensures |ks| == 16
  {
    seq(16, t requires 0 <= t < 16 => KeyPair(ws[2 * t], ws[2 * t + 1]))
  }

  function CookedAll(raw: seq<KeyPair>): (ks: seq<KeyPair>)
    ensures |ks| == |raw|
  {
    seq(|raw|, t requires 0 <= t < |raw| => Cook(raw[t]))
  }

  lemma PairsEqual(ws: seq<Word>, ks: seq<KeyPair>)
    requires |ws| == 32 && |ks| == 16
    requires forall t :: 0 <= t < 16 ==> ws[2 * t] == ks[t].k0 && ws[2 * t + 1] == ks[t].k1
    ensures Pairs(ws) == ks
  {
    forall t | 0 <= t < 16 ensures Pairs(ws)[t] == ks[t] {
    }
  }

  class Cipher {
    const sp: SpTables
    const knL: array<Word>
    const knR: array<Word>
    const kn3: array<Word>

    ghost predicate Valid() {
      && knL.Length == 32 && knR.Length == 32 && kn3.Length == 32
      && knL != knR && knR != kn3 && knL != kn3
    }

    ghost function Held(): Registers
      requires Valid()
      reads knL, knR, kn3
    {
      Registers(Pairs(knL[..]), Pairs(knR[..]), Pairs(kn3[..]))
    }

    constructor (tables: SpTables)
      ensures Valid() && fresh(knL) && fresh(knR) && fresh(kn3) && sp == tables
    {
      sp := tables;
      knL := new Word[32](_ => ZERO);
      knR := new Word[32](_ => ZERO);
      kn3 := new Word[32](_ => ZERO);
    }

    // ---- Filling the registers ----

    method Deskey(key: Key, edf: int)
      requires Valid()
      modifies knL
      ensures Held() == old(Held()).(knL := Schedule(key, edf))
    {
      hide RawPair, Chosen, CookedAll, Schedule, Laid;
      var pc1m := ChooseBits(key);
      ghost var chosen := pc1m[..];
      var pcr := new bool[56](_ => false);
      var kn := new Word[32](_ => ZERO);
      LaidNone(kn[..], key, edf);
      for i := 0 to 16
        invariant pc1m[..] == chosen
        invariant Laid(kn[..], key, edf, i)
      {
        ghost var before := kn[..];
        var m := if edf == DE1 then (15 - i) * 2 else i * 2;
        SelectRound(pc1m, pcr, kn, m, key, i);
        LaidGrows(before, kn[..], key, edf, i);
      }
      Cookey(kn);
      ScheduleFromRaw(key, edf, kn[..]);
    }

    /** The body of the loop over rounds. */
    method SelectRound(pc1m: array<bool>, pcr: array<bool>, kn: array<Word>, m: nat, ghost key: Key, i: nat)
      requires pc1m.Length == 56 && pcr.Length == 56 && kn.Length == 32 && pc1m != pcr
      requires m + 1 < 32 && i < 16
      requires forall k :: 0 <= k < 56 ==> pc1m[..][k] == Chosen(key, k)
      modifies pcr, kn
      ensures kn[m] == RawPair(key, i).k0 && kn[m + 1] == RawPair(key, i).k1
      ensures forall k :: 0 <= k < 32 && k != m && k != m + 1 ==> kn[k] == old(kn[k])
    {
      hide RawPair, Chosen;
      kn[m], kn[m + 1] := ZERO, ZERO;
      Rotate(pc1m, pcr, TOTROT[i], i);
      assert forall k :: 0 <= k < 56 ==> pcr[k] == pc1m[..][Rotated(k, TOTROT[i])];
      Gather(pcr, kn, m, key, i);
    }

    /** The pairs of the rounds before `i` are in place. */
    ghost predicate Laid(raw: seq<Word>, key: Key, edf: int, i: nat) {
      && |raw| == 32
      && forall t :: 0 <= t < 16 && RoundOf(edf, t) < i ==>
        raw[2 * t] == RawPair(key, RoundOf(edf, t)).k0 && raw[2 * t + 1] == RawPair(key, RoundOf(edf, t)).k1
    }

    lemma LaidNone(raw: seq<Word>, key: Key, edf: int)
      requires |raw| == 32
      ensures Laid(raw, key, edf, 0)
    {
    }

    lemma LaidGrows(was: seq<Word>, raw: seq<Word>, key: Key, edf: int, i: nat)
      requires i < 16 && Laid(was, key, edf, i) && |raw| == 32
      requires raw[2 * RoundOf(edf, i)] == RawPair(key, i).k0 && raw[2 * RoundOf(edf, i) + 1] == RawPair(key, i).k1
      requires forall k :: 0 <= k < 32 && k != 2 * RoundOf(edf, i) && k != 2 * RoundOf(edf, i) + 1 ==> raw[k] == was[k]
      ensures Laid(raw, key, edf, i + 1)
    {
      hide RawPair;
      forall t | 0 <= t < 16 && RoundOf(edf, t) < i + 1
        ensures raw[2 * t] == RawPair(key, RoundOf(edf, t)).k0 && raw[2 * t + 1] == RawPair(key, RoundOf(edf, t)).k1
      {
        if RoundOf(edf, t) == i {
          assert t == RoundOf(edf, i);
        }
      }
    }

    method ChooseBits(key: Key) returns (pc1m: array<bool>)
      ensures fresh(pc1m) && pc1m.Length == 56
      ensures forall k :: 0 <= k < 56 ==> pc1m[..][k] == Chosen(key, k)
    {
      pc1m := new bool[56](_ => false);
      for j := 0 to 56
        invariant forall k :: 0 <= k < j ==> pc1m[k] == Chosen(key, k)
      {
        pc1m[j] := KeyBitAt(key, PC1[j]);
      }
    }

    lemma ScheduleFromRaw(key: Key, edf: int, raw: seq<Word>)
      requires Laid(raw, key, edf, 16)
      ensures CookedAll(Pairs(raw)) == Schedule(key, edf)
    {
      hide Cook, RawPair;
      forall t | 0 <= t < 16 ensures CookedAll(Pairs(raw))[t] == Schedule(key, edf)[t] {
        assert Pairs(raw)[t] == RawPair(key, RoundOf(edf, t));
      }
    }

    /** The innermost loop: pick 48 of the turned bits into the two raw words of a round. */
    method Gather(pcr: array<bool>, kn: array<Word>, m: nat, ghost key: Key, ghost i: nat)
      requires pcr.Length == 56 && kn.Length == 32 && m + 1 < 32 && i < 16
      requires kn[m] == ZERO && kn[m + 1] == ZERO
      requires forall k :: 0 <= k < 56 ==> 0 <= Rotated(k, TOTROT[i]) < 56 && pcr[k] == Chosen(key, Rotated(k, TOTROT[i]))
      modifies kn
      ensures kn[m] == RawPair(key, i).k0 && kn[m + 1] == RawPair(key, i).k1
      ensures forall k :: 0 <= k < 32 && k != m && k != m + 1 ==> kn[k] == old(kn[k])
    {
      hide Or, BigByte, Chosen, PC2;
      SelectsAll();
      for j := 0 to 24
        invariant kn[m] == RawBits(key, i, 0, j) && kn[m + 1] == RawBits(key, i, 1, j)
        invariant forall k :: 0 <= k < 32 && k != m && k != m + 1 ==> kn[k] == old(kn[k])
      {
        if pcr[PC2[j]] {
          kn[m] := Or(kn[m], BigByte(j));
        }
        if pcr[PC2[j + 24]] {
          kn[m + 1] := Or(kn[m + 1], BigByte(j));
        }
      }
    }

    /** The two loops that turn each 28-bit half of the selected bits. */
    method Rotate(pc1m: array<bool>, pcr: array<bool>, rot: ChosenBit, ghost i: nat)
      requires pc1m.Length == 56 && pcr.Length == 56 && pc1m != pcr
      requires i < 16 && rot == TOTROT[i]
      modifies pcr
      ensures forall k :: 0 <= k < 56 ==> 0 <= Rotated(k, rot) < 56 && pcr[k] == pc1m[Rotated(k, rot)]
    {
      for j := 0 to 28
        invariant forall k :: 0 <= k < j ==> 0 <= Rotated(k, rot) < 56 && pcr[k] == pc1m[Rotated(k, rot)]
      {
        RotatedInRange(j, i);
        var l := j + rot;
        if l < 28 { pcr[j] := pc1m[l]; } else { pcr[j] := pc1m[l - 28]; }
      }
      for j := 28 to 56
        invariant forall k :: 0 <= k < j ==> 0 <= Rotated(k, rot) < 56 && pcr[k] == pc1m[Rotated(k, rot)]
      {
        RotatedInRange(j, i);
        var l := j + rot;
        if l < 56 { pcr[j] := pc1m[l]; } else { pcr[j] := pc1m[l - 28]; }
      }
    }

    method Cookey(raw: array<Word>)
      requires Valid() && raw.Length == 32 && raw != knL
      modifies knL
      ensures Held() == old(Held()).(knL := CookedAll(old(Pairs(raw[..]))))
    {
      var dough := new Word[32](_ => ZERO);
      ghost var cooked := CookedAll(old(Pairs(raw[..])));
      for i := 0 to 16
        invariant forall t :: 0 <= t < i ==> dough[2 * t] == cooked[t].k0 && dough[2 * t + 1] == cooked[t].k1
      {
        dough[2 * i] := CookFirst(raw[2 * i], raw[2 * i + 1]);
        dough[2 * i + 1] := CookSecond(raw[2 * i], raw[2 * i + 1]);
      }
      PairsEqual(dough[..], cooked);
      Usekey(dough);
    }

    method Usekey(from: array<Word>)
      requires Valid() && from.Length == 32
      modifies knL
      ensures knL[..] == old(from[..])
      ensures Held() == old(Held()).(knL := old(Pairs(from[..])))
    {
      CopyWords(from, knL);
    }

    method Cpkey(into: array<Word>)
      requires Valid() && into.Length == 32
      modifies into
      ensures into[..] == old(knL[..])
    {
      CopyWords(knL, into);
    }

    method Des2key(hexkey: seq<Byte>, mode: int)
      requires Valid() && |hexkey| == 16
      modifies knL, knR, kn3
      ensures Held() == TwoKeys(hexkey, mode)
    {
      var revmod := if mode == EN0 then DE1 else EN0;
      Deskey(hexkey[8..], revmod);
      Cpkey(knR);
      Deskey(hexkey[..8], mode);
      Cpkey(kn3);
    }

    method Des3key(hexkey: seq<Byte>, mode: int)
      requires Valid() && |hexkey| == 24
      modifies knL, knR, kn3
      ensures Held() == ThreeKeys(hexkey, mode)
    {
      var revmod, first, third;
      if mode == EN0 {
        revmod, first, third := DE1, hexkey[..8], hexkey[16..];
      } else {
        revmod, first, third := EN0, hexkey[16..], hexkey[..8];
      }
      Deskey(hexkey[8..16], revmod);
      Cpkey(knR);
      Deskey(third, mode);
      Cpkey(kn3);
      Deskey(first, mode);
    }

    // ---- Using them ----

    method DesfuncInPlace(block: array<Word>, keys: array<Word>)
      requires block.Length == 2 && keys.Length == 32 && block != keys
      modifies block
      ensures Block(block[0], block[1]) == Desfunc(sp, old(Block(block[0], block[1])), Pairs(keys[..]))
    {
      hide Xor, Or, Work, Up, Alternate, RotateLeft, RotateRight, Odd, Even, Turned;
      var leftt, right := block[0], block[1];
      var work := Work(D4, leftt, right);
      right, leftt := Xor(right, work), Xor(leftt, Up(D4, work));
      work := Work(D16, leftt, right);
      right, leftt := Xor(right, work), Xor(leftt, Up(D16, work));
      work := Work(D2, right, leftt);
      leftt, right := Xor(leftt, work), Xor(right, Up(D2, work));
      work := Work(D8, right, leftt);
      leftt, right := Xor(leftt, work), Xor(right, Up(D8, work));
      right := RotateLeft(right);
      work := Alternate(leftt, right);
      leftt, right := Xor(leftt, work), Xor(right, work);
      leftt := RotateLeft(leftt);
      ghost var begun := Block(leftt, right);
      assert begun == Opening(old(Block(block[0], block[1])));
      ghost var ks := Pairs(keys[..]);
      for round := 0 to 8
        invariant Block(leftt, right) == Rounds(Fval(sp), begun, ks[..2 * round])
      {
        var fval := Or(Odd(sp, Xor(Turned(right), keys[4 * round])), Even(sp, Xor(right, keys[4 * round + 1])));
        leftt := Xor(leftt, fval);
        TwoRounds(begun, ks, 2 * round);
        fval := Or(Odd(sp, Xor(Turned(leftt), keys[4 * round + 2])), Even(sp, Xor(leftt, keys[4 * round + 3])));
        right := Xor(right, fval);
      }
      assert ks[..16] == ks;
      ghost var ended := Block(leftt, right);
      right := RotateRight(right);
      work := Alternate(leftt, right);
      leftt, right := Xor(leftt, work), Xor(right, work);
      leftt := RotateRight(leftt);
      work := Work(D8, leftt, right);
      right, leftt := Xor(right, work), Xor(leftt, Up(D8, work));
      work := Work(D2, leftt, right);
      right, leftt := Xor(right, work), Xor(leftt, Up(D2, work));
      work := Work(D16, right, leftt);
      leftt, right := Xor(leftt, work), Xor(right, Up(D16, work));
      work := Work(D4, right, leftt);
      leftt, right := Xor(leftt, work), Xor(right, Up(D4, work));
      assert Block(right, leftt) == Closing(ended);
      block[0], block[1] := right, leftt;
    }

    lemma TwoRounds(b: Block, ks: seq<KeyPair>, n: nat)
      requires |ks| == 16 && n + 2 <= 16
      ensures var c := Rounds(Fval(sp), b, ks[..n]);
              var l := Xor(c.l, RoundValue(sp, c.r, ks[n]));
              Rounds(Fval(sp), b, ks[..n + 2]) == Block(l, Xor(c.r, RoundValue(sp, l, ks[n + 1])))
    {
      hide RoundValue, Xor;
      assert ks[..n + 2][..n + 1] == ks[..n + 1] && ks[..n + 1][..n] == ks[..n];
      assert Rounds(Fval(sp), b, ks[..n + 1]) == Step(Fval(sp), Rounds(Fval(sp), b, ks[..n]), ks[n]);
    }

    method Des(inblock: array<Byte>, outblock: array<Byte>)
      requires Valid() && inblock.Length == 8 && outblock.Length == 8
      modifies outblock
      ensures outblock[..] == Crypt(sp, old(inblock[..]), old(Held()).knL)
    {
      var work := Scrunch(inblock, 0);
      DesfuncInPlace(work, knL);
      Unscrun(work, outblock, 0);
    }

    method Ddes(from: array<Byte>, into: array<Byte>)
      requires Valid() && from.Length == 8 && into.Length == 8
      modifies into
      ensures into[..] == ChainCrypt(sp, old(from[..]), old(Held()))
    {
      hide Desfunc, Pack, Unpack, Chain;
      ghost var s, r := from[..], Held();
      var work := Scrunch(from, 0);
      ghost var b0 := Block(work[0], work[1]);
      assert from[..8] == from[0..8] && from[..][8..] == [];
      assert PackAll(s) == [b0] + PackAll([]) == [b0];
      DesfuncInPlace(work, knL);
      ghost var b1 := Block(work[0], work[1]);
      DesfuncInPlace(work, knR);
      ghost var b2 := Block(work[0], work[1]);
      DesfuncInPlace(work, kn3);
      ghost var b3 := Block(work[0], work[1]);
      ChainOfOne(b0, b1, b2, b3, r);
      assert UnpackAll([b3]) == Unpack(b3) + UnpackAll([]) == Unpack(b3);
      Unscrun(work, into, 0);
      assert ChainCrypt(sp, s, r) == UnpackAll(Chain(sp, PackAll(s), r));
    }

    lemma ChainOfOne(b0: Block, b1: Block, b2: Block, b3: Block, r: Registers)
      requires b1 == Desfunc(sp, b0, r.knL) && b2 == Desfunc(sp, b1, r.knR) && b3 == Desfunc(sp, b2, r.kn3)
      ensures Chain(sp, [b0], r) == [b3]
    {
      hide Desfunc;
      assert Pass(sp, [b0], r.knL) == [b1];
      assert Exchange([b1]) == [b1];
      assert Pass(sp, [b1], r.knR) == [b2];
      assert Exchange([b2]) == [b2];
      assert Pass(sp, [b2], r.kn3) == [b3];
    }

    method PassTwo(a: array<Word>, b: array<Word>, keys: array<Word>)
      requires a.Length == 2 && b.Length == 2 && keys.Length == 32 && a != b && a != keys && b != keys
      modifies a, b
      ensures Blocks2(a, b) == Pass(sp, old(Blocks2(a, b)), Pairs(keys[..]))
    {
      hide Desfunc;
      DesfuncInPlace(a, keys);
      DesfuncInPlace(b, keys);
    }

    method D2des(from: array<Byte>, into: array<Byte>)
      requires Valid() && from.Length == 16 && into.Length == 16
      modifies into
      ensures into[..] == ChainCrypt(sp, old(from[..]), old(Held()))
    {
      hide Pass, Exchange, Pack, Unpack, Pairs;
      ghost var s, r := from[..], Held();
      var leftt := Scrunch(from, 0);
      var right := Scrunch(from, 8);
      PackTwo(from[..]);
      assert from[..][..8] == from[0..8] && from[..][8..] == from[8..16];
      assert Blocks2(leftt, right) == PackAll(s);
      PassTwo(leftt, right, knL);
      ExchangeTwo(leftt, right);
      PassTwo(leftt, right, knR);
      ExchangeTwo(leftt, right);
      PassTwo(leftt, right, kn3);
      assert Blocks2(leftt, right) == Chain(sp, PackAll(s), r);
      UnpackTwo(Blocks2(leftt, right));
      Unscrun(leftt, into, 0);
      assert into[..8] == Unpack(Block(leftt[0], leftt[1]));
      Unscrun(right, into, 8);
      assert into[..] == UnpackAll(Blocks2(leftt, right));
      assert ChainCrypt(sp, s, r) == UnpackAll(Chain(sp, PackAll(s), r));
    }

    method D3des(from: array<Byte>, into: array<Byte>)
      requires Valid() && from.Length == 24 && into.Length == 24
      modifies into
      ensures into[..] == ChainCrypt(sp, old(from[..]), old(Held()))
    {
      hide Pass, Exchange, Pack, Unpack, Pairs;
      ghost var s, r := from[..], Held();
      var leftt := Scrunch(from, 0);
      var middl := Scrunch(from, 8);
      var right := Scrunch(from, 16);
      PackThree(from[..]);
      assert from[..][..8] == from[0..8] && from[..][8..16] == from[8..16] && from[..][16..] == from[16..24];
      assert Blocks3(leftt, middl, right) == PackAll(s);
      PassThree(leftt, middl, right, knL);
      ExchangeThree(leftt, middl, right);
      PassThree(leftt, middl, right, knR);
      ExchangeThree(leftt, middl, right);
      PassThree(leftt, middl, right, kn3);
      assert Blocks3(leftt, middl, right) == Chain(sp, PackAll(s), r);
      UnpackThree(Blocks3(leftt, middl, right));
      Unscrun(leftt, into, 0);
      assert into[..8] == Unpack(Block(leftt[0], leftt[1]));
      Unscrun(middl, into, 8);
      assert into[..16] == Unpack(Block(leftt[0], leftt[1])) + Unpack(Block(middl[0], middl[1]));
      Unscrun(right, into, 16);
      assert ChainCrypt(sp, s, r) == UnpackAll(Chain(sp, PackAll(s), r));
    }

    method PassThree(a: array<Word>, b: array<Word>, c: array<Word>, keys: array<Word>)
      requires a.Length == 2 && b.Length == 2 && c.Length == 2 && keys.Length == 32
      requires a != b && a != c && b != c && a != keys && b != keys && c != keys
      modifies a, b, c
      ensures Blocks3(a, b, c) == Pass(sp, old(Blocks3(a, b, c)), Pairs(keys[..]))
    {
      hide Desfunc;
      DesfuncInPlace(a, keys);
      DesfuncInPlace(b, keys);
      DesfuncInPlace(c, keys);
    }
  }

  /** The swaps of `D2des` between its passes. */
  method ExchangeTwo(leftt: array<Word>, right: array<Word>)
    requires leftt.Length == 2 && right.Length == 2 && leftt != right
    modifies leftt, right
    ensures Blocks2(leftt, right) == Exchange(old(Blocks2(leftt, right)))
  {
    var swap := leftt[1];
    leftt[1] := right[0];
    right[0] := swap;
  }

  /** The swaps of `D3des` between its passes. */
  method ExchangeThree(leftt: array<Word>, middl: array<Word>, right: array<Word>)
    requires leftt.Length == 2 && middl.Length == 2 && right.Length == 2
    requires leftt != middl && leftt != right && middl != right
    modifies leftt, middl, right
    ensures Blocks3(leftt, middl, right) == Exchange(old(Blocks3(leftt, middl, right)))
  {
    var swap := leftt[1];
    leftt[1] := middl[0];
    middl[0] := swap;
    swap := middl[1];
    middl[1] := right[0];
    right[0] := swap;
  }

  ghost function Blocks2(a: array<Word>, b: array<Word>): seq<Block>
    requires a.Length == 2 && b.Length == 2
    reads a, b
  {
    [Block(a[0], a[1]), Block(b[0], b[1])]
  }

  ghost function Blocks3(a: array<Word>, b: array<Word>, c: array<Word>): seq<Block>
    requires a.Length == 2 && b.Length == 2 && c.Length == 2
    reads a, b, c
  {
    [Block(a[0], a[1]), Block(b[0], b[1]), Block(c[0], c[1])]
  }

  lemma PackTwo(s: seq<Byte>)
    requires |s| == 16
    ensures PackAll(s) == [Pack(s[..8]), Pack(s[8..])]
  {
    hide Pack;
    assert s[8..][..8] == s[8..];
    assert PackAll(s[8..]) == [Pack(s[8..][..8])] + PackAll(s[8..][8..]);
  }

  lemma PackThree(s: seq<Byte>)
    requires |s| == 24
    ensures PackAll(s) == [Pack(s[..8]), Pack(s[8..16]), Pack(s[16..])]
  {
    hide Pack;
    PackTwo(s[8..]);
    assert s[8..][..8] == s[8..16] && s[8..][8..] == s[16..];
  }

  lemma UnpackTwo(bs: seq<Block>)
    requires |bs| == 2
    ensures UnpackAll(bs) == Unpack(bs[0]) + Unpack(bs[1])
  {
    hide Unpack;
    assert UnpackAll(bs[1..]) == Unpack(bs[1..][0]) + UnpackAll(bs[1..][1..]);
  }

  lemma UnpackThree(bs: seq<Block>)
    requires |bs| == 3
    ensures UnpackAll(bs) == Unpack(bs[0]) + Unpack(bs[1]) + Unpack(bs[2])
  {
    hide Unpack;
    UnpackTwo(bs[1..]);
  }

  method CopyWords(from: array<Word>, into: array<Word>)
    requires from.Length == into.Length
    modifies into
    ensures into[..] == old(from[..])
  {
    for i := 0 to from.Length
      invariant into[..i] == old(from[..i])
      invariant forall k :: i <= k < from.Length ==> from[k] == old(from[k])
    {
      into[i] := from[i];
    }
  }

  method Scrunch(outof: array<Byte>, at: nat) returns (into: array<Word>)
    requires at + 8 <= outof.Length
    ensures fresh(into) && into.Length == 2
    ensures Block(into[0], into[1]) == Pack(outof[at..at + 8])
  {
    into := new Word[2](_ => ZERO);
    into[0] := PackWord(outof[at], outof[at + 1], outof[at + 2], outof[at + 3]);
    into[1] := PackWord(outof[at + 4], outof[at + 5], outof[at + 6], outof[at + 7]);
  }

  method Unscrun(outof: array<Word>, into: array<Byte>, at: nat)
    requires outof.Length == 2 && at + 8 <= into.Length
    modifies into
    ensures into[..] == old(into[..at]) + Unpack(old(Block(outof[0], outof[1]))) + old(into[at + 8..])
  {
    var s := Unpack(Block(outof[0], outof[1]));
    ghost var was := into[..];
    for i := 0 to 8
      invariant into[..] == was[..at] + s[..i] + was[at + i..]
    {
      into[at + i] := s[i];
    }
  }
}
