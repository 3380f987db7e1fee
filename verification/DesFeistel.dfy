/** The sixteen rounds of `desfunc` for an arbitrary round function. Nothing here looks inside the
    round function, so the result holds whatever the substitution tables contain. */
module DesFeistel {
  import opened DesWords

  /** The two cooked words one round consumes. */
  datatype KeyPair = KeyPair(k0: Word, k1: Word)

  type RoundFunction = (Word, KeyPair) -> Word

  /** `leftt ^= fval` with the roles of the halves exchanged for the round that follows. */
  function Step(f: RoundFunction, b: Block, k: KeyPair): Block {
    Block(b.r, Xor(b.l, f(b.r, k)))
  }

  function Rounds(f: RoundFunction, b: Block, ks: seq<KeyPair>): Block {
    if ks == [] then b else Step(f, Rounds(f, b, ks[..|ks| - 1]), ks[|ks| - 1])
  }

  function Reversed<T>(s: seq<T>): seq<T> {
    if s == [] then [] else [s[|s| - 1]] + Reversed(s[..|s| - 1])
  }

  lemma {:induction false} RoundsFromFront(f: RoundFunction, b: Block, k: KeyPair, ks: seq<KeyPair>)
    ensures Rounds(f, b, [k] + ks) == Rounds(f, Step(f, b, k), ks)
  {
    var all := [k] + ks;
    if ks == [] {
      assert all[..0] == [];
    } else {
      assert all[..|all| - 1] == [k] + ks[..|ks| - 1];
      RoundsFromFront(f, b, k, ks[..|ks| - 1]);
    }
  }

  /** Running the rounds again on the exchanged halves with the key pairs in the opposite order
      takes back every round. */
  lemma {:induction false} RoundsUndo(f: RoundFunction, b: Block, ks: seq<KeyPair>)
    ensures Rounds(f, Swapped(Rounds(f, b, ks)), Reversed(ks)) == Swapped(b)
  {
    hide Xor;
    if ks != [] {
      var last, before := ks[|ks| - 1], ks[..|ks| - 1];
      var mid := Rounds(f, b, before);
      XorTwice(mid.l, f(mid.r, last));
      assert Step(f, Swapped(Step(f, mid, last)), last) == Swapped(mid);
      RoundsFromFront(f, Swapped(Rounds(f, b, ks)), last, Reversed(before));
      RoundsUndo(f, b, before);
    }
  }

  /** A round function that ignores complementing its word together with `mask`ing its keys. */
  ghost predicate IgnoresComplement(f: RoundFunction, mask: KeyPair -> KeyPair) {
    forall w: Word, k: KeyPair :: f(Not(w), mask(k)) == f(w, k)
  }

  lemma {:induction false} RoundsComplement(f: RoundFunction, mask: KeyPair -> KeyPair, b: Block, ks: seq<KeyPair>, ls: seq<KeyPair>)
    requires IgnoresComplement(f, mask)
    requires |ls| == |ks| && forall i :: 0 <= i < |ks| ==> ls[i] == mask(ks[i])
    ensures Rounds(f, Inverted(b), ls) == Inverted(Rounds(f, b, ks))
  {
    hide Xor, Not;
    if ks != [] {
      var n := |ks| - 1;
      RoundsComplement(f, mask, b, ks[..n], ls[..n]);
      var mid := Rounds(f, b, ks[..n]);
      assert f(Not(mid.r), mask(ks[n])) == f(mid.r, ks[n]);
      NotXor(mid.l, f(mid.r, ks[n]));
    }
  }
}
