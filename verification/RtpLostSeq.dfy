/** The list of lost numbers behind NAK type 2 (`CLostSeqInfo`): numbers wait on it until they have fallen
    far enough behind, and are then requested in batches of consecutive ones. */
module RtpLostSeq {
  import opened Wrappers
  import opened Integers

  const MAX_RESEND_COUNT: int := 5

  /** A resend request for the `count` packets before `sn`. */
  datatype Nak = Nak(sn: Seq16, count: Seq16)

  /** `n` numbers from `start` on, around the circle. */
  function Numbers(start: Seq16, n: nat): (s: seq<Seq16>)
    ensures |s| == n
    decreases n
  {
    if n == 0 then [] else [start] + Numbers(Wrap16(start + 1), n - 1)
  }

  lemma {:induction false} NumbersTail(start: Seq16, n: nat, k: nat)
    requires k <= n
    decreases n
    ensures Numbers(start, n)[n - k..] == Numbers(Wrap16(start + (n - k)), k)
  {
    if k < n {
      NumbersTail(Wrap16(start + 1), n - 1, k);
      assert Wrap16(Wrap16(start + 1) + (n - 1 - k)) == Wrap16(start + (n - k));
    }
  }

  lemma {:induction false} NumberAt(start: Seq16, n: nat, i: nat)
    requires i < n
    ensures Numbers(start, n)[i] == Wrap16(start + i)
    decreases i
  {
    if i > 0 {
      NumberAt(Wrap16(start + 1), n - 1, i - 1);
      WrapTwice(start, i);
    }
  }

  lemma WrapTwice(start: Seq16, i: nat)
    requires i > 0
    ensures Wrap16(Wrap16(start + 1) + (i - 1)) == Wrap16(start + i)
  {
  }

  /** The packets a request names. */
  function Requested(k: Nak): seq<Seq16> {
    Numbers(Wrap16(k.sn - k.count), k.count)
  }

  // The two distances the source constructs its list with, and the length it is cut to.
  const OFFSET1: int := 15
  const OFFSET2: int := 25
  const CAPACITY: nat := 20

  // ---- Taking numbers on ----

  /** `compare_seq` */
  predicate SortsBefore(a: Seq16, b: Seq16) {
    !(0 < a - b < 0x7F00) && !(b - a > 0x7F00)
  }

  function Insert(x: Seq16, s: seq<Seq16>): (r: seq<Seq16>)
    ensures multiset(r) == multiset(s) + multiset{x}
  {
    if s == [] || SortsBefore(x, s[0]) then [x] + s
    else
      assert s == [s[0]] + s[1..];
      [s[0]] + Insert(x, s[1..])
  }

  /** `list::sort`. The comparison is an order only among numbers that lie within half the circle; for
      others the result is that of this particular sort. */
  function Sorted(s: seq<Seq16>): (r: seq<Seq16>)
    ensures multiset(r) == multiset(s)
  {
    if s == [] then []
    else
      assert s == [s[0]] + s[1..];
      Insert(s[0], Sorted(s[1..]))
  }

  function AddOne(s: seq<Seq16>, x: Seq16): seq<Seq16> {
    if x in s then s else s + [x]
  }

  function AddAll(s: seq<Seq16>, start: Seq16, n: nat): seq<Seq16>
    decreases n
  {
    if n == 0 then s else AddOne(AddAll(s, start, n - 1), Wrap16(start + (n - 1)))
  }

  function Trim(s: seq<Seq16>): seq<Seq16> {
    if |s| >= CAPACITY then s[|s| - (CAPACITY - 1)..] else s
  }

  /** `lost(seq, count)` */
  function Lost(s: seq<Seq16>, start: Seq16, n: nat): seq<Seq16> {
    Trim(Sorted(AddAll(s, start, n)))
  }

  // ---- Letting numbers go ----

  function Without(s: seq<Seq16>, x: Seq16): seq<Seq16> {
    if s == [] then [] else if s[0] == x then s[1..] else [s[0]] + Without(s[1..], x)
  }

  /** How many consecutive numbers stand at the front, `n` of them known to; at most five. They are not
      counted on across the wrap. */
  function RunLength(s: seq<Seq16>, n: nat): (r: nat)
    requires 0 < n <= |s| && n <= MAX_RESEND_COUNT
    ensures n <= r <= |s| && r <= MAX_RESEND_COUNT
    decreases |s| - n
  {
    if n < MAX_RESEND_COUNT && n < |s| && s[n] == s[0] + n then RunLength(s, n + 1) else n
  }

  datatype Sent = Sent(left: seq<Seq16>, nak: Option<Nak>)

  /** `send`: nothing while the first number is less than 15 behind the last packet, and what is more than
      25 behind is given up. */
  function Send(s: seq<Seq16>, last: Seq16): Sent {
    if s == [] || 0 < last - s[0] < OFFSET1 then Sent(s, None)
    else if last - s[0] > OFFSET2 then Send(s[1..], last)
    else
      var n := RunLength(s, 1);
      Sent(s[n..], Some(Nak(Wrap16(s[0] + n), n)))
  }

  /** `recv` for packet `sn`. */
  function Recv(s: seq<Seq16>, sn: Seq16, last: Seq16): Sent {
    Send(Without(s, sn), last)
  }

  // ---- What is on the list ----

  ghost predicate Distinct(s: seq<Seq16>) {
    forall i, j :: 0 <= i < j < |s| ==> s[i] != s[j]
  }

  lemma DistinctCounts(s: seq<Seq16>)
    ensures Distinct(s) <==> forall x :: multiset(s)[x] <= 1
  {
    if !Distinct(s) {
      var i, j :| 0 <= i < j < |s| && s[i] == s[j];
      assert s == s[..j] + s[j..];
      assert s[i] == s[..j][i] && s[i] == s[j..][0];
      assert s[i] in multiset(s[..j]) && s[i] in multiset(s[j..]);
      assert multiset(s)[s[i]] == multiset(s[..j])[s[i]] + multiset(s[j..])[s[i]] >= 2;
    } else {
      forall x: Seq16 ensures multiset(s)[x] <= 1 {
        CountOfDistinct(s, x);
      }
    }
  }

  lemma {:induction false} CountOfDistinct(s: seq<Seq16>, x: Seq16)
    requires Distinct(s)
    ensures multiset(s)[x] == Once(x in s)
  {
    if s != [] {
      assert s == [s[0]] + s[1..];
      CountOfDistinct(s[1..], x);
    }
  }

  /** Among the `n` numbers from `start` on. */
  predicate Among(start: Seq16, n: nat, x: Seq16) {
    Wrap16(x - start) < n
  }

  lemma {:induction false} AddAllHas(s: seq<Seq16>, start: Seq16, n: nat, x: Seq16)
    requires n <= 65536
    ensures x in AddAll(s, start, n) <==> x in s || Among(start, n, x)
    decreases n
  {
    if n > 0 {
      AddAllHas(s, start, n - 1, x);
      assert x == Wrap16(start + (n - 1)) <==> Wrap16(x - start) == n - 1;
    }
  }

  lemma {:induction false} AddAllDistinct(s: seq<Seq16>, start: Seq16, n: nat)
    requires Distinct(s)
    ensures Distinct(AddAll(s, start, n))
    decreases n
  {
    if n > 0 {
      AddAllDistinct(s, start, n - 1);
    }
  }

  lemma SortedSame(s: seq<Seq16>, x: Seq16)
    ensures x in Sorted(s) <==> x in s
    ensures Distinct(Sorted(s)) <==> Distinct(s)
  {
    assert x in Sorted(s) <==> x in multiset(Sorted(s));
    assert x in s <==> x in multiset(s);
    DistinctCounts(s);
    DistinctCounts(Sorted(s));
  }

  /** Taking numbers on adds no others and keeps the list without repetitions and below its capacity. */
  lemma LostHas(s: seq<Seq16>, start: Seq16, n: nat, x: Seq16)
    requires Distinct(s) && n <= 65536
    ensures var r := Lost(s, start, n);
            && Distinct(r) && |r| < CAPACITY
            && (x in r ==> x in s || Among(start, n, x))
  {
    hide AddAll, Sorted, Among;
    AddAllHas(s, start, n, x);
    AddAllDistinct(s, start, n);
    SortedSame(AddAll(s, start, n), x);
  }

  lemma {:induction false} WithoutHas(s: seq<Seq16>, x: Seq16, y: Seq16)
    requires Distinct(s)
    ensures var r := Without(s, x);
            && Distinct(r) && |r| <= |s| && (y in r <==> y in s && y != x)
  {
    if s != [] {
      assert s == [s[0]] + s[1..];
      if s[0] != x {
        WithoutHas(s[1..], x, y);
        WithoutHas(s[1..], x, s[0]);
        assert s[0] !in s[1..];
      } else {
        assert x !in s[1..];
      }
    }
  }

  lemma {:induction false} RunIsConsecutive(s: seq<Seq16>, n: nat)
    requires 0 < n <= |s| && n <= MAX_RESEND_COUNT && forall i :: 0 <= i < n ==> s[i] == s[0] + i
    ensures var r := RunLength(s, n); forall i :: 0 <= i < r ==> s[i] == s[0] + i
    decreases |s| - n
  {
    if n < MAX_RESEND_COUNT && n < |s| && s[n] == s[0] + n {
      RunIsConsecutive(s, n + 1);
    }
  }

  lemma RequestedRun(s: seq<Seq16>, n: nat)
    requires 0 < n <= |s| && n <= MAX_RESEND_COUNT && forall i :: 0 <= i < n ==> s[i] == s[0] + i
    ensures Requested(Nak(Wrap16(s[0] + n), n)) == s[..n]
  {
    hide Numbers;
    assert Wrap16(Wrap16(s[0] + n) - n) == s[0];
    forall i | 0 <= i < n ensures Numbers(s[0], n)[i] == s[i] {
      NumberAt(s[0], n, i);
    }
  }

  lemma {:induction false} SendLeaves(s: seq<Seq16>, last: Seq16)
    ensures var left := Send(s, last).left; |left| <= |s| && left == s[|s| - |left|..]
  {
    hide RunLength;
    if s != [] && last - s[0] > OFFSET2 {
      SendLeaves(s[1..], last);
      var n := |Send(s, last).left|;
      assert s[1..][|s| - 1 - n..] == s[|s| - n..];
    }
  }

  /** A batch asks for the numbers that stand before those it leaves: between one and five, the first of
      which is not behind the last packet, or 15 to 25 behind it. */
  lemma {:induction false} SendTakes(s: seq<Seq16>, last: Seq16)
    requires Send(s, last).nak.Some?
    ensures var k, left := Send(s, last).nak.value, |Send(s, last).left|;
            && 1 <= k.count <= MAX_RESEND_COUNT && left + k.count <= |s|
            && Requested(k) == s[|s| - left - k.count..|s| - left]
            && (Requested(k)[0] < last ==> OFFSET1 <= last - Requested(k)[0] <= OFFSET2)
  {
    hide Requested, RunLength;
    if last - s[0] > OFFSET2 {
      SendTakes(s[1..], last);
      var k, left := Send(s, last).nak.value, |Send(s, last).left|;
      assert s[1..][|s| - 1 - left - k.count..|s| - 1 - left] == s[|s| - left - k.count..|s| - left];
    } else {
      RunIsConsecutive(s, 1);
      RequestedRun(s, RunLength(s, 1));
    }
  }

  /** So with a list without repetitions, what a batch asks for was on the list and is not any more. */
  lemma BatchFromList(s: seq<Seq16>, last: Seq16, x: Seq16)
    requires Distinct(s)
    ensures var r := Send(s, last);
            && Distinct(r.left) && (x in r.left ==> x in s)
            && (r.nak.Some? && x in Requested(r.nak.value) ==> x in s && x !in r.left)
  {
    hide Send, Requested;
    SendLeaves(s, last);
    if Send(s, last).nak.Some? {
      SendTakes(s, last);
    }
  }

  // ---- What must be listed and sent ----

  lemma {:induction false} AddAllLength(s: seq<Seq16>, start: Seq16, n: nat)
    ensures |s| <= |AddAll(s, start, n)| <= |s| + n
    decreases n
  {
    if n > 0 {
      AddAllLength(s, start, n - 1);
    }
  }

  lemma SortedLength(s: seq<Seq16>)
    ensures |Sorted(s)| == |s|
  {
    assert |multiset(Sorted(s))| == |multiset(s)|;
  }

  /** As long as there is room, what is on the list stays and every lost number gets on it. */
  lemma LostTakesAll(s: seq<Seq16>, start: Seq16, n: nat, x: Seq16)
    requires Distinct(s) && |s| + n < 20
    ensures x in Lost(s, start, n) <==> x in s || Among(start, n, x)
  {
    hide AddAll, Sorted, Among;
    AddAllHas(s, start, n, x);
    AddAllLength(s, start, n);
    SortedLength(AddAll(s, start, n));
    SortedSame(AddAll(s, start, n), x);
  }

  /** How far `x` is ahead of `base`. */
  function Ahead(base: Seq16, x: Seq16): Seq16 {
    Wrap16(x - base)
  }

  /** The numbers lie within half the circle from `base` on, and stand in order from there. */
  ghost predicate Near(base: Seq16, s: seq<Seq16>) {
    forall i :: 0 <= i < |s| ==> Ahead(base, s[i]) < 0x7F00
  }

  ghost predicate Ascending(base: Seq16, s: seq<Seq16>) {
    forall i, j :: 0 <= i < j < |s| ==> Ahead(base, s[i]) < Ahead(base, s[j])
  }

  lemma SortsByDistance(base: Seq16, a: Seq16, b: Seq16)
    requires Ahead(base, a) < 0x7F00 && Ahead(base, b) < 0x7F00
    ensures SortsBefore(a, b) <==> Ahead(base, a) <= Ahead(base, b)
  {
  }

  lemma {:induction false} InsertAscends(base: Seq16, x: Seq16, s: seq<Seq16>)
    requires Near(base, s) && Ascending(base, s) && Ahead(base, x) < 0x7F00 && x !in s
    ensures var r := Insert(x, s); Near(base, r) && Ascending(base, r)
    ensures var r := Insert(x, s); r != [] && (r[0] == x || (s != [] && r[0] == s[0]))
  {
    hide SortsBefore, Ahead;
    if s != [] {
      SortsByDistance(base, x, s[0]);
      Different(base, x, s[0]);
      if !SortsBefore(x, s[0]) {
        assert forall i :: 0 <= i < |s[1..]| ==> s[1..][i] == s[i + 1];
        InsertAscends(base, x, s[1..]);
        InsertAbove(base, s[0], x, s[1..]);
      }
    }
  }

  lemma Different(base: Seq16, a: Seq16, b: Seq16)
    requires a != b
    ensures Ahead(base, a) != Ahead(base, b)
  {
  }

  lemma InsertAbove(base: Seq16, low: Seq16, x: Seq16, s: seq<Seq16>)
    requires Ahead(base, low) < Ahead(base, x) && forall i :: 0 <= i < |s| ==> Ahead(base, low) < Ahead(base, s[i])
    ensures var r := Insert(x, s); forall i :: 0 <= i < |r| ==> Ahead(base, low) < Ahead(base, r[i])
  {
    hide SortsBefore, Ahead;
    var r := Insert(x, s);
    forall i | 0 <= i < |r| ensures Ahead(base, low) < Ahead(base, r[i]) {
      assert r[i] in multiset(r);
      assert r[i] == x || r[i] in s;
    }
  }

  /** Among such numbers sorting puts the oldest first, so that the list drops the oldest when it is full. */
  lemma {:induction false} SortedAscends(base: Seq16, s: seq<Seq16>)
    requires Near(base, s) && Distinct(s)
    ensures Near(base, Sorted(s)) && Ascending(base, Sorted(s))
  {
    hide Insert, Ahead;
    if s != [] {
      assert forall i :: 0 <= i < |s[1..]| ==> s[1..][i] == s[i + 1];
      assert s[0] !in s[1..];
      SortedAscends(base, s[1..]);
      SortedSame(s[1..], s[0]);
      InsertAscends(base, s[0], Sorted(s[1..]));
      assert Sorted(s) == Insert(s[0], Sorted(s[1..]));
    } else {
      assert |Sorted(s)| == 0;
    }
  }

  /** A batch goes exactly if what is left of the list, without the numbers in front that are more than 25
      behind, does not start less than 15 behind; and it is as long as it can be. */
  lemma {:induction false} SendExactly(s: seq<Seq16>, last: Seq16)
    ensures var r := Send(s, last);
            if s == [] then r == Sent([], None)
            else if last - s[0] > 25 then r == Send(s[1..], last)
            else
              && (r.nak.Some? <==> !(0 < last - s[0] < 15))
              && (r.nak.None? ==> r.left == s)
              && (r.nak.Some? ==>
                   var n := r.nak.value.count;
                   && 1 <= n <= 5 && n <= |s| && r.left == s[n..] && Requested(r.nak.value) == s[..n]
                   && (n < 5 && n < |s| ==> var first: int := s[0]; s[n] != first + n))
  {
    hide Requested;
    if s != [] && !(last - s[0] > 25) && !(0 < last - s[0] < 15) {
      RunIsConsecutive(s, 1);
      RunIsLongest(s, 1);
      RequestedRun(s, RunLength(s, 1));
    }
  }

  lemma {:induction false} RunIsLongest(s: seq<Seq16>, n: nat)
    requires 0 < n <= |s| && n <= MAX_RESEND_COUNT
    ensures var r := RunLength(s, n); r == MAX_RESEND_COUNT || r == |s| || s[r] != s[0] + r
    decreases |s| - n
  {
    if n < MAX_RESEND_COUNT && n < |s| && s[n] == s[0] + n {
      RunIsLongest(s, n + 1);
    }
  }

  // ---- The list in place ----

  class LostSeqInfo {
    var lostSeq: seq<Seq16>

    constructor ()
      ensures lostSeq == []
    {
      lostSeq := [];
    }

    method Clear()
      modifies this
      ensures lostSeq == []
    {
      lostSeq := [];
    }

    method AddIfNew(x: Seq16)
      modifies this
      ensures lostSeq == AddOne(old(lostSeq), x)
    {
      for i := 0 to |lostSeq|
        invariant lostSeq == old(lostSeq) && x !in lostSeq[..i]
      {
        if lostSeq[i] == x { return; }
      }
      assert lostSeq[..|lostSeq|] == lostSeq;
      lostSeq := lostSeq + [x];
    }

    method TakeOn(start: Seq16, count: nat)
      modifies this
      ensures lostSeq == Lost(old(lostSeq), start, count)
    {
      for i := 0 to count
        invariant lostSeq == AddAll(old(lostSeq), start, i)
      {
        AddIfNew(Wrap16(start + i));
      }
      lostSeq := Sorted(lostSeq);
      ghost var all := lostSeq;
      while |lostSeq| >= CAPACITY
        invariant |lostSeq| <= |all| && lostSeq == all[|all| - |lostSeq|..]
        invariant |lostSeq| >= CAPACITY - 1 || lostSeq == all
      {
        lostSeq := lostSeq[1..];
      }
    }

    method Receive(sn: Seq16, last: Seq16) returns (nak: Option<Nak>)
      modifies this
      ensures Sent(lostSeq, nak) == Recv(old(lostSeq), sn, last)
    {
      var i := 0;
      assert lostSeq[0..] == lostSeq;
      assert [] + Without(lostSeq, sn) == Without(lostSeq, sn);
      while i < |lostSeq| && lostSeq[i] != sn
        invariant i <= |lostSeq| && lostSeq == old(lostSeq)
        invariant lostSeq[..i] + Without(lostSeq[i..], sn) == Without(old(lostSeq), sn)
      {
        assert lostSeq[i..] == [lostSeq[i]] + lostSeq[i + 1..];
        assert lostSeq[..i] + ([lostSeq[i]] + Without(lostSeq[i + 1..], sn)) == lostSeq[..i + 1] + Without(lostSeq[i + 1..], sn);
        i := i + 1;
      }
      if i < |lostSeq| {
        lostSeq := lostSeq[..i] + lostSeq[i + 1..];
      } else {
        assert lostSeq[..i] + [] == lostSeq;
      }
      nak := SendBatch(last);
    }

    method SendBatch(last: Seq16) returns (nak: Option<Nak>)
      modifies this
      ensures Sent(lostSeq, nak) == Send(old(lostSeq), last)
      decreases |lostSeq|
    {
      if lostSeq == [] { return None; }
      var first := lostSeq[0];
      if last > first {
        if last - first < OFFSET1 {
          return None;
        } else if last - first > OFFSET2 {
          lostSeq := lostSeq[1..];
          nak := SendBatch(last);
          return;
        }
      }
      var count := 1;
      lostSeq := lostSeq[1..];
      while count < MAX_RESEND_COUNT && lostSeq != [] && lostSeq[0] == first + count
        invariant 0 < count <= MAX_RESEND_COUNT && count <= |old(lostSeq)| && lostSeq == old(lostSeq)[count..]
        invariant RunLength(old(lostSeq), count) == RunLength(old(lostSeq), 1)
        decreases |lostSeq|
      {
        count := count + 1;
        lostSeq := lostSeq[1..];
      }
      nak := Some(Nak(Wrap16(first + count), count));
    }
  }
}
