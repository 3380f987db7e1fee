/** The receiver's duplicate filter (`CReceiveInfo` and the part of `parseData` that uses it): a ring of
    the last 500 accepted message numbers of one remote. */
module DuplicateFilter {
  import opened Integers

  const MAX_CID_MASKS_SIZE: nat := 500
  const RESET_SECONDS: int := 15

  type Masks = s: seq<int> | |s| == 500 witness seq(500, _ => -1)

  /** `index` is `m_nDataIndex`, a 32-bit count of all accepted messages; `last` is when the last one was
      accepted. */
  datatype Filter = Filter(masks: Masks, index: U32, last: int)

  function Blank(): Masks {
    seq(500, _ => -1)
  }

  const FRESH := Filter(Blank(), 0, 0)

  predicate ResetDue(f: Filter, now: int) {
    f.last > 0 && now - f.last > RESET_SECONDS
  }

  /** Whether a message goes on to its handler. Its number is compared as a signed 16-bit value. */
  predicate Accepts(f: Filter, sn: Seq16, now: int) {
    ResetDue(f, now) || Signed16(sn) !in f.masks
  }

  function SlotAt(index: U32): (i: nat)
    ensures i < 500
  {
    index % MAX_CID_MASKS_SIZE
  }

  function Receive(f: Filter, sn: Seq16, now: int): Filter {
    if !Accepts(f, sn, now) then f
    else
      var next := Wrap32(f.index + 1);
      var masks := if ResetDue(f, now) then Blank() else f.masks;
      Filter(masks[SlotAt(next) := Signed16(sn)], next, now)
  }

  // ---- What the ring holds ----

  /** How many acceptances ago slot `i` was written, modulo 500, if the count never starts over. */
  function Age(index: U32, i: nat): (a: nat)
    requires i < 500
    ensures a < 500
  {
    (index - i) % MAX_CID_MASKS_SIZE
  }

  /** 2^32 is no multiple of 500: when the count starts over at 0, the slot before was not 499 but this. */
  const LAST_SLOT: nat := 295

  /** How many acceptances ago slot `i` was written. `depth` is 500, or the number of acceptances since
      the count last started over if that is less: the slots not written since are older than they
      look. */
  function TrueAge(index: U32, depth: nat, i: nat): nat
    requires i < 500
  {
    if Age(index, i) < depth then Age(index, i) else (LAST_SLOT - i) % MAX_CID_MASKS_SIZE + depth
  }

  /** The number accepted `age` acceptances ago, -1 if there was none since the last reset. */
  function Remembered(accepted: seq<Seq16>, age: nat): int {
    if age < |accepted| then Signed16(accepted[|accepted| - 1 - age]) else -1
  }

  /** Below 500 the depth is the count itself. */
  ghost predicate DepthOk(index: U32, depth: nat) {
    0 < depth <= 500 && (depth < 500 ==> index == depth - 1)
  }

  /** Each slot holds what was accepted when it was written, since the last reset. */
  ghost predicate Holds(f: Filter, accepted: seq<Seq16>, depth: nat) {
    DepthOk(f.index, depth) && forall i :: 0 <= i < 500 ==> f.masks[i] == Remembered(accepted, TrueAge(f.index, depth, i))
  }

  /** The numbers accepted since the last reset, after one more message. */
  function AcceptedAfter(f: Filter, accepted: seq<Seq16>, sn: Seq16, now: int): seq<Seq16> {
    if !Accepts(f, sn, now) then accepted else (if ResetDue(f, now) then [] else accepted) + [sn]
  }

  function DepthAfter(f: Filter, depth: nat, sn: Seq16, now: int): nat {
    if !Accepts(f, sn, now) then depth
    else if ResetDue(f, now) then 500
    else if Wrap32(f.index + 1) == 0 then 1
    else if depth < 500 then depth + 1
    else 500
  }

  lemma OneOn(x: int)
    ensures (x + 1) % MAX_CID_MASKS_SIZE == if x % MAX_CID_MASKS_SIZE == 499 then 0 else x % MAX_CID_MASKS_SIZE + 1
  {
  }

  lemma ZeroOnly(index: int, i: nat)
    requires i < 500
    ensures (index - i) % MAX_CID_MASKS_SIZE == 0 <==> i == index % MAX_CID_MASKS_SIZE
  {
  }

  lemma AgeNext(index: U32, i: nat)
    requires i < 500 && index + 1 < TWO32
    ensures Age(index + 1, i) == if i == SlotAt(index + 1) then 0 else Age(index, i) + 1
  {
    OneOn(index - i);
    ZeroOnly(index + 1, i);
  }

  /** Every slot but the one written is older by one. */
  lemma TrueAgeNext(f: Filter, depth: nat, sn: Seq16, now: int, i: nat)
    requires i < 500 && DepthOk(f.index, depth) && Accepts(f, sn, now) && !ResetDue(f, now)
    ensures var next, after := Wrap32(f.index + 1), DepthAfter(f, depth, sn, now);
            && DepthOk(next, after)
            && TrueAge(next, after, i) == if i == SlotAt(next) then 0 else TrueAge(f.index, depth, i) + 1
  {
    hide Accepts, ResetDue, Age, SlotAt;
    if f.index + 1 == TWO32 {
      AgesAtWrap(i);
    } else if depth == 500 {
      AgeNext(f.index, i);
    } else {
      SmallAges(f.index, i);
      SmallAges(f.index + 1, i);
      OneOn(LAST_SLOT - i);
    }
  }

  lemma SmallAges(index: U32, i: nat)
    requires i < 500 && index < 500
    ensures Age(index, i) == if i <= index then index - i else 500 + index - i
    ensures SlotAt(index) == index % 500
  {
  }

  lemma AgesAtWrap(i: nat)
    requires i < 500
    ensures Age(TWO32 - 1, i) == (LAST_SLOT - i) % MAX_CID_MASKS_SIZE
    ensures Age(0, i) == if i == 0 then 0 else 500 - i
    ensures SlotAt(0) == 0
  {
  }

  lemma ReceiveKeeps(f: Filter, accepted: seq<Seq16>, depth: nat, sn: Seq16, now: int)
    requires Holds(f, accepted, depth)
    ensures Holds(Receive(f, sn, now), AcceptedAfter(f, accepted, sn, now), DepthAfter(f, depth, sn, now))
  {
    hide Age, SlotAt, Signed16, TrueAge;
    if Accepts(f, sn, now) {
      var g, after := Receive(f, sn, now), DepthAfter(f, depth, sn, now);
      if ResetDue(f, now) {
        forall i | 0 <= i < 500 ensures g.masks[i] == Remembered([sn], TrueAge(g.index, after, i)) {
          AfterReset(g.index, i);
        }
      } else {
        TrueAgeNext(f, depth, sn, now, 0);
        forall i | 0 <= i < 500 ensures g.masks[i] == Remembered(accepted + [sn], TrueAge(g.index, after, i)) {
          TrueAgeNext(f, depth, sn, now, i);
          if i != SlotAt(g.index) {
            RememberedOn(accepted, sn, TrueAge(f.index, depth, i));
          }
        }
      }
    }
  }

  lemma AfterReset(index: U32, i: nat)
    requires i < 500
    ensures TrueAge(index, 500, i) == 0 <==> i == SlotAt(index)
  {
    ZeroOnly(index, i);
  }

  lemma RememberedOn(accepted: seq<Seq16>, sn: Seq16, age: nat)
    ensures Remembered(accepted + [sn], age + 1) == Remembered(accepted, age)
  {
  }

  // ---- What is forgotten ----

  /** The ages the ring still covers: the last 500 acceptances at full depth. Below that, the ones from
      the last 296 or `depth` on are missing, as many as there were acceptances since the count started
      over, and others older than 500 stay in their place. */
  predicate Kept(depth: nat, age: nat) {
    age < Max(depth, LAST_SLOT + 1) || (LAST_SLOT + 1 + depth <= age < Top(depth))
  }

  function Top(depth: nat): nat {
    if depth >= 500 then 500 else if depth <= LAST_SLOT then 500 + depth else 501 + LAST_SLOT
  }

  lemma FullDepthKeepsLast500(age: nat)
    ensures Kept(500, age) <==> age < 500
  {
  }

  /** Exactly those ages are the age of some slot. */
  lemma KeptExactly(index: U32, depth: nat, age: nat)
    requires DepthOk(index, depth)
    ensures Kept(depth, age) <==> exists i :: 0 <= i < 500 && TrueAge(index, depth, i) == age
  {
    if depth == 500 {
      if age < 500 {
        SlotOfAge(index, age);
      }
    } else if Kept(depth, age) {
      var i := if age < depth then depth - 1 - age else if age <= LAST_SLOT then LAST_SLOT - age + depth else 500 + LAST_SLOT + depth - age;
      assert 0 <= i < 500 && TrueAge(index, depth, i) == age by { SmallTrueAge(depth, i); }
    } else {
      forall i | 0 <= i < 500 ensures TrueAge(index, depth, i) != age {
        SmallTrueAge(depth, i);
      }
    }
  }

  lemma SlotOfAge(index: U32, age: nat)
    requires age < 500
    ensures exists i :: 0 <= i < 500 && TrueAge(index, 500, i) == age
  {
    var i: nat := (index - age) % MAX_CID_MASKS_SIZE;
    assert Age(index, i) == age;
    assert 0 <= i < 500 && TrueAge(index, 500, i) == age;
  }

  lemma SmallTrueAge(depth: nat, i: nat)
    requires 0 < depth < 500 && i < 500
    ensures TrueAge(depth - 1, depth, i) ==
      if i < depth then depth - 1 - i else if i <= LAST_SLOT then LAST_SLOT - i + depth else 500 + LAST_SLOT - i + depth
  {
    SmallAges(depth - 1, i);
  }

  /** Among the numbers accepted that the ring still covers. */
  ghost predicate Known(accepted: seq<Seq16>, depth: nat, sn: Seq16) {
    exists age: nat :: age < |accepted| && Kept(depth, age) && accepted[|accepted| - 1 - age] == sn
  }

  lemma Signed16Injective(a: Seq16, b: Seq16)
    ensures Signed16(a) == Signed16(b) <==> a == b
    ensures Signed16(a) == -1 <==> a == 65535
  {
  }

  /** A slot that has not been written since the last reset. */
  lemma BlankExactly(accepted: seq<Seq16>, depth: nat)
    requires 0 < depth <= 500
    ensures |accepted| < Top(depth) <==> exists age: nat :: age >= |accepted| && Kept(depth, age)
  {
    if |accepted| < Top(depth) {
      var age: nat := Top(depth) - 1;
      assert age >= |accepted| && Kept(depth, age);
    }
  }

  lemma InMasks(f: Filter, accepted: seq<Seq16>, depth: nat, value: int)
    requires Holds(f, accepted, depth)
    ensures value in f.masks <==> exists age: nat :: Kept(depth, age) && Remembered(accepted, age) == value
  {
    hide Age, TrueAge, Kept, Remembered, DepthOk;
    assert DepthOk(f.index, depth);
    if value in f.masks {
      var i :| 0 <= i < 500 && f.masks[i] == value;
      var age := TrueAge(f.index, depth, i);
      KeptExactly(f.index, depth, age);
      assert Kept(depth, age) && Remembered(accepted, age) == value;
    }
    if age: nat :| Kept(depth, age) && Remembered(accepted, age) == value {
      KeptExactly(f.index, depth, age);
      var i :| 0 <= i < 500 && TrueAge(f.index, depth, i) == age;
      assert f.masks[i] == value;
    }
  }

  /** A message is accepted exactly if a reset is due or its number is not among those the ring covers;
      but while a slot is unwritten since the last reset, number 65535 is taken for a repetition. */
  lemma AcceptedExactly(f: Filter, accepted: seq<Seq16>, depth: nat, sn: Seq16, now: int)
    requires Holds(f, accepted, depth)
    ensures Accepts(f, sn, now) <==>
      ResetDue(f, now) || !(Known(accepted, depth, sn) || (sn == 65535 && |accepted| < Top(depth)))
  {
    hide Holds, Kept, ResetDue, Top, Signed16;
    assert 0 < depth <= 500 by { HoldsDepth(f, accepted, depth); }
    InMasks(f, accepted, depth, Signed16(sn));
    BlankExactly(accepted, depth);
    forall x: Seq16 ensures Signed16(x) == Signed16(sn) <==> x == sn {
      Signed16Injective(x, sn);
    }
    Signed16Injective(sn, sn);
    if Known(accepted, depth, sn) {
      var age: nat :| age < |accepted| && Kept(depth, age) && accepted[|accepted| - 1 - age] == sn;
      assert Kept(depth, age) && Remembered(accepted, age) == Signed16(sn);
    }
    if sn == 65535 && |accepted| < Top(depth) {
      var age: nat :| age >= |accepted| && Kept(depth, age);
      assert Kept(depth, age) && Remembered(accepted, age) == Signed16(sn);
    }
    if age: nat :| Kept(depth, age) && Remembered(accepted, age) == Signed16(sn) {
      if age < |accepted| {
        assert accepted[|accepted| - 1 - age] == sn;
      }
    }
  }

  lemma HoldsDepth(f: Filter, accepted: seq<Seq16>, depth: nat)
    requires Holds(f, accepted, depth)
    ensures 0 < depth <= 500
  {
  }

  // ---- Histories ----

  datatype Message = Message(sn: Seq16, time: int)

  function After(ms: seq<Message>): Filter {
    if ms == [] then FRESH else Receive(After(ms[..|ms| - 1]), ms[|ms| - 1].sn, ms[|ms| - 1].time)
  }

  predicate AcceptedAt(ms: seq<Message>, i: nat)
    requires i < |ms|
  {
    Accepts(After(ms[..i]), ms[i].sn, ms[i].time)
  }

  predicate ResetAt(ms: seq<Message>, i: nat)
    requires i < |ms|
  {
    ResetDue(After(ms[..i]), ms[i].time)
  }

  /** The numbers accepted since the last reset. */
  function SinceReset(ms: seq<Message>): seq<Seq16> {
    if ms == [] then []
    else AcceptedAfter(After(ms[..|ms| - 1]), SinceReset(ms[..|ms| - 1]), ms[|ms| - 1].sn, ms[|ms| - 1].time)
  }

  /** 500, or how often a message has been accepted since the count of acceptances last started over, if
      that was less than 500 acceptances ago and no reset has come since. */
  function Depth(ms: seq<Message>): nat {
    if ms == [] then 500
    else DepthAfter(After(ms[..|ms| - 1]), Depth(ms[..|ms| - 1]), ms[|ms| - 1].sn, ms[|ms| - 1].time)
  }

  /** Over every history each slot holds what was accepted when it was written. */
  lemma {:induction false} HoldsOverHistories(ms: seq<Message>)
    ensures Holds(After(ms), SinceReset(ms), Depth(ms))
  {
    hide Receive, DepthAfter, AcceptedAfter, TrueAge;
    if ms == [] {
      assert forall i :: 0 <= i < 500 ==> FRESH.masks[i] == -1;
    } else {
      HoldsOverHistories(ms[..|ms| - 1]);
      ReceiveKeeps(After(ms[..|ms| - 1]), SinceReset(ms[..|ms| - 1]), Depth(ms[..|ms| - 1]), ms[|ms| - 1].sn, ms[|ms| - 1].time);
    }
  }

  /** Over every history: exactly which messages are accepted. */
  lemma FilterExact(ms: seq<Message>, i: nat)
    requires i < |ms|
    ensures var before, depth := SinceReset(ms[..i]), Depth(ms[..i]);
            AcceptedAt(ms, i) <==>
              ResetAt(ms, i) || !(Known(before, depth, ms[i].sn) || (ms[i].sn == 65535 && |before| < Top(depth)))
  {
    hide Known, Top, Accepts, Holds;
    HoldsOverHistories(ms[..i]);
    AcceptedExactly(After(ms[..i]), SinceReset(ms[..i]), Depth(ms[..i]), ms[i].sn, ms[i].time);
  }

  /** How many messages are accepted strictly between two. */
  ghost function AcceptedBetween(ms: seq<Message>, i: nat, j: nat): nat
    requires i < j <= |ms|
    decreases j - i
  {
    if j == i + 1 then 0 else AcceptedBetween(ms, i, j - 1) + Once(AcceptedAt(ms, j - 1))
  }

  lemma StepOf(ms: seq<Message>, j: nat)
    requires 0 < j <= |ms|
    ensures SinceReset(ms[..j]) ==
      if !AcceptedAt(ms, j - 1) then SinceReset(ms[..j - 1])
      else (if ResetAt(ms, j - 1) then [] else SinceReset(ms[..j - 1])) + [ms[j - 1].sn]
  {
    assert ms[..j][..j - 1] == ms[..j - 1] && ms[..j][j - 1] == ms[j - 1];
    hide Accepts, ResetDue;
  }

  /** An accepted number moves back by one place with each acceptance. */
  lemma {:induction false} PlaceOf(ms: seq<Message>, i: nat, j: nat)
    requires i < j <= |ms| && AcceptedAt(ms, i)
    requires forall k :: i < k < j ==> !ResetAt(ms, k)
    ensures var accepted, n := SinceReset(ms[..j]), AcceptedBetween(ms, i, j);
            n < |accepted| && accepted[|accepted| - 1 - n] == ms[i].sn
    decreases j - i
  {
    StepOf(ms, j);
    hide AcceptedAt, ResetAt, After, SinceReset;
    if j > i + 1 {
      PlaceOf(ms, i, j - 1);
      var before, n := SinceReset(ms[..j - 1]), AcceptedBetween(ms, i, j - 1);
      assert !ResetAt(ms, j - 1);
      assert (before + [ms[j - 1].sn])[|before| - 1 - n] == before[|before| - 1 - n];
    }
  }

  /** Between resets a number is only accepted again when the ring does not cover it any more: not within
      500 acceptances at full depth, and never within 296. */
  lemma AtMostOnce(ms: seq<Message>, i: nat, j: nat)
    requires i < j < |ms| && ms[i].sn == ms[j].sn && AcceptedAt(ms, i) && AcceptedAt(ms, j)
    requires forall k :: i < k <= j ==> !ResetAt(ms, k)
    ensures var n, depth := AcceptedBetween(ms, i, j), Depth(ms[..j]);
            !Kept(depth, n) && n >= 296 && (depth >= 500 ==> n >= 500)
  {
    hide Accepts, ResetDue, After, SinceReset, Depth, Top, Kept;
    PlaceOf(ms, i, j);
    FilterExact(ms, j);
    KeptAtLeast(Depth(ms[..j]), AcceptedBetween(ms, i, j));
  }

  lemma KeptAtLeast(depth: nat, n: nat)
    ensures n < 296 || (depth >= 500 && n < 500) ==> Kept(depth, n)
  {
  }

  /** Message `k` is the last one accepted before message `j`. */
  ghost predicate IsLastAccepted(ms: seq<Message>, k: nat, j: nat) {
    k < j <= |ms| && AcceptedAt(ms, k) && forall m :: k < m < j ==> !AcceptedAt(ms, m)
  }

  /** The time kept is that of the last acceptance, 0 before the first. */
  lemma {:induction false} TimeKept(ms: seq<Message>, j: nat)
    requires j <= |ms|
    ensures forall k: nat :: IsLastAccepted(ms, k, j) ==> After(ms[..j]).last == ms[k].time
    ensures (forall k: nat :: k < j ==> !AcceptedAt(ms, k)) ==> After(ms[..j]).last == 0
    decreases j
  {
    hide Accepts, ResetDue;
    if j > 0 {
      TimeKept(ms, j - 1);
      assert ms[..j][..j - 1] == ms[..j - 1] && ms[..j][j - 1] == ms[j - 1];
      var f, g := After(ms[..j - 1]), After(ms[..j]);
      assert g == Receive(f, ms[j - 1].sn, ms[j - 1].time);
      assert g.last == if AcceptedAt(ms, j - 1) then ms[j - 1].time else f.last;
      hide AcceptedAt, After;
      forall k: nat | IsLastAccepted(ms, k, j) ensures g.last == ms[k].time {
        if k < j - 1 {
          assert !AcceptedAt(ms, j - 1);
          assert IsLastAccepted(ms, k, j - 1);
        }
      }
    } else {
      assert ms[..0] == [];
    }
  }

  lemma {:induction false} SomeLastAccepted(ms: seq<Message>, i: nat, j: nat) returns (k: nat)
    requires i < j <= |ms| && AcceptedAt(ms, i)
    ensures IsLastAccepted(ms, k, j)
    decreases j - i
  {
    hide Accepts, ResetDue, After;
    if AcceptedAt(ms, j - 1) {
      k := j - 1;
    } else {
      k := SomeLastAccepted(ms, i, j - 1);
    }
  }

  /** Over every history, by the times of the messages: the ring is cleared exactly if the last message
      accepted before came at a time above 0, and more than 15 seconds ago. */
  lemma ResetExactly(ms: seq<Message>, j: nat)
    requires j < |ms|
    ensures ResetAt(ms, j) <==> exists k: nat :: IsLastAccepted(ms, k, j) && ms[k].time > 0 && ms[j].time - ms[k].time > 15
    ensures ResetAt(ms, j) ==> AcceptedAt(ms, j) && SinceReset(ms[..j + 1]) == [ms[j].sn]
  {
    TimeKept(ms, j);
    StepOf(ms, j + 1);
    if i: nat :| i < j && AcceptedAt(ms, i) {
      var k := SomeLastAccepted(ms, i, j);
      assert After(ms[..j]).last == ms[k].time;
    }
  }

  /** After an acceptance the ring is only cleared by a message that comes more than 15 seconds after the
      last one accepted. */
  lemma ResetNeedsSilence(ms: seq<Message>, i: nat, j: nat)
    requires i < j < |ms| && AcceptedAt(ms, i) && ResetAt(ms, j)
    ensures exists k: nat :: i <= k && IsLastAccepted(ms, k, j) && ms[j].time - ms[k].time > RESET_SECONDS
  {
    hide AcceptedAt, ResetAt;
    ResetExactly(ms, j);
    var k: nat :| IsLastAccepted(ms, k, j) && ms[k].time > 0 && ms[j].time - ms[k].time > 15;
    assert i <= k;
  }

  /** So a peer that falls silent for more than 15 seconds is heard again, whatever number it uses. */
  lemma HeardAfterSilence(ms: seq<Message>, k: nat, j: nat)
    requires j < |ms| && IsLastAccepted(ms, k, j) && ms[k].time > 0 && ms[j].time > ms[k].time + 15
    ensures AcceptedAt(ms, j)
  {
    ResetExactly(ms, j);
  }

  // ---- A history in which the count starts over ----

  /** `n` messages numbered in order. */
  function InSequence(n: nat): (ms: seq<Message>)
    ensures |ms| == n
  {
    seq(n, k requires 0 <= k < n => Message(Wrap16(k), 0))
  }

  function InSequenceNumbers(n: nat): (s: seq<Seq16>)
    ensures |s| == n
  {
    seq(n, k requires 0 <= k < n => Wrap16(k))
  }

  /** The depth after `n` acceptances without a reset. */
  function DepthOf(n: nat): nat {
    if n < TWO32 || n % TWO32 >= 499 then 500 else n % TWO32 + 1
  }

  lemma DepthOfNext(n: nat)
    ensures DepthOf(n + 1) == if Wrap32(Wrap32(n) + 1) == 0 then 1 else if DepthOf(n) < 500 then DepthOf(n) + 1 else 500
  {
  }

  lemma InSequenceFresh(n: nat, depth: nat)
    requires 0 < depth <= 500
    ensures !Known(InSequenceNumbers(n), depth, Wrap16(n)) && (Wrap16(n) == 65535 ==> n >= Top(depth))
  {
    var before := InSequenceNumbers(n);
    forall age: nat | age < n && Kept(depth, age) ensures before[n - 1 - age] != Wrap16(n) {
      Apart(n, age);
    }
  }

  lemma Apart(n: nat, age: nat)
    requires age < n && age < 1000
    ensures Wrap16(n - 1 - age) != Wrap16(n)
  {
  }

  /** All of the first `n` are accepted, and each counts. */
  ghost predicate AllAccepted(n: nat) {
    var ms := InSequence(n);
    && SinceReset(ms) == InSequenceNumbers(n) && Depth(ms) == DepthOf(n)
    && After(ms).index == Wrap32(n) && After(ms).last == 0
    && forall i :: 0 <= i < n ==> AcceptedAt(ms, i) && !ResetAt(ms, i)
  }

  lemma {:induction false} InSequenceAccepted(n: nat)
    ensures AllAccepted(n)
  {
    if n > 0 {
      InSequenceAccepted(n - 1);
      InSequenceStep(n - 1);
    }
  }

  lemma OneMore(ms: seq<Message>, m: Message)
    ensures var f, all := After(ms), ms + [m];
            && After(all) == Receive(f, m.sn, m.time)
            && SinceReset(all) == AcceptedAfter(f, SinceReset(ms), m.sn, m.time)
            && Depth(all) == DepthAfter(f, Depth(ms), m.sn, m.time)
            && (AcceptedAt(all, |ms|) <==> Accepts(f, m.sn, m.time)) && (ResetAt(all, |ms|) <==> ResetDue(f, m.time))
            && forall i :: 0 <= i < |ms| ==> AcceptedAt(all, i) == AcceptedAt(ms, i) && ResetAt(all, i) == ResetAt(ms, i)
  {
    hide Receive, AcceptedAfter, DepthAfter, Accepts, ResetDue;
    var all := ms + [m];
    assert all[..|ms|] == ms && all[|ms|] == m;
    forall i | 0 <= i < |ms| ensures AcceptedAt(all, i) == AcceptedAt(ms, i) && ResetAt(all, i) == ResetAt(ms, i) {
      assert all[..i] == ms[..i] && all[i] == ms[i];
    }
  }

  lemma InSequenceStep(n: nat)
    requires AllAccepted(n)
    ensures AllAccepted(n + 1)
  {
    hide After, SinceReset, Depth, AcceptedAt, ResetAt, Holds, Known, Top, DepthOf, Signed16, SlotAt, Wrap16, Wrap32;
    var ms, m := InSequence(n), Message(Wrap16(n), 0);
    assert InSequence(n + 1) == ms + [m];
    assert InSequenceNumbers(n + 1) == InSequenceNumbers(n) + [Wrap16(n)];
    OneMore(ms, m);
    HoldsOverHistories(ms);
    HoldsDepth(After(ms), SinceReset(ms), Depth(ms));
    InSequenceFresh(n, Depth(ms));
    AcceptedExactly(After(ms), SinceReset(ms), Depth(ms), m.sn, 0);
    hide Accepts;
    DepthOfNext(n);
    WrapOn(n);
  }

  lemma WrapOn(n: nat)
    ensures Wrap32(Wrap32(n) + 1) == Wrap32(n + 1)
  {
  }

  lemma {:induction false} AllBetween(ms: seq<Message>, i: nat, j: nat)
    requires i < j <= |ms| && forall k :: i < k < j ==> AcceptedAt(ms, k)
    ensures AcceptedBetween(ms, i, j) == j - i - 1
    decreases j - i
  {
    if j > i + 1 {
      AllBetween(ms, i, j - 1);
    }
  }

  /** Number `n` messages in order until the count has just started over. The message accepted 297
      acceptances before is then accepted again, without a reset. */
  lemma CountStartsOver(n: nat)
    requires n == TWO32 + 1
    ensures var ms := InSequence(n) + [Message(Wrap16(n - 297), 0)];
            && ms[n - 297].sn == ms[n].sn && AcceptedAt(ms, n - 297) && AcceptedAt(ms, n)
            && (forall k :: n - 297 < k <= n ==> !ResetAt(ms, k))
            && AcceptedBetween(ms, n - 297, n) == 296
  {
    hide After, Known, Accepts, Depth, SinceReset, DepthOf;
    var first := InSequence(n);
    var ms := first + [Message(Wrap16(n - 297), 0)];
    InSequenceAccepted(n);
    assert ms[..n] == first;
    OneMore(first, ms[n]);
    AllBetween(ms, n - 297, n);
    FilterExact(ms, n);
    ForgottenAtFirst(n);
  }

  lemma ForgottenAtFirst(n: nat)
    requires n == TWO32 + 1
    ensures !Known(InSequenceNumbers(n), DepthOf(n), Wrap16(n - 297)) && Wrap16(n - 297) != 65535
  {
    var before := InSequenceNumbers(n);
    forall age: nat | age < n && Kept(DepthOf(n), age) ensures before[n - 1 - age] != Wrap16(n - 297) {
      NotThatOne(n, age);
    }
  }

  lemma NotThatOne(n: nat, age: nat)
    requires age < n && age < 1000 && age != 296
    ensures Wrap16(n - 1 - age) != Wrap16(n - 297)
  {
  }

  // ---- The filter in place ----

  class ReceiveInfo {
    const receiveCidMasks: array<int>
    var dataIndex: U32
    var lastCid: int

    ghost predicate Valid() {
      receiveCidMasks.Length == 500
    }

    ghost function View(): Filter
      requires Valid()
      reads this, receiveCidMasks
    {
      Filter(receiveCidMasks[..], dataIndex, lastCid)
    }

    constructor ()
      ensures Valid() && fresh(receiveCidMasks) && View() == FRESH
    {
      receiveCidMasks := new int[500](_ => -1);
      dataIndex, lastCid := 0, 0;
    }

    method ClearMasks()
      requires Valid()
      modifies receiveCidMasks
      ensures receiveCidMasks[..] == Blank()
    {
      for i := 0 to 500
        invariant forall j :: 0 <= j < i ==> receiveCidMasks[j] == -1
      {
        receiveCidMasks[i] := -1;
      }
    }

    /** A message from this remote; `accepted` says whether it goes on to its handler. */
    method ReceiveSeq(sn: Seq16, now: int) returns (accepted: bool)
      requires Valid()
      modifies this, receiveCidMasks
      ensures View() == Receive(old(View()), sn, now) && accepted == Accepts(old(View()), sn, now)
    {
      var signed := Signed16(sn);
      if lastCid > 0 && now - lastCid > RESET_SECONDS {
        ClearMasks();
      } else {
        for i := 0 to 500
          invariant forall j :: 0 <= j < i ==> receiveCidMasks[j] != signed
        {
          if receiveCidMasks[i] == signed { return false; }
        }
      }
      lastCid := now;
      dataIndex := Wrap32(dataIndex + 1);
      receiveCidMasks[dataIndex % MAX_CID_MASKS_SIZE] := signed;
      accepted := true;
    }
  }
}
