/** The ring of recently sent packets behind `UpdateReliableQueue` and `SendReliableMsg`: what it
    holds after any history of packets, what a resend request gets from it, and which packets a
    server takes for repetitions. */
module RtpRing {
  import opened Wrappers
  import opened Integers
  import opened RtpLostSeq

  const RELIABLE_QUEUE_SIZE: nat := 256

  /** A stored packet: the head fields that identify it, and its data. */
  datatype Msg<+D> = Msg(sn: Seq16, timestamp: nat, data: D)

  type Ring<+D> = s: seq<Option<Msg<D>>> | |s| == 256 witness seq<Option<Msg<D>>>(256, _ => None)

  function SlotOf(sn: Seq16): (i: nat)
    ensures i < 256
  {
    sn % RELIABLE_QUEUE_SIZE
  }

  function EmptyRing<D>(): Ring<D> {
    seq<Option<Msg<D>>>(256, _ => None)
  }

  predicate SameIdentity<D>(a: Msg<D>, b: Msg<D>) {
    a.sn == b.sn && a.timestamp == b.timestamp
  }

  function Put<D>(ring: Ring<D>, m: Msg<D>): Ring<D> {
    ring[SlotOf(m.sn) := Some(m)]
  }

  /** `UpdateReliableQueue`'s result: the slot held a packet with the same number and timestamp. */
  predicate Repeats<D>(ring: Ring<D>, m: Msg<D>) {
    var held := ring[SlotOf(m.sn)];
    held.Some? && SameIdentity(held.value, m)
  }

  /** Every stored packet sits in the slot of its own number. */
  ghost predicate Valid<D>(ring: Ring<D>) {
    forall i :: 0 <= i < 256 && ring[i].Some? ==> SlotOf(ring[i].value.sn) == i
  }

  // ---- The ring as a function of the packets put into it ----

  function RingAfter<D>(h: seq<Msg<D>>): Ring<D> {
    if h == [] then EmptyRing() else Put(RingAfter(h[..|h| - 1]), h[|h| - 1])
  }

  /** The last packet of the history that belongs into slot `i`. */
  function LastInSlot<D>(h: seq<Msg<D>>, i: nat): Option<Msg<D>> {
    if h == [] then None
    else if SlotOf(h[|h| - 1].sn) == i then Some(h[|h| - 1])
    else LastInSlot(h[..|h| - 1], i)
  }

  lemma {:induction false} RingHoldsLast<D>(h: seq<Msg<D>>, i: nat)
    requires i < 256
    ensures RingAfter(h)[i] == LastInSlot(h, i)
    ensures RingAfter(h)[i].Some? ==> RingAfter(h)[i].value in h && SlotOf(RingAfter(h)[i].value.sn) == i
  {
    if h != [] {
      RingHoldsLast(h[..|h| - 1], i);
    }
  }

  lemma RingStaysValid<D>(h: seq<Msg<D>>)
    ensures Valid(RingAfter(h))
  {
    forall i | 0 <= i < 256 && RingAfter(h)[i].Some? ensures SlotOf(RingAfter(h)[i].value.sn) == i {
      RingHoldsLast(h, i);
    }
  }

  // ---- Answering a request ----

  /** The stored packets with numbers from `first` to `last`, in increasing order. */
  function Answer<D>(ring: Ring<D>, first: int, last: int): (s: seq<Msg<D>>)
    requires 0 <= first && last < 65536
    decreases last - first + 1
  {
    if first > last then []
    else
      var held := ring[SlotOf(first)];
      var later := Answer(ring, first + 1, last);
      if held.Some? && held.value.sn == first then [held.value] + later else later
  }

  /** The bounds `doRtpCommand` passes on, each cut to 16 bits. */
  function AnswerRequest<D>(ring: Ring<D>, k: Nak): seq<Msg<D>> {
    Answer(ring, Wrap16(k.sn - k.count), Wrap16(k.sn - 1))
  }

  ghost predicate Stored<D>(ring: Ring<D>, m: Msg<D>) {
    exists i :: 0 <= i < 256 && ring[i] == Some(m)
  }

  ghost predicate Increasing<D>(s: seq<Msg<D>>) {
    forall i, j :: 0 <= i < j < |s| ==> s[i].sn < s[j].sn
  }

  ghost predicate Between<D>(s: seq<Msg<D>>, first: int, last: int) {
    forall i :: 0 <= i < |s| ==> first <= s[i].sn <= last
  }

  lemma {:induction false} AnswerInRange<D>(ring: Ring<D>, first: int, last: int)
    requires 0 <= first && last < 65536
    ensures Between(Answer(ring, first, last), first, last)
    decreases last - first + 1
  {
    if first <= last {
      AnswerInRange(ring, first + 1, last);
    }
  }

  /** The answer is exactly the stored packets of the range, each once, in increasing order. */
  lemma {:induction false} AnswerExact<D>(ring: Ring<D>, first: int, last: int)
    requires Valid(ring) && 0 <= first && last < 65536
    ensures var s := Answer(ring, first, last);
            && Increasing(s)
            && (forall m :: m in s <==> Stored(ring, m) && first <= m.sn <= last)
    decreases last - first + 1
  {
    if first <= last {
      AnswerExact(ring, first + 1, last);
      AnswerInRange(ring, first + 1, last);
      var s, rest := Answer(ring, first, last), Answer(ring, first + 1, last);
      var held := ring[SlotOf(first)];
      forall m: Msg<D> ensures m in s <==> Stored(ring, m) && first <= m.sn <= last {
        if Stored(ring, m) && m.sn == first {
          assert held == Some(m);
        }
      }
      if held.Some? && held.value.sn == first {
        assert s == [held.value] + rest;
        forall i, j | 0 <= i < j < |s| ensures s[i].sn < s[j].sn {
          assert s[j] == rest[j - 1];
          if i > 0 {
            assert s[i] == rest[i - 1];
          }
        }
      } else {
        assert s == rest;
      }
    }
  }

  /** A request whose range runs past the wrap from 65535 to 0 is not answered at all. */
  lemma WrappedRequestUnanswered<D>(ring: Ring<D>, k: Nak)
    requires k.count >= 1
    ensures k.sn < k.count && k.sn != 0 ==> AnswerRequest(ring, k) == []
    ensures !(k.sn < k.count && k.sn != 0) <==> Wrap16(k.sn - k.count) <= Wrap16(k.sn - 1)
  {
  }

  /** The requests for a held gap name one packet; they reach it for every number, 65535 included. */
  lemma SingleAnswered<D>(h: seq<Msg<D>>, sn: Seq16)
    ensures AnswerRequest(RingAfter(h), Nak(Wrap16(sn + 1), 1)) ==
      match LastInSlot(h, SlotOf(sn))
      case Some(m) => if m.sn == sn then [m] else []
      case None => []
  {
    RingHoldsLast(h, SlotOf(sn));
    assert Wrap16(Wrap16(sn + 1) - 1) == sn;
    assert Answer(RingAfter(h), sn + 1, sn) == [];
  }

  /** A history of packets numbered one after the other, without a wrap. */
  ghost predicate Consecutive<D>(h: seq<Msg<D>>) {
    forall i :: 0 < i < |h| ==> h[i].sn == h[i - 1].sn + 1
  }

  lemma {:induction false} ConsecutiveNumbers<D>(h: seq<Msg<D>>, i: nat)
    requires Consecutive(h) && i < |h|
    ensures h[i].sn == h[0].sn + i
  {
    if i > 0 {
      ConsecutiveNumbers(h, i - 1);
    }
  }

  lemma {:induction false} RecentIsStored<D>(h: seq<Msg<D>>, i: nat)
    requires Consecutive(h) && i < |h| <= i + RELIABLE_QUEUE_SIZE
    ensures LastInSlot(h, SlotOf(h[i].sn)) == Some(h[i])
  {
    var n := |h| - 1;
    ConsecutiveNumbers(h, i);
    ConsecutiveNumbers(h, n);
    if i < n {
      assert 0 < h[n].sn - h[i].sn < 256;
      assert SlotOf(h[n].sn) != SlotOf(h[i].sn);
      RecentIsStored(h[..n], i);
    }
  }

  lemma AnswerStep<D>(ring: Ring<D>, m: Msg<D>, last: int)
    requires ring[SlotOf(m.sn)] == Some(m) && m.sn <= last < 65536
    ensures Answer(ring, m.sn, last) == [m] + Answer(ring, m.sn + 1, last)
  {
  }

  lemma {:induction false} AnswerIsSlice<D>(h: seq<Msg<D>>, lo: nat, hi: nat)
    requires Consecutive(h) && lo <= hi <= |h| <= lo + RELIABLE_QUEUE_SIZE && |h| > 0
    ensures h[0].sn + hi - 1 < 65536
    ensures Answer(RingAfter(h), h[0].sn + lo, h[0].sn + hi - 1) == h[lo..hi]
    decreases hi - lo
  {
    if hi > 0 {
      ConsecutiveNumbers(h, hi - 1);
    }
    if lo < hi {
      hide RingAfter, SlotOf, Consecutive, Answer;
      ConsecutiveNumbers(h, lo);
      RecentIsStored(h, lo);
      RingHoldsLast(h, SlotOf(h[lo].sn));
      AnswerIsSlice(h, lo + 1, hi);
      AnswerStep(RingAfter(h), h[lo], h[0].sn + hi - 1);
      assert h[lo..hi] == [h[lo]] + h[lo + 1..hi];
    }
  }

  /** For packets stored in sequence without a wrap, a request within the last 256 of them gets
      exactly the packets it names. */
  lemma RecentRequestAnswered<D>(h: seq<Msg<D>>, lo: nat, hi: nat)
    requires Consecutive(h) && lo < hi <= |h| <= lo + RELIABLE_QUEUE_SIZE
    ensures AnswerRequest(RingAfter(h), Nak(Wrap16(h[hi - 1].sn + 1), hi - lo)) == h[lo..hi]
  {
    hide RingAfter, Answer, Wrap16, Consecutive;
    AnswerIsSlice(h, lo, hi);
    ConsecutiveNumbers(h, hi - 1);
    ConsecutiveNumbers(h, lo);
    RangeOfRequest(h[hi - 1].sn, hi - lo);
    assert h[hi - 1].sn == h[0].sn + hi - 1 && h[hi - 1].sn + 1 - (hi - lo) == h[0].sn + lo;
  }

  lemma RangeOfRequest(top: Seq16, n: nat)
    requires 0 < n <= top + 1
    ensures Wrap16(Wrap16(top + 1) - 1) == top && Wrap16(Wrap16(top + 1) - n) == top + 1 - n
  {
  }

  // ---- Repetitions ----

  /** A packet counts as a repetition exactly if the last packet before it in its slot had the same
      number and timestamp; so a second copy goes out only after a different packet took the slot. */
  lemma RepetitionExact<D>(h: seq<Msg<D>>, m: Msg<D>)
    ensures Repeats(RingAfter(h), m) <==>
      exists i :: 0 <= i < |h| && h[i].sn == m.sn && h[i].timestamp == m.timestamp
        && forall j :: i < j < |h| && h[j].sn % 256 == m.sn % 256 ==> h[j].sn == m.sn && h[j].timestamp == m.timestamp
  {
    RingHoldsLast(h, SlotOf(m.sn));
    LastInSlotIndex(h, SlotOf(m.sn));
    if Repeats(RingAfter(h), m) {
      var i :| IsLastAt(h, SlotOf(m.sn), i) && LastInSlot(h, SlotOf(m.sn)) == Some(h[i]);
      assert SameIdentity(h[i], m);
    }
  }

  ghost predicate IsLastAt<D>(h: seq<Msg<D>>, slot: nat, i: int) {
    && 0 <= i < |h| && SlotOf(h[i].sn) == slot
    && forall j :: i < j < |h| ==> SlotOf(h[j].sn) != slot
  }

  lemma {:induction false} LastInSlotIndex<D>(h: seq<Msg<D>>, slot: nat)
    ensures match LastInSlot(h, slot)
      case None => forall j :: 0 <= j < |h| ==> SlotOf(h[j].sn) != slot
      case Some(m) => exists i :: IsLastAt(h, slot, i) && h[i] == m
  {
    if h != [] {
      var n := |h| - 1;
      LastInSlotIndex(h[..n], slot);
      if SlotOf(h[n].sn) != slot && LastInSlot(h, slot).Some? {
        var m := LastInSlot(h, slot).value;
        var i :| IsLastAt(h[..n], slot, i) && h[..n][i] == m;
        forall j | i < j < |h| ensures SlotOf(h[j].sn) != slot {
          if j < n { assert h[..n][j] == h[j]; }
        }
        assert IsLastAt(h, slot, i) && h[i] == m;
      } else if SlotOf(h[n].sn) == slot {
        assert IsLastAt(h, slot, n);
      } else {
        forall j | 0 <= j < |h| ensures SlotOf(h[j].sn) != slot {
          if j < n { assert h[..n][j] == h[j]; }
        }
      }
    }
  }

  // ---- The ring in place ----

  class ReliableQueue<D> {
    const slots: array<Option<Msg<D>>>

    ghost predicate Wf() {
      slots.Length == 256
    }

    ghost function Contents(): Ring<D>
      requires Wf()
      reads slots
    {
      slots[..]
    }

    constructor ()
      ensures Wf() && fresh(slots) && Contents() == RingAfter([])
    {
      slots := new Option<Msg<D>>[256](_ => None);
    }

    method UpdateReliableQueue(m: Msg<D>) returns (exist: bool, out: Option<Msg<D>>)
      requires Wf()
      modifies slots
      ensures Contents() == Put(old(Contents()), m)
      ensures exist == Repeats(old(Contents()), m) && out == old(Contents())[SlotOf(m.sn)]
    {
      var i := m.sn % RELIABLE_QUEUE_SIZE;
      exist, out := false, None;
      if slots[i].Some? {
        exist := slots[i].value.sn == m.sn && slots[i].value.timestamp == m.timestamp;
        out := slots[i];
      }
      slots[i] := Some(m);
    }

    method SendReliableMsg(first: Seq16, last: Seq16) returns (sent: seq<Msg<D>>)
      requires Wf()
      ensures sent == Answer(Contents(), first, last)
    {
      sent := [];
      var k: int := first;
      while k <= last
        invariant first <= k
        invariant k <= last + 1 || k == first
        invariant sent + Answer(Contents(), k, last) == Answer(Contents(), first, last)
      {
        var i := k % RELIABLE_QUEUE_SIZE;
        if slots[i].Some? && slots[i].value.sn == k {
          sent := sent + [slots[i].value];
        }
        k := k + 1;
      }
    }
  }
}
