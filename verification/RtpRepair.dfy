/** Receiver and sender together: what a gap seen by the receiver brings back from the sender's ring. */
module RtpRepair {
  import opened Wrappers
  import opened Integers
  import opened RtpLostSeq
  import opened RtpMissed
  import opened RtpRing

  /** A gap of two to `MAX_RESEND_COUNT` packets that does not straddle the wrap makes the receiver ask,
      with that very packet, for a range whose answer is exactly the packets it misses, as long as
      they are among the last 256 stored. */
  lemma GapRepaired<D>(t: Tracker, p: Arrival, h: seq<Msg<D>>, lo: nat, hi: nat)
    requires RtpMissed.Valid(t) && Judged(t, p) && p.nak >= 1
    requires Wrap16(t.lastPacketSeq + 1) < p.sn && 2 <= |Missing(t.lastPacketSeq, p.sn)| <= MAX_RESEND_COUNT
    requires Consecutive(h) && lo < hi <= |h| <= lo + RELIABLE_QUEUE_SIZE
    requires h[lo].sn == Wrap16(t.lastPacketSeq + 1) && h[hi - 1].sn + 1 == p.sn
    ensures exists k :: k in Calculate(t, p).1 && AnswerRequest(RingAfter(h), k) == h[lo..hi]
    ensures |h[lo..hi]| == |Missing(t.lastPacketSeq, p.sn)|
    ensures forall i :: 0 <= i < hi - lo ==> h[lo..hi][i].sn == Missing(t.lastPacketSeq, p.sn)[i]
  {
    hide LookAtHeld, Advance, Batch, Calculate, Numbers, RingAfter, AnswerRequest, Consecutive;
    var last := t.lastPacketSeq;
    var g := |Missing(last, p.sn)|;
    ConsecutiveNumbers(h, lo);
    ConsecutiveNumbers(h, hi - 1);
    assert hi - lo == g;
    JudgedMeans(t, p);
    LookLeaves(t, p);
    BatchLeaves(LookAtHeld(t, p).t, p);
    var b := Batch(LookAtHeld(t, p).t, p).0;
    AdvanceAsks(b, p);
    var k := Nak(p.sn, g);
    assert k in Advance(b, p).1;
    assert k in OwnNaks(t, p);
    AllNaks(t, p, k);
    RecentRequestAnswered(h, lo, hi);
    assert Wrap16(h[hi - 1].sn + 1) == p.sn;
    forall i | 0 <= i < hi - lo ensures h[lo..hi][i].sn == Missing(last, p.sn)[i] {
      ConsecutiveNumbers(h, lo + i);
      NumberAt(Wrap16(last + 1), g, i);
    }
  }

  /** A server that holds a single packet back asks for it with the next packet that is not it, and gets
      it, whatever its number, as long as it is still the last of its slot. */
  lemma HeldGapRepaired<D>(t: Tracker, p: Arrival, h: seq<Msg<D>>, m: Msg<D>)
    requires RtpMissed.Valid(t) && t.serverMode && !Ignored(p) && p.nak >= 1
    requires t.lastExpectSeq == m.sn != p.sn && LastInSlot(h, SlotOf(m.sn)) == Some(m)
    ensures exists k :: k in Calculate(t, p).1 && AnswerRequest(RingAfter(h), k) == [m]
    ensures Calculate(t, p).0.lastExpectSeq != m.sn || Recorded(t, p, m.sn) == 1
  {
    hide RingAfter, AnswerRequest;
    SingleAnswered(h, m.sn);
    var k := Nak(Wrap16(m.sn + 1), 1);
    hide Batch, Advance;
    assert k in LookAtHeld(t, p).naks;
    assert k in Calculate(t, p).1;
    HeldRecorded(t, p);
  }

  lemma HeldRecorded(t: Tracker, p: Arrival)
    requires RtpMissed.Valid(t) && t.serverMode && !Ignored(p) && p.nak >= 1 && 0 <= t.lastExpectSeq != p.sn
    ensures Calculate(t, p).0.lastExpectSeq != t.lastExpectSeq || Recorded(t, p, t.lastExpectSeq) == 1
  {
    hide Batch, ListGap;
    BatchLeaves(LookAtHeld(t, p).t, p);
  }
}
