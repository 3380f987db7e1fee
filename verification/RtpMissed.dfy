/** What `CaculateMissedPackets` does with one packet: which packet it takes as the last one seen,
    which single missing packets it holds back for one more look, and which it asks to be sent again.
    Packets of NAK type 2 also put what is missing on a list, from which it is requested later in
    batches. */
module RtpMissed {
  import opened Integers
  import opened RtpLostSeq

  /** The fields of a data head this step reads. `nak` is 0 for none, 1 for audio, 2 for video. */
  datatype Arrival = Arrival(sn: Seq16, timestamp: nat, nak: nat)

  /** `CLastExpectInfo`; -1 stands for no gap held. */
  datatype Expect = Expect(sn: int, count: int)

  const NO_EXPECT := Expect(-1, 0)

  datatype Tracker = Tracker(
    serverMode: bool,
    lastPacketSeq: int,
    lastExpectSeq: int,
    lastExpect1: Expect,
    lastExpect2: Expect,
    listed: seq<Seq16>)

  function Fresh(serverMode: bool): Tracker {
    Tracker(serverMode, -1, -1, NO_EXPECT, NO_EXPECT, [])
  }

  predicate ExpectOk(e: Expect) {
    -1 <= e.sn < 65536 && 0 <= e.count < 2
  }

  /** Each mode uses its own slots, a held gap has been passed over at most once, and no number is listed
      twice. */
  ghost predicate Valid(t: Tracker) {
    && -1 <= t.lastPacketSeq < 65536 && -1 <= t.lastExpectSeq < 65536
    && ExpectOk(t.lastExpect1) && ExpectOk(t.lastExpect2)
    && (if t.serverMode then t.lastExpect1.sn == -1 && t.lastExpect2.sn == -1 else t.lastExpectSeq == -1)
    && Distinct(t.listed)
  }

  /** `done` says that the packet was one of the held gaps, so that the step ends there. */
  datatype Looked = Looked(t: Tracker, naks: seq<Nak>, done: bool)

  function RequestHeld(sn: int): seq<Nak> {
    [Nak(Wrap16(sn + 1), 1)]
  }

  /** The first part: what the packet means for the gaps held back. */
  function LookAtHeld(t: Tracker, p: Arrival): Looked {
    if p.nak < 1 then Looked(t, [], false)
    else if t.serverMode then
      if t.lastExpectSeq < 0 then Looked(t, [], false)
      else Looked(t.(lastExpectSeq := -1),
                  if t.lastExpectSeq == p.sn then [] else RequestHeld(t.lastExpectSeq),
                  t.lastExpectSeq == p.sn)
    else if t.lastExpect1.sn == p.sn then Looked(t.(lastExpect1 := NO_EXPECT), [], true)
    else if t.lastExpect2.sn == p.sn then Looked(t.(lastExpect2 := NO_EXPECT), [], true)
    else
      var e1 := if t.lastExpect1.sn != -1 then t.lastExpect1.(count := t.lastExpect1.count + 1) else t.lastExpect1;
      if e1.sn != -1 && e1.count >= 2 then
        Looked(t.(lastExpect1 := NO_EXPECT), RequestHeld(e1.sn), false)
      else
        var e2 := if t.lastExpect2.sn != -1 then t.lastExpect2.(count := t.lastExpect2.count + 1) else t.lastExpect2;
        if e2.sn != -1 && e2.count >= 2 then
          Looked(t.(lastExpect1 := e1, lastExpect2 := NO_EXPECT), RequestHeld(e2.sn), false)
        else
          Looked(t.(lastExpect1 := e1, lastExpect2 := e2), [], false)
  }

  /** Then, for type 2: the packet leaves the list, and a batch may be requested. */
  function Batch(t: Tracker, p: Arrival): (r: (Tracker, seq<Nak>)) {
    if p.nak < 2 then (t, [])
    else
      var sent := Recv(t.listed, p.sn, Wrap16(t.lastPacketSeq));
      (t.(listed := sent.left), match sent.nak case None => [] case Some(k) => [k])
  }

  /** The client seems to have started again with small numbers. */
  predicate Reentered(last: int, sn: Seq16) {
    1 <= sn <= 10 && 300 < last < 65200
  }

  /** The two jumps that are taken as progress. */
  predicate ForwardJump(last: int, sn: Seq16) {
    var due := Wrap16(last + 1);
    sn > due && sn - due < 0x7F00
  }

  predicate WrapJump(last: int, sn: Seq16) {
    var due := Wrap16(last + 1);
    due > sn && due - sn > 0x7F00
  }

  /** The source's `n`: how many packets it takes to be missing, 0 when it gives up on them. */
  function MissCount(last: int, sn: Seq16): nat {
    var due := Wrap16(last + 1);
    if ForwardJump(last, sn) then
      if sn - due > MAX_RESEND_COUNT then 0 else sn - due
    else if WrapJump(last, sn) then
      var diff := sn + (65535 - due);
      if diff > MAX_RESEND_COUNT then MAX_RESEND_COUNT else diff
    else 0
  }

  /** What a packet of type 2 puts on the list: a gap of two to five packets; of one across the wrap the
      numbers from 65530 up and from 1 up, or nothing at all if five or more of the latter are missing. */
  function ListGap(s: seq<Seq16>, last: int, sn: Seq16): seq<Seq16> {
    var due := Wrap16(last + 1);
    if ForwardJump(last, sn) then
      if 1 < sn - due <= MAX_RESEND_COUNT then Lost(s, due, sn - due) else s
    else if WrapJump(last, sn) then
      var diff1 := if 65535 - due > MAX_RESEND_COUNT then MAX_RESEND_COUNT else 65535 - due;
      var upToWrap := Lost(s, 65535 - diff1, diff1 + 1);
      if sn > MAX_RESEND_COUNT then [] else if sn > 1 then Lost(upToWrap, 1, sn - 1) else upToWrap
    else s
  }

  /** The end of the step: hold a single gap back, ask for a longer one at once. */
  function HoldOrRequest(t: Tracker, due: Seq16, sn: Seq16, n: nat): (r: (Tracker, seq<Nak>))
    requires 0 < n <= MAX_RESEND_COUNT
  {
    if n > 1 then (t, [Nak(sn, n)])
    else if t.serverMode then (t.(lastExpectSeq := due), [])
    else if t.lastExpect1.sn == -1 then (t.(lastExpect1 := Expect(due, 0)), [])
    else (t.(lastExpect2 := Expect(due, 0)), if t.lastExpect2.sn != -1 then RequestHeld(t.lastExpect2.sn) else [])
  }

  function Moved(t: Tracker, p: Arrival): Tracker {
    var last := t.lastPacketSeq;
    t.(lastPacketSeq := if ForwardJump(last, p.sn) || WrapJump(last, p.sn) then p.sn else last,
       listed := if p.nak >= 2 then ListGap(t.listed, last, p.sn) else t.listed)
  }

  /** The second part, on the tracker the first part leaves. */
  function Advance(t: Tracker, p: Arrival): (r: (Tracker, seq<Nak>)) {
    var last := t.lastPacketSeq;
    if last == -1 || p.sn == Wrap16(last + 1) || Reentered(last, p.sn) then (t.(lastPacketSeq := p.sn), [])
    else
      var moved := Moved(t, p);
      var n := MissCount(last, p.sn);
      if p.nak >= 1 && n > 0 then HoldOrRequest(moved, Wrap16(last + 1), p.sn, n) else (moved, [])
  }

  predicate Ignored(p: Arrival) {
    p.sn == 0 && p.timestamp == 0
  }

  /** The whole step: the tracker after it and the requests it sends, in order. */
  function Calculate(t: Tracker, p: Arrival): (r: (Tracker, seq<Nak>)) {
    if Ignored(p) then (t, [])
    else
      var looked := LookAtHeld(t, p);
      if looked.done then (looked.t, looked.naks)
      else
        var batched := Batch(looked.t, p);
        var moved := Advance(batched.0, p);
        (moved.0, looked.naks + batched.1 + moved.1)
  }

  /** The requests of the step that are not a batch of listed numbers, and that batch. */
  function OwnNaks(t: Tracker, p: Arrival): seq<Nak> {
    if Ignored(p) then []
    else
      var looked := LookAtHeld(t, p);
      if looked.done then looked.naks else looked.naks + Advance(Batch(looked.t, p).0, p).1
  }

  function BatchNaks(t: Tracker, p: Arrival): seq<Nak> {
    if Ignored(p) || LookAtHeld(t, p).done then [] else Batch(LookAtHeld(t, p).t, p).1
  }

  lemma AllNaks(t: Tracker, p: Arrival, k: Nak)
    ensures k in Calculate(t, p).1 <==> k in OwnNaks(t, p) || k in BatchNaks(t, p)
  {
    hide LookAtHeld, Batch, Advance;
  }

  /** What the first part leaves alone: it only empties slots or counts a look, and asks for at most
      one packet. */
  lemma LookLeaves(t: Tracker, p: Arrival)
    requires Valid(t)
    ensures var looked := LookAtHeld(t, p);
            && Valid(looked.t) && looked.t.lastPacketSeq == t.lastPacketSeq && looked.t.serverMode == t.serverMode
            && looked.t.listed == t.listed
            && (p.nak >= 1 && t.serverMode && !looked.done ==> looked.t.lastExpectSeq == -1)
            && |looked.naks| <= 1 && (forall k :: k in looked.naks ==> k.count == 1)
  {
  }

  /** The batch only touches the list. */
  lemma BatchLeaves(t: Tracker, p: Arrival)
    requires Valid(t)
    ensures var r := Batch(t, p);
            && Valid(r.0) && r.0 == t.(listed := r.0.listed) && |r.1| <= 1
  {
    hide Send, Distinct;
    WithoutHas(t.listed, p.sn, p.sn);
    BatchFromList(Without(t.listed, p.sn), Wrap16(t.lastPacketSeq), p.sn);
  }

  lemma ListGapDistinct(s: seq<Seq16>, last: int, sn: Seq16)
    requires Distinct(s)
    ensures Distinct(ListGap(s, last, sn))
  {
    hide Lost, Distinct;
    var due := Wrap16(last + 1);
    if ForwardJump(last, sn) {
      if 1 < sn - due <= MAX_RESEND_COUNT {
        LostHas(s, due, sn - due, sn);
      }
    } else if WrapJump(last, sn) {
      var diff1 := if 65535 - due > MAX_RESEND_COUNT then MAX_RESEND_COUNT else 65535 - due;
      LostHas(s, 65535 - diff1, diff1 + 1, sn);
      if sn > 1 {
        LostHas(Lost(s, 65535 - diff1, diff1 + 1), 1, sn - 1, sn);
      }
    }
    assert Distinct([]) by { EmptyDistinct(); }
  }

  lemma EmptyDistinct()
    ensures Distinct([])
  {
  }

  lemma AdvanceKeepsValid(t: Tracker, p: Arrival)
    requires Valid(t)
    ensures Valid(Advance(t, p).0) && Advance(t, p).0.serverMode == t.serverMode
  {
    hide ListGap, Distinct;
    ListGapDistinct(t.listed, t.lastPacketSeq, p.sn);
  }

  lemma CalculateKeepsValid(t: Tracker, p: Arrival)
    requires Valid(t)
    ensures Valid(Calculate(t, p).0) && Calculate(t, p).0.serverMode == t.serverMode
  {
    hide LookAtHeld, Batch, Advance, Valid;
    LookLeaves(t, p);
    BatchLeaves(LookAtHeld(t, p).t, p);
    AdvanceKeepsValid(Batch(LookAtHeld(t, p).t, p).0, p);
  }

  // ---- The last packet seen follows serial number arithmetic ----

  /** "Less than" on 16-bit serial numbers, section 3.2 of RFC 1982. */
  predicate SerialLess(a: Seq16, b: Seq16) {
    || (a < b && b - a < 0x8000)
    || (a > b && a - b > 0x8000)
  }

  /** How many steps forward, around the circle, lead from `a` to `b`. */
  function Distance(a: Seq16, b: Seq16): Seq16 {
    Wrap16(b - a)
  }

  /** The packet is one of the gaps held back. */
  predicate IsHeldGap(t: Tracker, p: Arrival) {
    p.nak >= 1 && if t.serverMode then t.lastExpectSeq == p.sn else t.lastExpect1.sn == p.sn || t.lastExpect2.sn == p.sn
  }

  /** The step runs to its second part and does not take the packet for that of a client that has started
      again, which is numbered 1 to 10 after one from 301 to 65199. */
  predicate Judged(t: Tracker, p: Arrival) {
    && t.lastPacketSeq >= 0
    && !(p.sn == 0 && p.timestamp == 0) && !IsHeldGap(t, p)
    && !(1 <= p.sn <= 10 && 300 < t.lastPacketSeq < 65200)
  }

  lemma JudgedMeans(t: Tracker, p: Arrival)
    requires Valid(t)
    ensures LookAtHeld(t, p).done <==> IsHeldGap(t, p)
    ensures Judged(t, p) <==>
      t.lastPacketSeq >= 0 && !Ignored(p) && !LookAtHeld(t, p).done && !Reentered(t.lastPacketSeq, p.sn)
  {
  }

  /** Exactly when the last packet seen advances. */
  lemma AdvancesExactly(t: Tracker, p: Arrival)
    requires Valid(t) && Judged(t, p)
    ensures var d := Distance(t.lastPacketSeq, p.sn);
            var wraps := p.sn < Wrap16(t.lastPacketSeq + 1);
            Calculate(t, p).0.lastPacketSeq ==
              if 0 < d <= (if wraps then 0x8100 else 0x7F00) then p.sn else t.lastPacketSeq
  {
    hide LookAtHeld, Batch, ListGap;
    JudgedMeans(t, p);
    LookLeaves(t, p);
    BatchLeaves(LookAtHeld(t, p).t, p);
  }

  /** For every tracker and packet: the last packet seen after the step. A packet numbered 1 to 10 after one
      from 301 to 65199 is a client that has started again. */
  lemma LastSeenExactly(t: Tracker, p: Arrival)
    requires Valid(t)
    ensures var last := t.lastPacketSeq;
            Calculate(t, p).0.lastPacketSeq ==
              if (p.sn == 0 && p.timestamp == 0) || IsHeldGap(t, p) then last
              else if last == -1 || (1 <= p.sn <= 10 && 300 < last < 65200) then p.sn
              else if 0 < (p.sn - last) % 65536 <= (if p.sn < (last + 1) % 65536 then 0x8100 else 0x7F00) then p.sn
              else last
  {
    hide LookAtHeld, Batch, ListGap;
    JudgedMeans(t, p);
    LookLeaves(t, p);
    BatchLeaves(LookAtHeld(t, p).t, p);
    if Judged(t, p) {
      hide Calculate;
      AdvancesExactly(t, p);
    }
  }

  /** The restarted client is followed without a gap: nothing is recorded, listed or asked for but what was
      held or listed before. */
  lemma ReentryFollowed(t: Tracker, p: Arrival, x: Seq16)
    requires Valid(t) && !IsHeldGap(t, p) && 1 <= p.sn <= 10 && 300 < t.lastPacketSeq < 65200
    ensures var looked := LookAtHeld(t, p);
            var batched := Batch(looked.t, p);
            Calculate(t, p) == (batched.0.(lastPacketSeq := p.sn), looked.naks + batched.1)
    ensures Recorded(t, p, x) == 0 && Entered(t, p, x) == 0 && OwnNaks(t, p) == LookAtHeld(t, p).naks
  {
    hide LookAtHeld, Batch, ListGap;
    JudgedMeans(t, p);
    LookLeaves(t, p);
    BatchLeaves(LookAtHeld(t, p).t, p);
    assert LookAtHeld(t, p).naks + [] == LookAtHeld(t, p).naks;
    assert LookAtHeld(t, p).naks + Batch(LookAtHeld(t, p).t, p).1 + [] == LookAtHeld(t, p).naks + Batch(LookAtHeld(t, p).t, p).1;
  }

  /** Within 0x7F00 either way that is the order of RFC 1982. */
  lemma SerialTracking(t: Tracker, p: Arrival)
    requires Valid(t) && Judged(t, p)
    requires 0 < Distance(t.lastPacketSeq, p.sn) < 0x7F00 || 0 < Distance(p.sn, t.lastPacketSeq) < 0x7F00
    ensures Calculate(t, p).0.lastPacketSeq == if SerialLess(t.lastPacketSeq, p.sn) then p.sn else t.lastPacketSeq
  {
    hide Calculate, LookAtHeld, Reentered;
    AdvancesExactly(t, p);
  }

  lemma OtherwiseUnchanged(t: Tracker, p: Arrival)
    requires Valid(t) && (Ignored(p) || LookAtHeld(t, p).done)
    ensures Calculate(t, p).0.lastPacketSeq == t.lastPacketSeq
  {
  }

  /** Beyond that distance the two orders part in both directions. */
  lemma FarPacketsDisagree()
    ensures var t := Fresh(true).(lastPacketSeq := 0);
            SerialLess(0, 0x7F01) && Calculate(t, Arrival(0x7F01, 9, 0)).0.lastPacketSeq == 0
    ensures var t := Fresh(true).(lastPacketSeq := 65300);
            !SerialLess(65300, 32600) && Calculate(t, Arrival(32600, 9, 0)).0.lastPacketSeq == 32600
  {
  }

  // ---- What a packet uncovers ----

  ghost predicate SameSlots(a: Tracker, b: Tracker) {
    a.lastExpectSeq == b.lastExpectSeq && a.lastExpect1 == b.lastExpect1 && a.lastExpect2 == b.lastExpect2
  }

  /** How many packets the step takes to be missing, by the way around the circle: all of them up to five;
      across the wrap one fewer, and five of a longer gap. */
  function Uncovered(last: Seq16, sn: Seq16): nat {
    var d, wraps := (sn - last) % 65536, sn < (last + 1) % 65536;
    if d == 0 || d > (if wraps then 0x8100 else 0x7F00) then 0
    else if wraps then (if d - 2 > 5 then 5 else if d >= 2 then d - 2 else 0)
    else if d - 1 <= 5 then d - 1
    else 0
  }

  lemma UncoveredIsMissCount(last: Seq16, sn: Seq16)
    requires sn != Wrap16(last + 1)
    ensures MissCount(last, sn) == Uncovered(last, sn)
    ensures ForwardJump(last, sn) || WrapJump(last, sn) ==> Uncovered(last, sn) <= 5
  {
  }

  /** Where a single missing packet goes: a server has one place for it. A client holds it in the first slot
      if that is free and else in the second, and asks for what it finds there. */
  ghost predicate HeldBack(t: Tracker, next: Tracker, due: Seq16, naks: seq<Nak>) {
    if t.serverMode then next.lastExpectSeq == due && naks == []
    else if t.lastExpect1.sn == -1 then
      next.lastExpect1 == Expect(due, 0) && next.lastExpect2 == t.lastExpect2 && naks == []
    else
      && next.lastExpect1 == t.lastExpect1 && next.lastExpect2 == Expect(due, 0)
      && naks == (if t.lastExpect2.sn < 0 then [] else [Nak((t.lastExpect2.sn + 1) % 65536, 1)])
  }

  lemma AdvanceExactly(t: Tracker, p: Arrival)
    requires Valid(t) && t.lastPacketSeq >= 0 && !Reentered(t.lastPacketSeq, p.sn)
    ensures var r, n := Advance(t, p), Uncovered(t.lastPacketSeq, p.sn);
            && (p.nak < 1 || n == 0 ==> SameSlots(r.0, t) && r.1 == [])
            && (p.nak >= 1 && n >= 2 ==> SameSlots(r.0, t) && r.1 == [Nak(p.sn, n)])
            && (p.nak >= 1 && n == 1 ==> HeldBack(t, r.0, Wrap16(t.lastPacketSeq + 1), r.1))
            && r.0.listed == (if p.nak >= 2 then ListGap(t.listed, t.lastPacketSeq, p.sn) else t.listed)
  {
    hide ListGap, MissCount, Uncovered, Distinct;
    if p.sn == Wrap16(t.lastPacketSeq + 1) {
      NextUncovers(t.lastPacketSeq, t.listed);
    } else {
      UncoveredIsMissCount(t.lastPacketSeq, p.sn);
      MissBounded(t.lastPacketSeq, p.sn);
    }
  }

  lemma NextUncovers(last: Seq16, s: seq<Seq16>)
    ensures Uncovered(last, Wrap16(last + 1)) == 0 && ListGap(s, last, Wrap16(last + 1)) == s
  {
  }

  /** For every packet that is judged: what it makes the step ask for, hold back and list, besides what the
      look at the held gaps and the batch do. */
  lemma UncoversExactly(t: Tracker, p: Arrival)
    requires Valid(t) && Judged(t, p)
    ensures var looked, next, n := LookAtHeld(t, p), Calculate(t, p).0, Uncovered(t.lastPacketSeq, p.sn);
            && (p.nak < 1 || n == 0 ==> SameSlots(next, looked.t) && OwnNaks(t, p) == looked.naks)
            && (p.nak >= 1 && n >= 2 ==> SameSlots(next, looked.t) && OwnNaks(t, p) == looked.naks + [Nak(p.sn, n)])
            && (p.nak >= 1 && n == 1 ==>
                 exists naks :: HeldBack(looked.t, next, Wrap16(t.lastPacketSeq + 1), naks) && OwnNaks(t, p) == looked.naks + naks)
            && next.listed == (if p.nak >= 2 then ListGap(ListAfterBatch(t, p), t.lastPacketSeq, p.sn) else t.listed)
  {
    hide LookAtHeld, Batch, Advance, Uncovered, ListGap, IsHeldGap;
    JudgedMeans(t, p);
    LookLeaves(t, p);
    var looked := LookAtHeld(t, p);
    BatchLeaves(looked.t, p);
    ShortBatch(looked.t, p);
    var b := Batch(looked.t, p).0;
    AdvanceExactly(b, p);
    assert looked.naks + [] == looked.naks;
    var naks := Advance(b, p).1;
    assert HeldBack(b, Advance(b, p).0, Wrap16(t.lastPacketSeq + 1), naks)
       ==> HeldBack(looked.t, Calculate(t, p).0, Wrap16(t.lastPacketSeq + 1), naks);
  }

  /** The look at the held gaps: a server asks for its gap with the next packet. A client looks at the first
      slot, and at the second unless the first is settled; at its second look a gap is asked for. */
  lemma LooksExactly(t: Tracker, p: Arrival)
    requires Valid(t) && p.nak >= 1 && !IsHeldGap(t, p)
    ensures var looked, a, b := LookAtHeld(t, p), t.lastExpect1, t.lastExpect2;
            var first, second := a.sn >= 0 && a.count == 1, b.sn >= 0 && b.count == 1;
            && (t.serverMode ==>
                 && looked.t.lastExpectSeq == -1
                 && looked.naks == (if t.lastExpectSeq >= 0 then [Nak((t.lastExpectSeq + 1) % 65536, 1)] else []))
            && (!t.serverMode ==>
                 && looked.t.lastExpect1 == (if first then Expect(-1, 0) else if a.sn >= 0 then Expect(a.sn, 1) else a)
                 && looked.t.lastExpect2 ==
                      (if first then b else if second then Expect(-1, 0) else if b.sn >= 0 then Expect(b.sn, 1) else b)
                 && looked.naks ==
                      (if first then [Nak((a.sn + 1) % 65536, 1)] else if second then [Nak((b.sn + 1) % 65536, 1)] else []))
  {
  }

  // ---- A longer gap is requested at once ----

  /** The numbers strictly between `last` and `sn`, going forward around the circle. */
  function Missing(last: Seq16, sn: Seq16): (s: seq<Seq16>)
    ensures |s| == Wrap16(sn - last - 1)
  {
    Numbers(Wrap16(last + 1), Wrap16(sn - last - 1))
  }

  /** What the second part asks for after a judged packet. */
  lemma AdvanceAsks(t: Tracker, p: Arrival)
    requires t.lastPacketSeq >= 0 && !Reentered(t.lastPacketSeq, p.sn) && p.nak >= 1
    requires MissCount(t.lastPacketSeq, p.sn) != 1
    ensures var n := MissCount(t.lastPacketSeq, p.sn);
            Advance(t, p).1 == if n >= 2 then [Nak(p.sn, n)] else []
  {
  }

  lemma AdvanceAsksShort(t: Tracker, p: Arrival)
    requires t.lastPacketSeq >= 0 && MissCount(t.lastPacketSeq, p.sn) <= 1
    ensures forall k :: k in Advance(t, p).1 ==> k.count == 1
  {
  }

  /** A gap of two to `MAX_RESEND_COUNT` packets is requested exactly if it does not straddle the wrap from
      65535 to 0, and then at once; but for a batch from the list that happens to be the same. */
  lemma GapRequestedExactly(t: Tracker, p: Arrival)
    requires Valid(t) && Judged(t, p) && p.nak >= 1
    requires 2 <= |Missing(t.lastPacketSeq, p.sn)| <= MAX_RESEND_COUNT
    ensures (exists k :: k in Calculate(t, p).1 && Requested(k) == Missing(t.lastPacketSeq, p.sn))
       <==> Wrap16(t.lastPacketSeq + 1) < p.sn
            || exists k :: k in BatchNaks(t, p) && Requested(k) == Missing(t.lastPacketSeq, p.sn)
  {
    hide LookAtHeld, Advance, Batch, Numbers, Calculate;
    JudgedMeans(t, p);
    var last, looked := t.lastPacketSeq, LookAtHeld(t, p);
    var g, n := |Missing(last, p.sn)|, MissCount(last, p.sn);
    LookLeaves(t, p);
    BatchLeaves(looked.t, p);
    var b := Batch(looked.t, p).0;
    var asked := Advance(b, p).1;
    assert OwnNaks(t, p) == looked.naks + asked;
    forall k ensures k in Calculate(t, p).1 <==> k in OwnNaks(t, p) || k in BatchNaks(t, p) {
      AllNaks(t, p, k);
    }
    if Wrap16(last + 1) < p.sn {
      AdvanceAsks(b, p);
      assert asked == [Nak(p.sn, g)];
      assert Wrap16(p.sn - g) == Wrap16(last + 1);
      assert Requested(asked[0]) == Missing(last, p.sn) && asked[0] in Calculate(t, p).1;
    } else {
      assert n == g - 1;
      if n <= 1 {
        AdvanceAsksShort(b, p);
      } else {
        AdvanceAsks(b, p);
      }
      forall k | k in OwnNaks(t, p) ensures |Requested(k)| < g {
        assert k in looked.naks || k in asked;
      }
    }
  }

  /** Packets of type 1 have no batch. */
  lemma NoBatch(t: Tracker, p: Arrival)
    requires p.nak < 2
    ensures BatchNaks(t, p) == []
  {
    hide LookAtHeld;
  }

  /** Across the wrap the step overlooks the first missing packet, and of a long gap it asks for the
      last `MAX_RESEND_COUNT`. */
  lemma WrapRequestDropsFirst(t: Tracker, p: Arrival)
    requires Valid(t) && Judged(t, p) && p.nak >= 1
    requires WrapJump(t.lastPacketSeq, p.sn)
    ensures var missing := Missing(t.lastPacketSeq, p.sn);
            var n := MissCount(t.lastPacketSeq, p.sn);
            && |missing| >= 1 && n == (if |missing| - 1 <= MAX_RESEND_COUNT then |missing| - 1 else MAX_RESEND_COUNT)
            && (n >= 2 ==> Nak(p.sn, n) in OwnNaks(t, p) && Requested(Nak(p.sn, n)) == missing[|missing| - n..])
  {
    hide LookAtHeld, Advance, Batch, Numbers;
    JudgedMeans(t, p);
    var last, looked := t.lastPacketSeq, LookAtHeld(t, p);
    var missing, n := Missing(last, p.sn), MissCount(last, p.sn);
    LookLeaves(t, p);
    BatchLeaves(looked.t, p);
    if n >= 2 {
      AdvanceAsks(Batch(looked.t, p).0, p);
      assert Nak(p.sn, n) in Advance(Batch(looked.t, p).0, p).1;
      NumbersTail(Wrap16(last + 1), |missing|, n);
      WrapShift(last, p.sn, n);
    }
  }

  lemma WrapShift(last: Seq16, sn: Seq16, n: nat)
    ensures Wrap16(Wrap16(last + 1) + (Wrap16(sn - last - 1) - n)) == Wrap16(sn - n)
  {
  }

  lemma LongGap(last: Seq16, sn: Seq16, s: seq<Seq16>)
    requires ForwardJump(last, sn) && |Missing(last, sn)| > MAX_RESEND_COUNT
    ensures MissCount(last, sn) == 0 && ListGap(s, last, sn) == s && sn != Wrap16(last + 1)
  {
    assert sn - Wrap16(last + 1) > MAX_RESEND_COUNT by { GapLength(last, sn); }
    hide Missing, Lost, WrapJump, Wrap16;
  }

  lemma GapLength(last: Seq16, sn: Seq16)
    requires ForwardJump(last, sn)
    ensures |Missing(last, sn)| == sn - Wrap16(last + 1)
  {
    hide Missing;
  }

  /** A gap too long to be worth asking for is skipped without a request for it or a record of it. */
  lemma LongGapSkipped(t: Tracker, p: Arrival)
    requires Valid(t) && Judged(t, p) && ForwardJump(t.lastPacketSeq, p.sn)
    requires |Missing(t.lastPacketSeq, p.sn)| > MAX_RESEND_COUNT
    ensures var looked := LookAtHeld(t, p);
            var batched := Batch(looked.t, p);
            Calculate(t, p) == (batched.0.(lastPacketSeq := p.sn), looked.naks + batched.1)
  {
    hide LookAtHeld, Batch, Missing, ForwardJump, WrapJump, MissCount, ListGap;
    JudgedMeans(t, p);
    LookLeaves(t, p);
    BatchLeaves(LookAtHeld(t, p).t, p);
    LongGap(t.lastPacketSeq, p.sn, Batch(LookAtHeld(t, p).t, p).0.listed);
    assert LookAtHeld(t, p).naks + Batch(LookAtHeld(t, p).t, p).1 + [] == LookAtHeld(t, p).naks + Batch(LookAtHeld(t, p).t, p).1;
  }

  // ---- Every single gap is accounted for ----
  // All counts are of one number `x`: how often it was recorded, filled, requested, and is held.

  /** How many of the slots hold `x` back: neither filled nor requested yet. */
  function Held(t: Tracker, x: Seq16): nat {
    Once(t.lastExpectSeq == x) + Once(t.lastExpect1.sn == x) + Once(t.lastExpect2.sn == x)
  }

  /** The packet uncovers `x` as a single gap to hold back: the step takes exactly one packet to be
      missing, namely the one after the last seen. */
  function Recorded(t: Tracker, p: Arrival, x: Seq16): nat {
    Once(Judged(t, p) && p.nak >= 1 && p.sn != Wrap16(t.lastPacketSeq + 1)
         && MissCount(t.lastPacketSeq, p.sn) == 1 && x == Wrap16(t.lastPacketSeq + 1))
  }

  /** The packet is `x` and `x` was held back. */
  function Filled(t: Tracker, p: Arrival, x: Seq16): nat {
    Once(!Ignored(p) && p.nak >= 1 && p.sn == x && Held(t, x) > 0)
  }

  /** How many of the requests name the single packet `x`. */
  function Asked(naks: seq<Nak>, x: Seq16): nat {
    if naks == [] then 0
    else Once(naks[0].count == 1 && Wrap16(naks[0].sn - 1) == x) + Asked(naks[1..], x)
  }

  lemma {:induction false} AskedConcat(a: seq<Nak>, b: seq<Nak>, x: Seq16)
    ensures Asked(a + b, x) == Asked(a, x) + Asked(b, x)
  {
    if a == [] {
      assert a + b == b;
    } else {
      assert (a + b)[1..] == a[1..] + b;
      AskedConcat(a[1..], b, x);
    }
  }

  lemma AskedOne(sn: int, x: Seq16)
    requires 0 <= sn < 65536
    ensures Asked(RequestHeld(sn), x) == Once(sn == x)
  {
    assert Wrap16(Wrap16(sn + 1) - 1) == sn;
  }

  lemma LookConserves(t: Tracker, p: Arrival, x: Seq16)
    requires Valid(t) && !Ignored(p)
    ensures var looked := LookAtHeld(t, p);
            Held(t, x) == Held(looked.t, x) + Filled(t, p, x) + Asked(looked.naks, x)
  {
    hide Asked, RequestHeld;
    AskedNone(x);
    if t.lastExpectSeq >= 0 { AskedOne(t.lastExpectSeq, x); }
    if t.lastExpect1.sn >= 0 { AskedOne(t.lastExpect1.sn, x); }
    if t.lastExpect2.sn >= 0 { AskedOne(t.lastExpect2.sn, x); }
  }

  lemma AskedNone(x: Seq16)
    ensures Asked([], x) == 0
  {
  }

  lemma HeldWithoutList(t: Tracker, s: seq<Seq16>, x: Seq16)
    ensures Held(t.(listed := s), x) == Held(t, x)
  {
  }

  lemma HoldConserves(t: Tracker, due: Seq16, sn: Seq16, n: nat, x: Seq16)
    requires Valid(t) && 0 < n <= MAX_RESEND_COUNT && (t.serverMode ==> t.lastExpectSeq == -1)
    ensures var r := HoldOrRequest(t, due, sn, n);
            Held(t, x) + Once(n == 1 && x == due) == Held(r.0, x) + Asked(r.1, x)
  {
    AskedNone(x);
    if t.lastExpect2.sn >= 0 { AskedOne(t.lastExpect2.sn, x); }
  }

  lemma AdvanceConserves(t: Tracker, p: Arrival, x: Seq16)
    requires Valid(t) && (p.nak >= 1 && t.serverMode ==> t.lastExpectSeq == -1)
    ensures var r := Advance(t, p);
            var last := t.lastPacketSeq;
            var judged := last != -1 && p.sn != Wrap16(last + 1) && !Reentered(last, p.sn);
            Held(t, x) + Once(judged && p.nak >= 1 && MissCount(last, p.sn) == 1 && x == Wrap16(last + 1))
            == Held(r.0, x) + Asked(r.1, x)
  {
    hide Asked, HoldOrRequest, ForwardJump, WrapJump, ListGap, Distinct;
    AskedNone(x);
    ListGapDistinct(t.listed, t.lastPacketSeq, p.sn);
    var last, n := t.lastPacketSeq, MissCount(t.lastPacketSeq, p.sn);
    if last != -1 && p.sn != Wrap16(last + 1) && !Reentered(last, p.sn) && p.nak >= 1 && n > 0 {
      HoldConserves(Moved(t, p), Wrap16(last + 1), p.sn, n, x);
    }
  }

  /** One step loses no gap and invents none: what was held or is newly recorded is held, filled or
      requested afterwards, each exactly once. */
  lemma StepConserves(t: Tracker, p: Arrival, x: Seq16)
    requires Valid(t)
    ensures Held(t, x) + Recorded(t, p, x) == Held(Calculate(t, p).0, x) + Filled(t, p, x) + Asked(OwnNaks(t, p), x)
  {
    hide Asked, LookAtHeld, Batch, Advance, MissCount, Held, Reentered, IsHeldGap;
    JudgedMeans(t, p);
    AskedNone(x);
    if !Ignored(p) {
      var looked := LookAtHeld(t, p);
      LookConserves(t, p, x);
      LookLeaves(t, p);
      if !looked.done {
        BatchLeaves(looked.t, p);
        var b := Batch(looked.t, p).0;
        HeldWithoutList(looked.t, b.listed, x);
        AdvanceConserves(b, p, x);
        AskedConcat(looked.naks, Advance(b, p).1, x);
      }
    }
  }

  // ---- Runs ----

  /** A packet comes, or the tracking of the last packet starts over, as it does when frames go on after a
      silence. */
  datatype Heard = Came(p: Arrival) | Restarted

  function Hear(t: Tracker, h: Heard): Tracker {
    match h
    case Came(p) => Calculate(t, p).0
    case Restarted => t.(lastPacketSeq := -1)
  }

  function After(t: Tracker, hs: seq<Heard>): Tracker {
    if hs == [] then t else Hear(After(t, hs[..|hs| - 1]), hs[|hs| - 1])
  }

  function AllOwnNaks(t: Tracker, hs: seq<Heard>): seq<Nak> {
    if hs == [] then []
    else
      var h := hs[|hs| - 1];
      AllOwnNaks(t, hs[..|hs| - 1]) + if h.Came? then OwnNaks(After(t, hs[..|hs| - 1]), h.p) else []
  }

  function TimesRecorded(t: Tracker, hs: seq<Heard>, x: Seq16): nat {
    if hs == [] then 0
    else
      var h := hs[|hs| - 1];
      TimesRecorded(t, hs[..|hs| - 1], x) + if h.Came? then Recorded(After(t, hs[..|hs| - 1]), h.p, x) else 0
  }

  function TimesFilled(t: Tracker, hs: seq<Heard>, x: Seq16): nat {
    if hs == [] then 0
    else
      var h := hs[|hs| - 1];
      TimesFilled(t, hs[..|hs| - 1], x) + if h.Came? then Filled(After(t, hs[..|hs| - 1]), h.p, x) else 0
  }

  lemma {:induction false} RunKeepsValid(t: Tracker, hs: seq<Heard>)
    requires Valid(t)
    ensures Valid(After(t, hs)) && After(t, hs).serverMode == t.serverMode
  {
    hide Calculate;
    if hs != [] {
      RunKeepsValid(t, hs[..|hs| - 1]);
      if hs[|hs| - 1].Came? {
        CalculateKeepsValid(After(t, hs[..|hs| - 1]), hs[|hs| - 1].p);
      }
    }
  }

  /** After any run every single gap ever recorded is in exactly one of three states: filled by an
      arrival, requested once, or still held; none is overwritten unresolved. */
  lemma {:induction false} GapsConserved(t: Tracker, hs: seq<Heard>, x: Seq16)
    requires Valid(t)
    ensures Held(t, x) + TimesRecorded(t, hs, x) == TimesFilled(t, hs, x) + Asked(AllOwnNaks(t, hs), x) + Held(After(t, hs), x)
  {
    hide Asked, Calculate, Recorded, Filled, OwnNaks, Valid;
    if hs == [] {
      AskedNone(x);
    } else {
      var before, h := hs[..|hs| - 1], hs[|hs| - 1];
      GapsConserved(t, before, x);
      RunKeepsValid(t, before);
      if h.Came? {
        StepConserves(After(t, before), h.p, x);
        AskedConcat(AllOwnNaks(t, before), OwnNaks(After(t, before), h.p), x);
      } else {
        assert AllOwnNaks(t, before) + [] == AllOwnNaks(t, before);
      }
    }
  }

  /** A source begins with nothing held. */
  lemma NothingHeld(serverMode: bool, x: Seq16)
    ensures Valid(Fresh(serverMode)) && Held(Fresh(serverMode), x) == 0
  {
  }

  /** At most one slot is in use in server mode and at most two in client mode. */
  lemma FewHeld(serverMode: bool, hs: seq<Heard>)
    ensures var t := After(Fresh(serverMode), hs);
            if serverMode then t.lastExpect1.sn == -1 && t.lastExpect2.sn == -1 else t.lastExpectSeq == -1
  {
    RunKeepsValid(Fresh(serverMode), hs);
  }

  // ---- The list of NAK type 2 ----

  /** The list when the packet has left it and a batch has been taken, before what it uncovers is added. */
  function ListAfterBatch(t: Tracker, p: Arrival): seq<Seq16> {
    if Ignored(p) || LookAtHeld(t, p).done then t.listed else Batch(LookAtHeld(t, p).t, p).0.listed
  }

  /** The step puts `x` on the list, and a batch of the step names it. */
  function Entered(t: Tracker, p: Arrival, x: Seq16): nat {
    Once(x in Calculate(t, p).0.listed && x !in ListAfterBatch(t, p))
  }

  function InBatch(t: Tracker, p: Arrival, x: Seq16): nat {
    Once(BatchNaks(t, p) != [] && x in Requested(BatchNaks(t, p)[0]))
  }

  lemma MissingForward(last: Seq16, sn: Seq16, x: Seq16)
    requires ForwardJump(last, sn)
    ensures Among(Wrap16(last + 1), sn - Wrap16(last + 1), x) ==> 0 < Distance(last, x) < Distance(last, sn)
  {
  }

  lemma MissingAtWrap(last: Seq16, sn: Seq16, x: Seq16, diff: nat)
    requires WrapJump(last, sn) && diff <= 65535 - Wrap16(last + 1)
    ensures Among(65535 - diff, diff + 1, x) ==> 0 < Distance(last, x) < Distance(last, sn)
    ensures 1 < sn && Among(1, sn - 1, x) ==> 0 < Distance(last, x) < Distance(last, sn)
  {
  }

  lemma ListGapHas(s: seq<Seq16>, last: Seq16, sn: Seq16, x: Seq16)
    requires Distinct(s) && sn != Wrap16(last + 1)
    ensures x in ListGap(s, last, sn) ==> x in s || 0 < Distance(last, x) < Distance(last, sn)
  {
    hide Lost, Distinct, Among, Distance, ForwardJump, WrapJump;
    var due := Wrap16(last + 1);
    if ForwardJump(last, sn) {
      MissingForward(last, sn, x);
      if 1 < sn - due <= MAX_RESEND_COUNT {
        LostHas(s, due, sn - due, x);
      }
    } else if WrapJump(last, sn) {
      var diff1 := if 65535 - due > MAX_RESEND_COUNT then MAX_RESEND_COUNT else 65535 - due;
      MissingAtWrap(last, sn, x, diff1);
      LostHas(s, 65535 - diff1, diff1 + 1, x);
      if sn > 1 {
        LostHas(Lost(s, 65535 - diff1, diff1 + 1), 1, sn - 1, x);
      }
    }
  }

  lemma ForwardGap(last: Seq16, sn: Seq16, x: Seq16)
    ensures var n := Distance(last, sn) - 1;
            (ForwardJump(last, sn) && 1 < sn - Wrap16(last + 1) <= 5 <==> Wrap16(last + 1) < sn && 2 <= n <= 5)
    ensures ForwardJump(last, sn) ==>
      (Among(Wrap16(last + 1), sn - Wrap16(last + 1), x) <==> 0 < Distance(last, x) < Distance(last, sn))
  {
  }

  lemma WrapGap(last: Seq16, sn: Seq16, x: Seq16, diff: nat)
    requires diff == if 65535 - Wrap16(last + 1) > 5 then 5 else 65535 - Wrap16(last + 1)
    ensures Among(65535 - diff, diff + 1, x) <==> x >= 65530 && x >= Wrap16(last + 1)
    ensures 1 < sn ==> (Among(1, sn - 1, x) <==> 0 < x < sn)
    ensures WrapJump(last, sn) ==> !ForwardJump(last, sn) && Wrap16(last + 1) > sn
  {
  }

  /** With room on the list: exactly what a packet of type 2 puts on it. A gap of two to five packets gets on
      it as a whole; of a gap across the wrap what is behind 65529 does, and what is ahead of 0 if that is
      less than five packets; else the whole list is dropped. */
  lemma ListGapExactly(s: seq<Seq16>, last: Seq16, sn: Seq16, x: Seq16)
    requires Distinct(s) && |s| < 9
    ensures var n := Distance(last, sn) - 1;
            x in ListGap(s, last, sn) <==>
              if Wrap16(last + 1) < sn && 2 <= n <= 5 then x in s || 0 < Distance(last, x) < Distance(last, sn)
              else if WrapJump(last, sn) then
                sn <= 5 && (x in s || (x >= 65530 && x >= Wrap16(last + 1)) || 0 < x < sn)
              else x in s
  {
    hide Lost, Distinct, Among, Distance, ForwardJump, WrapJump, Wrap16;
    var due := Wrap16(last + 1);
    var diff1 := if 65535 - due > MAX_RESEND_COUNT then MAX_RESEND_COUNT else 65535 - due;
    ForwardGap(last, sn, x);
    WrapGap(last, sn, x, diff1);
    if ForwardJump(last, sn) {
      if 1 < sn - due <= MAX_RESEND_COUNT {
        LostTakesAll(s, due, sn - due, x);
      }
    } else if WrapJump(last, sn) && sn <= 5 {
      LostTakesAll(s, 65535 - diff1, diff1 + 1, x);
      LostHas(s, 65535 - diff1, diff1 + 1, x);
      LostShort(s, 65535 - diff1, diff1 + 1);
      if sn > 1 {
        LostTakesAll(Lost(s, 65535 - diff1, diff1 + 1), 1, sn - 1, x);
      }
    }
  }

  lemma LostShort(s: seq<Seq16>, start: Seq16, n: nat)
    ensures |Lost(s, start, n)| <= |s| + n
  {
    AddAllLength(s, start, n);
    SortedLength(AddAll(s, start, n));
  }

  lemma BatchHas(t: Tracker, p: Arrival, x: Seq16)
    requires Valid(t)
    ensures var r := Batch(t, p);
            && (x in r.0.listed ==> x in t.listed)
            && (r.1 != [] && x in Requested(r.1[0]) ==> x in t.listed && x !in r.0.listed && x != p.sn)
            && (p.nak >= 2 ==> p.sn !in r.0.listed)
  {
    hide Send, Distinct, Requested;
    assert Distinct(t.listed);
    var left := Without(t.listed, p.sn);
    WithoutHas(t.listed, p.sn, x);
    WithoutHas(t.listed, p.sn, p.sn);
    BatchFromList(left, Wrap16(t.lastPacketSeq), x);
    BatchFromList(left, Wrap16(t.lastPacketSeq), p.sn);
  }

  lemma AdvanceLists(t: Tracker, p: Arrival, x: Seq16)
    requires Valid(t)
    ensures var last := t.lastPacketSeq;
            x in Advance(t, p).0.listed ==>
              || x in t.listed
              || (p.nak >= 2 && last >= 0 && !Reentered(last, p.sn) && 0 < Distance(last, x) < Distance(last, p.sn))
  {
    hide ListGap, HoldOrRequest, MissCount, Distance, ForwardJump, WrapJump, Distinct;
    var last := t.lastPacketSeq;
    if last != -1 && p.sn != Wrap16(last + 1) && !Reentered(last, p.sn) {
      HoldLeavesList(Moved(t, p), Wrap16(last + 1), p.sn, MissCount(last, p.sn));
      MissBounded(last, p.sn);
      ListGapHas(t.listed, last, p.sn, x);
    }
  }

  lemma MissBounded(last: Seq16, sn: Seq16)
    ensures MissCount(last, sn) <= MAX_RESEND_COUNT
  {
  }

  /** Only what lies between the last packet seen and this one gets on the list, and only by a packet of
      type 2; what a batch names was on the list, is not this packet, and is taken off. */
  lemma StepLists(t: Tracker, p: Arrival, x: Seq16)
    requires Valid(t)
    ensures Entered(t, p, x) == 1 ==>
      p.nak >= 2 && Judged(t, p) && 0 < Distance(t.lastPacketSeq, x) < Distance(t.lastPacketSeq, p.sn)
    ensures InBatch(t, p, x) == 1 ==> p.nak >= 2 && x in t.listed && x != p.sn && x !in ListAfterBatch(t, p)
    ensures Once(x in Calculate(t, p).0.listed) + InBatch(t, p, x) <= Once(x in t.listed) + Entered(t, p, x)
  {
    hide LookAtHeld, Batch, Advance, Valid, Distance, Requested, Reentered;
    JudgedMeans(t, p);
    var looked := LookAtHeld(t, p);
    LookLeaves(t, p);
    if !Ignored(p) && !looked.done {
      BatchHas(looked.t, p, x);
      BatchLeaves(looked.t, p);
      ShortBatch(looked.t, p);
      AdvanceLists(Batch(looked.t, p).0, p, x);
    }
  }

  lemma ShortBatch(t: Tracker, p: Arrival)
    ensures p.nak < 2 ==> Batch(t, p) == (t, [])
  {
  }

  lemma HoldLeavesList(t: Tracker, due: Seq16, sn: Seq16, n: nat)
    ensures 0 < n <= MAX_RESEND_COUNT ==> HoldOrRequest(t, due, sn, n).0.listed == t.listed
  {
  }

  function TimesEntered(t: Tracker, hs: seq<Heard>, x: Seq16): nat {
    if hs == [] then 0
    else
      var h := hs[|hs| - 1];
      TimesEntered(t, hs[..|hs| - 1], x) + if h.Came? then Entered(After(t, hs[..|hs| - 1]), h.p, x) else 0
  }

  function TimesInBatch(t: Tracker, hs: seq<Heard>, x: Seq16): nat {
    if hs == [] then 0
    else
      var h := hs[|hs| - 1];
      TimesInBatch(t, hs[..|hs| - 1], x) + if h.Came? then InBatch(After(t, hs[..|hs| - 1]), h.p, x) else 0
  }

  /** Over every run a number is requested in a batch at most once for each time it was found missing and
      put on the list. */
  lemma {:induction false} BatchesConserved(serverMode: bool, hs: seq<Heard>, x: Seq16)
    ensures var t := Fresh(serverMode);
            TimesInBatch(t, hs, x) + Once(x in After(t, hs).listed) <= TimesEntered(t, hs, x)
  {
    hide Calculate, Entered, InBatch, Valid;
    var t := Fresh(serverMode);
    if hs != [] {
      var before, h := hs[..|hs| - 1], hs[|hs| - 1];
      BatchesConserved(serverMode, before, x);
      NothingHeld(serverMode, x);
      RunKeepsValid(t, before);
      if h.Came? {
        StepLists(After(t, before), h.p, x);
      }
    }
  }

  // ---- When a held gap is settled ----

  /** In server mode the very next packet that allows requests settles the held gap: it fills it, or
      the gap is requested in that step. */
  lemma ServerSettlesNext(t: Tracker, p: Arrival)
    requires Valid(t) && t.serverMode && t.lastExpectSeq >= 0 && p.nak >= 1 && !Ignored(p)
    ensures Filled(t, p, t.lastExpectSeq) + Asked(LookAtHeld(t, p).naks, t.lastExpectSeq) == 1
    ensures LookAtHeld(t, p).naks <= Calculate(t, p).1
  {
    hide Batch, Advance;
    AskedOne(t.lastExpectSeq, t.lastExpectSeq);
    AskedNone(t.lastExpectSeq);
  }

  /** Packets that allow requests and are not one of the held gaps: each is one more look. */
  predicate IsLook(t: Tracker, p: Arrival) {
    p.nak >= 1 && !Ignored(p) && p.sn != t.lastExpect1.sn && p.sn != t.lastExpect2.sn
  }

  /** In client mode the first slot is settled by its second look at the latest. */
  lemma ClientSettlesFirst(t: Tracker, p: Arrival)
    requires Valid(t) && !t.serverMode && t.lastExpect1.sn >= 0 && IsLook(t, p)
    ensures if t.lastExpect1.count == 1 then LookAtHeld(t, p).naks == RequestHeld(t.lastExpect1.sn)
            else Calculate(t, p).0.lastExpect1 == Expect(t.lastExpect1.sn, 1)
  {
    hide Batch, ListGap;
    BatchLeaves(LookAtHeld(t, p).t, p);
  }

  /** How many more looks the second slot takes at most: a look that settles the first slot is no look at
      the second. */
  function LooksLeft(t: Tracker): nat {
    var first := t.lastExpect1.sn != -1 && t.lastExpect1.count >= 1;
    if t.lastExpect2.count == 0 then (if first then 4 else 3) else if first then 2 else 1
  }

  /** The second slot holds the same gap as before, which the step has neither filled nor requested. */
  predicate SecondWaits(t: Tracker, p: Arrival)
    requires 0 <= t.lastExpect2.sn < 65536
  {
    var next := Calculate(t, p).0;
    && next.lastExpect2.sn == t.lastExpect2.sn
    && Filled(t, p, t.lastExpect2.sn) == 0 && Asked(OwnNaks(t, p), t.lastExpect2.sn) == 0
  }

  lemma SecondSlotStep(t: Tracker, p: Arrival)
    requires Valid(t) && !t.serverMode && t.lastExpect2.sn >= 0 && SecondWaits(t, p)
    ensures LooksLeft(Calculate(t, p).0) + Once(IsLook(t, p)) <= LooksLeft(t)
  {
    hide Batch, ListGap, Reentered, ForwardJump, WrapJump, MissCount, Asked;
    var x, looked := t.lastExpect2.sn, LookAtHeld(t, p);
    LookLeaves(t, p);
    AskedOne(x, x);
    if !Ignored(p) && !looked.done {
      BatchLeaves(looked.t, p);
      AskedConcat(looked.naks, Advance(Batch(looked.t, p).0, p).1, x);
    }
  }

  function Looks(t: Tracker, hs: seq<Heard>): nat {
    if hs == [] then 0
    else
      var h := hs[|hs| - 1];
      Looks(t, hs[..|hs| - 1]) + if h.Came? then Once(IsLook(After(t, hs[..|hs| - 1]), h.p)) else 0
  }

  /** Through the whole run the second slot waits with the gap it held at first. */
  ghost predicate SecondWaitsThrough(t: Tracker, hs: seq<Heard>) {
    forall i :: 0 <= i < |hs| && hs[i].Came? ==>
      0 <= After(t, hs[..i]).lastExpect2.sn < 65536 && SecondWaits(After(t, hs[..i]), hs[i].p)
  }

  lemma {:induction false} SecondSlotRun(t: Tracker, hs: seq<Heard>)
    requires Valid(t) && !t.serverMode && t.lastExpect2.sn >= 0 && SecondWaitsThrough(t, hs)
    ensures After(t, hs).lastExpect2.sn == t.lastExpect2.sn && LooksLeft(After(t, hs)) + Looks(t, hs) <= LooksLeft(t)
  {
    hide Calculate, IsLook, LooksLeft, Valid, Filled, OwnNaks, Asked;
    if hs != [] {
      var before, h := hs[..|hs| - 1], hs[|hs| - 1];
      forall i | 0 <= i < |before| && before[i].Came?
        ensures 0 <= After(t, before[..i]).lastExpect2.sn < 65536 && SecondWaits(After(t, before[..i]), before[i].p)
      {
        assert before[..i] == hs[..i] && before[i] == hs[i];
      }
      SecondSlotRun(t, before);
      RunKeepsValid(t, before);
      assert hs[..|before|] == before;
      if h.Came? {
        SecondSlotStep(After(t, before), h.p);
      } else {
        RestartLooks(After(t, before));
      }
    }
  }

  lemma RestartLooks(t: Tracker)
    ensures LooksLeft(t.(lastPacketSeq := -1)) == LooksLeft(t)
  {
  }

  /** So the second slot is settled, by its packet or a request, within four looks. */
  lemma ClientSettlesSecond(t: Tracker, hs: seq<Heard>)
    requires Valid(t) && !t.serverMode && t.lastExpect2.sn >= 0 && SecondWaitsThrough(t, hs)
    ensures Looks(t, hs) <= 3
  {
    SecondSlotRun(t, hs);
  }
}
