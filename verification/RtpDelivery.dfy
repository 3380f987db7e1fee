/** The sender's packets and the receiver together: one frame among any other traffic, and a whole
    stream delivered exactly once and in order across the wrap of the packet numbers. */
module RtpDelivery {
  import opened Integers
  import opened RtpReceive
  import opened RtpStream

  // ---- One frame among other traffic ----

  /** A packet of the frame in question, or any packet of another frame. */
  datatype Item =
    | Mine(i: Seq16, mineTime: U32, mineBuffer: seq<Byte>)
    | Other(head: Head, data: seq<Byte>, otherTime: U32, otherBuffer: seq<Byte>)

  predicate ItemOk(p: Plan, x: Item)
    requires Sendable(p)
  {
    match x
    case Mine(i, _, buffer) => i < Units(p) && |p.payload| < |buffer|
    case Other(h, _, _, _) => h.timestamp != p.timestamp
  }

  function PushItem(r: Receiver, p: Plan, first: Seq16, x: Item): Receiver
    requires Sendable(p) && ItemOk(p, x)
  {
    match x
    case Mine(i, now, buffer) => Push(r, false, SentHead(p, first, i), SentData(p, i), now, buffer)
    case Other(h, data, now, buffer) => Push(r, false, h, data, now, buffer)
  }

  function PushItems(r: Receiver, p: Plan, first: Seq16, xs: seq<Item>): Receiver
    requires Sendable(p) && forall x :: x in xs ==> ItemOk(p, x)
  {
    if xs == [] then r else PushItem(PushItems(r, p, first, xs[..|xs| - 1]), p, first, xs[|xs| - 1])
  }

  /** The indices of the frame's packets among the items. */
  function Indices(xs: seq<Item>): set<nat> {
    if xs == [] then {}
    else Indices(xs[..|xs| - 1]) + if xs[|xs| - 1].Mine? then {xs[|xs| - 1].i as nat} else {}
  }

  function ProperAmong(p: Plan, got: set<nat>): set<nat>
    requires p.unit > 0
  {
    set x | x in got && Proper(p, x)
  }

  lemma PushMine(r: Receiver, p: Plan, first: Seq16, i: Seq16, now: U32, buffer: seq<Byte>, got: set<nat>)
    requires Sendable(p) && i < Units(p) && |p.payload| < |buffer|
    requires !Stale(p.timestamp, r.lastTimestamp)
    requires p.timestamp in r.frames ==> Matches(p, first, r.frames[p.timestamp], got)
    requires p.timestamp !in r.frames ==> got == {}
    ensures var next := Push(r, false, SentHead(p, first, i), SentData(p, i), now, buffer);
            && next.frames.Keys == r.frames.Keys + {p.timestamp}
            && Matches(p, first, next.frames[p.timestamp], Accepted(p, got, i))
            && (forall ts :: ts in r.frames && ts != p.timestamp ==> next.frames[ts] == r.frames[ts])
            && next == (if p.timestamp > 0 && r.lastTimestamp == 0
                        then r.(frames := next.frames, lastTimestamp := Wrap32(p.timestamp - 1), waitSeq := first)
                        else r.(frames := next.frames))
  {
    hide Matches, Accepted, Fill, FreshFrame;
    var h := SentHead(p, first, i);
    var f := if p.timestamp in r.frames then r.frames[p.timestamp] else FreshFrame(r, false, h, now, buffer);
    if p.timestamp !in r.frames {
      FreshMatches(r, p, first, i, now, buffer);
    }
    MatchesHead(p, first, f, got);
    FillMatches(p, first, f, got, i);
  }

  lemma MatchesHead(p: Plan, first: Seq16, f: Frame, got: set<nat>)
    requires Sendable(p) && Matches(p, first, f, got)
    ensures f.head.timestamp == p.timestamp && f.head.dataType == p.dataType && f.firstSeq == first
    ensures f.number == Units(p)
  {
  }

  /** Pushing the packets of a frame in any order, repeated and mixed with other frames, fills exactly
      the places of the packets that have come, beside those filled before. */
  lemma {:induction false} ReassemblyStep(r: Receiver, p: Plan, first: Seq16, xs: seq<Item>, before: set<nat>)
    requires Sendable(p) && forall x :: x in xs ==> ItemOk(p, x)
    requires r.lastTimestamp > 0 && !Stale(p.timestamp, r.lastTimestamp)
    requires if p.timestamp in r.frames then Matches(p, first, r.frames[p.timestamp], before) else before == {}
    ensures var next := PushItems(r, p, first, xs);
            && next.lastTimestamp == r.lastTimestamp
            && (p.timestamp in next.frames <==> p.timestamp in r.frames || Indices(xs) != {})
            && (p.timestamp in next.frames ==>
                  Matches(p, first, next.frames[p.timestamp], before + ProperAmong(p, Indices(xs))))
  {
    hide Matches, Proper;
    if xs == [] {
      assert before + ProperAmong(p, {}) == before;
    } else {
      var earlier, x := xs[..|xs| - 1], xs[|xs| - 1];
      assert x in xs;
      ReassemblyStep(r, p, first, earlier, before);
      var mid := PushItems(r, p, first, earlier);
      var got := before + ProperAmong(p, Indices(earlier));
      match x
      case Mine(i, now, buffer) =>
        PushMine(mid, p, first, i, now, buffer, got);
        assert Accepted(p, got, i) == before + ProperAmong(p, Indices(xs));
      case Other(h, data, now, buffer) =>
        assert Indices(xs) == Indices(earlier);
    }
  }

  lemma CompleteExactly(p: Plan, got: set<nat>)
    requires Sendable(p)
    ensures Complete(p, ProperAmong(p, got)) <==> |p.payload| % p.unit != 0 && Complete(p, got)
  {
    hide UnitCount;
    DivideUp(|p.payload|, p.unit);
    var last := Units(p) - 1;
    var proper := ProperAmong(p, got);
    if Complete(p, proper) {
      assert last in proper;
      forall x: nat | x < Units(p) ensures x in got {
        assert x in proper;
      }
    } else if |p.payload| % p.unit != 0 {
      var x: nat :| x < Units(p) && x !in proper;
      assert x !in got;
    }
  }

  /** The frame is whole exactly when every one of its packets has come and its length is not a
      multiple of the unit; then it holds the payload. */
  lemma Reassembly(r: Receiver, p: Plan, first: Seq16, xs: seq<Item>)
    requires Sendable(p) && forall x :: x in xs ==> ItemOk(p, x)
    requires r.lastTimestamp > 0 && !Stale(p.timestamp, r.lastTimestamp) && p.timestamp !in r.frames
    ensures var frames := PushItems(r, p, first, xs).frames;
            var whole := p.timestamp in frames && IsWhole(frames[p.timestamp]);
            && (whole <==> |p.payload| % p.unit != 0 && Complete(p, Indices(xs)))
            && (whole ==> Holds(frames[p.timestamp], p.payload))
  {
    hide Matches, IsWhole, Push, UnitCount, Complete, Proper;
    ReassemblyStep(r, p, first, xs, {});
    CompleteExactly(p, Indices(xs));
    var frames, got := PushItems(r, p, first, xs).frames, ProperAmong(p, Indices(xs));
    assert {} + got == got;
    if p.timestamp in frames {
      FrameWhole(p, first, frames[p.timestamp], got);
    } else {
      NothingComplete(p, Indices(xs));
    }
  }

  lemma FrameWhole(p: Plan, first: Seq16, f: Frame, got: set<nat>)
    requires Sendable(p) && Matches(p, first, f, got)
    ensures (IsWhole(f) <==> Complete(p, got)) && (IsWhole(f) ==> Holds(f, p.payload))
  {
    hide Matches, IsWhole, Complete, Holds;
    WholeExactly(p, first, f, got);
    if IsWhole(f) {
      WholePayload(p, first, f, got);
    }
  }

  /** A receiver that has seen nothing yet takes the frame of the first packet that comes as the first
      one; for that frame the same holds. */
  lemma FirstReassembly(p: Plan, first: Seq16, i: Seq16, now: U32, buffer: seq<Byte>, xs: seq<Item>)
    requires Sendable(p) && p.timestamp > 1 && ItemOk(p, Mine(i, now, buffer)) && forall x :: x in xs ==> ItemOk(p, x)
    ensures var start := Push(INITIAL, false, SentHead(p, first, i), SentData(p, i), now, buffer);
            var frames := PushItems(start, p, first, xs).frames;
            && p.timestamp in frames
            && (IsWhole(frames[p.timestamp]) <==>
                  |p.payload| % p.unit != 0 && Complete(p, Indices(xs) + {i as nat}))
            && (IsWhole(frames[p.timestamp]) ==> Holds(frames[p.timestamp], p.payload))
  {
    hide Matches, IsWhole, Push, UnitCount, Complete, Proper, PushItems, Indices;
    PushMine(INITIAL, p, first, i, now, buffer, {});
    var start := Push(INITIAL, false, SentHead(p, first, i), SentData(p, i), now, buffer);
    assert start.lastTimestamp == p.timestamp - 1;
    ReassemblyStep(start, p, first, xs, Accepted(p, {}, i));
    var all := Indices(xs) + {i as nat};
    assert Accepted(p, {}, i) + ProperAmong(p, Indices(xs)) == ProperAmong(p, all);
    CompleteExactly(p, all);
    FrameWhole(p, first, PushItems(start, p, first, xs).frames[p.timestamp], ProperAmong(p, all));
  }

  /** But if the first packet belongs to a frame ahead by less than 2^16, the frame is never begun. */
  lemma StrangerFirst(p: Plan, first: Seq16, h: Head, data: seq<Byte>, now: U32, buffer: seq<Byte>, xs: seq<Item>)
    requires Sendable(p) && h.index < SOTP_RTP_MAX_PACKETS_PER_FRAME && forall x :: x in xs ==> ItemOk(p, x)
    requires 0 < p.timestamp && p.timestamp + 1 < h.timestamp < p.timestamp + 0x10000
    ensures p.timestamp !in PushItems(Push(INITIAL, false, h, data, now, buffer), p, first, xs).frames
  {
    FirstPushed(h, data, now, buffer);
    hide Push, PushItems;
    var start := Push(INITIAL, false, h, data, now, buffer);
    StaleNeverBegun(start, p, first, xs);
  }

  lemma FirstPushed(h: Head, data: seq<Byte>, now: U32, buffer: seq<Byte>)
    requires h.index < SOTP_RTP_MAX_PACKETS_PER_FRAME && h.timestamp > 1
    ensures var start := Push(INITIAL, false, h, data, now, buffer);
            start.lastTimestamp == h.timestamp - 1 && start.frames.Keys == {h.timestamp}
  {
    hide FreshFrame, Fill;
    FreshFrameHead(INITIAL, false, h, now, buffer);
  }

  lemma {:induction false} StaleNeverBegun(r: Receiver, p: Plan, first: Seq16, xs: seq<Item>)
    requires Sendable(p) && forall x :: x in xs ==> ItemOk(p, x)
    requires r.lastTimestamp > 0 && Stale(p.timestamp, r.lastTimestamp) && p.timestamp !in r.frames
    ensures var next := PushItems(r, p, first, xs);
            p.timestamp !in next.frames && next.lastTimestamp == r.lastTimestamp
  {
    hide FreshFrame, Fill, SentData;
    if xs != [] {
      StaleNeverBegun(r, p, first, xs[..|xs| - 1]);
      assert xs[|xs| - 1] in xs;
    }
  }

  lemma NothingComplete(p: Plan, got: set<nat>)
    requires Sendable(p) && got == {}
    ensures !Complete(p, got)
  {
    hide UnitCount;
    DivideUp(|p.payload|, p.unit);
    var first: nat := 0;
    assert first < Units(p) && first !in got;
  }
}
