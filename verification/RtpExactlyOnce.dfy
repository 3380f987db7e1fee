/** A whole stream of frames sent to one receiver that sees a packet of the first frame first. Every
    frame is delivered exactly once, in the order of sending and with no loss reported, if and only if
    nothing harmful happens: no packet of a frame that is out comes again as if it were new, no frame
    is taken for an earlier one with the same 16-bit number, and none expires. */
module RtpExactlyOnce {
  import opened Integers
  import opened RtpReceive
  import opened RtpStream
  import opened RtpDelivery

  /** A stream whose frames the receiver can complete, in the order of their timestamps. */
  ghost predicate StreamOk(ps: seq<Plan>) {
    && (forall k :: 0 <= k < |ps| ==> Sendable(ps[k]) && ps[k].timestamp > 1 && |ps[k].payload| % ps[k].unit != 0)
    && (forall j, k :: 0 <= j < k < |ps| ==> ps[j].timestamp < ps[k].timestamp)
  }

  /** The number of packets sent before frame `k`. */
  ghost function Offset(ps: seq<Plan>, k: nat): nat
    requires StreamOk(ps) && k <= |ps|
  {
    if k == 0 then 0 else Offset(ps, k - 1) + Units(ps[k - 1])
  }

  /** The 16-bit number of the first packet of frame `k`, when `start` is that of the stream. */
  ghost function First(ps: seq<Plan>, start: Seq16, k: nat): Seq16
    requires StreamOk(ps) && k <= |ps|
  {
    Wrap16(start + Offset(ps, k))
  }

  /** Packet `i` of frame `k` arrives, or the receiver makes one pass over its frames. */
  datatype Happening =
    | Arrive(k: nat, i: Seq16, arriveTime: U32, buffer: seq<Byte>)
    | Look(lookTime: U32)

  /** Which packets of frame `k` have arrived. */
  ghost function Got(hs: seq<Happening>, k: nat): set<nat> {
    if hs == [] then {}
    else
      var h := hs[|hs| - 1];
      Got(hs[..|hs| - 1], k) + if h.Arrive? && h.k == k then {h.i as nat} else {}
  }

  ghost predicate InStream(ps: seq<Plan>, h: Happening)
    requires StreamOk(ps)
  {
    h.Arrive? ==> h.k < |ps| && h.i < Units(ps[h.k]) && |ps[h.k].payload| < |h.buffer|
  }

  ghost function ToEvent(ps: seq<Plan>, start: Seq16, h: Happening): Event
    requires StreamOk(ps) && InStream(ps, h)
  {
    match h
    case Arrive(k, i, now, buffer) => Packet(SentHead(ps[k], First(ps, start, k), i), SentData(ps[k], i), now, buffer)
    case Look(now) => Poll(now)
  }

  ghost function Running(ps: seq<Plan>, start: Seq16, hs: seq<Happening>): Run
    requires StreamOk(ps) && forall h :: h in hs ==> InStream(ps, h)
  {
    if hs == [] then Run(INITIAL, [])
    else Step(Running(ps, start, hs[..|hs| - 1]), false, ToEvent(ps, start, hs[|hs| - 1]))
  }

  /** Packets of the stream and passes; the first packet to arrive belongs to the first frame. */
  ghost predicate StreamRun(ps: seq<Plan>, hs: seq<Happening>)
    requires StreamOk(ps)
  {
    hs == [] || (
      var before, h := hs[..|hs| - 1], hs[|hs| - 1];
      && (forall g :: g in hs ==> InStream(ps, g))
      && StreamRun(ps, before)
      && (h.Arrive? && Got(before, 0) == {} ==> h.k == 0))
  }

  // ---- What does harm ----

  /** With `d` frames out, a later frame with the same first number as frame `d` is complete and nothing
      of frame `d` or of those between the two has come: it has overtaken 65536 packets. */
  ghost predicate Overtaken(ps: seq<Plan>, start: Seq16, hs: seq<Happening>, d: nat)
    requires StreamOk(ps) && d <= |ps|
  {
    exists k :: d < k < |ps| && OvertakenBy(ps, start, hs, d, k)
  }

  ghost predicate OvertakenBy(ps: seq<Plan>, start: Seq16, hs: seq<Happening>, d: nat, k: nat)
    requires StreamOk(ps) && d < k < |ps|
  {
    First(ps, start, k) == First(ps, start, d) && Complete(ps[k], Got(hs, k)) && forall j :: d <= j < k ==> Got(hs, j) == {}
  }

  /** A packet of a frame that is out does no harm if the receiver takes it for late. A pass does none if
      frame `d`, the next one, is complete, or if it is not overtaken and the first frame in the
      receiver has not expired. */
  ghost predicate Harmless(ps: seq<Plan>, start: Seq16, hs: seq<Happening>, h: Happening)
    requires StreamOk(ps) && InStream(ps, h) && forall g :: g in hs ==> InStream(ps, g)
  {
    var run := Running(ps, start, hs);
    var d := |run.trace|;
    match h
    case Arrive(k, _, _, _) => k < d ==> Stale(ps[k].timestamp, run.r.lastTimestamp)
    case Look(now) => d < |ps| && run.r.frames != map[] ==>
      || Complete(ps[d], Got(hs, d))
      || (!Overtaken(ps, start, hs, d) && now <= run.r.frames[FirstKey(run.r.frames)].expireTime)
  }

  ghost predicate HarmlessRun(ps: seq<Plan>, start: Seq16, hs: seq<Happening>)
    requires StreamOk(ps) && StreamRun(ps, hs)
  {
    hs == [] || (
      && HarmlessRun(ps, start, hs[..|hs| - 1])
      && Harmless(ps, start, hs[..|hs| - 1], hs[|hs| - 1]))
  }

  // ---- The invariant ----

  /** The release of a frame as the sender would have it. */
  ghost predicate DeliveredAs(x: Released, p: Plan) {
    && x.way == InSequence && x.delivered && x.lost == 0
    && x.frame.head.timestamp == p.timestamp && IsWhole(x.frame) && Holds(x.frame, p.payload)
  }

  /** The timestamp the receiver takes as the last released once `d` frames are out. */
  ghost function LastReleased(ps: seq<Plan>, d: nat): int
    requires d <= |ps| && |ps| > 0
  {
    if d == 0 then ps[0].timestamp - 1 else ps[d - 1].timestamp
  }

  /** The frames in the receiver are those that have begun to arrive and are not out yet. */
  ghost predicate FramesMatch(ps: seq<Plan>, start: Seq16, hs: seq<Happening>, d: nat, frames: map<U32, Frame>)
    requires StreamOk(ps)
  {
    && (forall ts :: ts in frames ==> exists k :: d <= k < |ps| && ps[k].timestamp == ts && Got(hs, k) != {})
    && (forall k :: d <= k < |ps| && Got(hs, k) != {} ==>
          ps[k].timestamp in frames && Matches(ps[k], First(ps, start, k), frames[ps[k].timestamp], Got(hs, k)))
  }

  ghost predicate GotInRange(ps: seq<Plan>, hs: seq<Happening>)
    requires StreamOk(ps)
  {
    && (forall k :: k >= |ps| ==> Got(hs, k) == {})
    && (forall k, x :: 0 <= k < |ps| && x in Got(hs, k) ==> x < Units(ps[k]))
    && (Got(hs, 0) == {} ==> forall k: nat :: Got(hs, k) == {})
  }

  ghost predicate Inv(ps: seq<Plan>, start: Seq16, hs: seq<Happening>, run: Run)
    requires StreamOk(ps)
  {
    var d := |run.trace|;
    && GotInRange(ps, hs)
    && (Got(hs, 0) == {} ==> run == Run(INITIAL, []))
    && (Got(hs, 0) != {} ==>
          && d <= |ps| && |ps| > 0
          && (forall k :: 0 <= k < d ==> DeliveredAs(run.trace[k], ps[k]) && Complete(ps[k], Got(hs, k)))
          && run.r.lost == 0 && !run.r.waitKey
          && run.r.lastTimestamp == LastReleased(ps, d) && run.r.waitSeq == First(ps, start, d)
          && FramesMatch(ps, start, hs, d, run.r.frames))
  }

  lemma ProperOfStream(ps: seq<Plan>, k: nat, i: nat)
    requires StreamOk(ps) && k < |ps|
    ensures Proper(ps[k], i) <==> i < Units(ps[k])
  {
  }

  lemma GotAfter(hs: seq<Happening>, h: Happening, k: nat)
    ensures Got(hs + [h], k) == Got(hs, k) + if h.Arrive? && h.k == k then {h.i as nat} else {}
  {
    assert (hs + [h])[..|hs|] == hs;
  }

  // ---- A packet arrives ----

  lemma ArrivalKeepsGot(ps: seq<Plan>, hs: seq<Happening>, h: Happening)
    requires StreamOk(ps) && InStream(ps, h)
    requires GotInRange(ps, hs) && h.Arrive? && (Got(hs, 0) == {} ==> h.k == 0)
    ensures GotInRange(ps, hs + [h])
  {
    hide UnitCount;
    var all := hs + [h];
    forall k: nat ensures Got(all, k) == Got(hs, k) + if h.k == k then {h.i as nat} else {} {
      GotAfter(hs, h, k);
    }
  }

  lemma ArrivalNotStale(ps: seq<Plan>, d: nat, k: nat)
    requires StreamOk(ps) && d <= k < |ps|
    ensures LastReleased(ps, d) < ps[k].timestamp && LastReleased(ps, d) >= 1
  {
  }

  /** `next` is `frames` with the frame of `p` put in or replaced. */
  ghost predicate Replaces(ts: U32, frames: map<U32, Frame>, next: map<U32, Frame>) {
    next.Keys == frames.Keys + {ts} && forall t :: t in frames && t != ts ==> next[t] == frames[t]
  }

  lemma GotOthers(hs: seq<Happening>, h: Happening)
    requires h.Arrive?
    ensures forall k: nat :: k != h.k ==> Got(hs + [h], k) == Got(hs, k)
    ensures Got(hs + [h], h.k) == Got(hs, h.k) + {h.i as nat}
  {
    forall k: nat ensures Got(hs + [h], k) == Got(hs, k) + if h.k == k then {h.i as nat} else {} {
      GotAfter(hs, h, k);
    }
  }

  lemma ArrivalKeepsKeys(ps: seq<Plan>, start: Seq16, hs: seq<Happening>, h: Happening, d: nat,
                         frames: map<U32, Frame>, next: map<U32, Frame>)
    requires StreamOk(ps) && InStream(ps, h) && h.Arrive? && d <= h.k
    requires FramesMatch(ps, start, hs, d, frames) && Replaces(ps[h.k].timestamp, frames, next)
    ensures forall ts :: ts in next ==> exists k :: d <= k < |ps| && ps[k].timestamp == ts && Got(hs + [h], k) != {}
  {
    hide Matches, First, Got;
    var all := hs + [h];
    GotOthers(hs, h);
    forall ts | ts in next ensures exists k :: d <= k < |ps| && ps[k].timestamp == ts && Got(all, k) != {} {
      if ts == ps[h.k].timestamp {
        assert (h.i as nat) in Got(all, h.k);
      } else {
        var k :| d <= k < |ps| && ps[k].timestamp == ts && Got(hs, k) != {};
        assert Got(all, k) == Got(hs, k);
      }
    }
  }

  lemma ArrivalKeepsMatches(ps: seq<Plan>, start: Seq16, hs: seq<Happening>, h: Happening, d: nat,
                            frames: map<U32, Frame>, next: map<U32, Frame>, k: nat)
    requires StreamOk(ps) && InStream(ps, h) && h.Arrive? && d <= h.k && d <= k < |ps| && Got(hs + [h], k) != {}
    requires FramesMatch(ps, start, hs, d, frames) && Replaces(ps[h.k].timestamp, frames, next)
    requires Matches(ps[h.k], First(ps, start, h.k), next[ps[h.k].timestamp], Got(hs, h.k) + {h.i as nat})
    ensures ps[k].timestamp in next && Matches(ps[k], First(ps, start, k), next[ps[k].timestamp], Got(hs + [h], k))
  {
    hide Matches, First, Got, UnitCount;
    GotOthers(hs, h);
    if k != h.k {
      TimestampsDiffer(ps, k, h.k);
      FrameOf(ps, start, hs, d, frames, k);
    }
  }

  lemma ArrivalKeepsFrames(ps: seq<Plan>, start: Seq16, hs: seq<Happening>, h: Happening, d: nat,
                           frames: map<U32, Frame>, next: map<U32, Frame>)
    requires StreamOk(ps) && InStream(ps, h) && h.Arrive? && d <= h.k
    requires FramesMatch(ps, start, hs, d, frames) && Replaces(ps[h.k].timestamp, frames, next)
    requires Matches(ps[h.k], First(ps, start, h.k), next[ps[h.k].timestamp], Got(hs, h.k) + {h.i as nat})
    ensures FramesMatch(ps, start, hs + [h], d, next)
  {
    hide Matches, First, Got, UnitCount, Sendable;
    ArrivalKeepsKeys(ps, start, hs, h, d, frames, next);
    forall k: nat | d <= k < |ps| && Got(hs + [h], k) != {}
      ensures ps[k].timestamp in next && Matches(ps[k], First(ps, start, k), next[ps[k].timestamp], Got(hs + [h], k))
    {
      ArrivalKeepsMatches(ps, start, hs, h, d, frames, next, k);
    }
  }

  lemma TimestampsDiffer(ps: seq<Plan>, j: nat, k: nat)
    requires StreamOk(ps) && j < |ps| && k < |ps| && j != k
    ensures ps[j].timestamp != ps[k].timestamp
  {
  }

  /** The receiver on one more packet of the stream, which belongs to a frame that is not out yet. */
  lemma ArrivalPushes(ps: seq<Plan>, start: Seq16, hs: seq<Happening>, h: Happening, r: Receiver, d: nat)
    requires StreamOk(ps) && InStream(ps, h) && h.Arrive? && d <= h.k
    requires FramesMatch(ps, start, hs, d, r.frames) && !Stale(ps[h.k].timestamp, r.lastTimestamp)
    ensures var next := Step(Run(r, []), false, ToEvent(ps, start, h)).r;
            && FramesMatch(ps, start, hs + [h], d, next.frames)
            && next == (if r.lastTimestamp == 0
                        then r.(frames := next.frames, lastTimestamp := ps[h.k].timestamp - 1, waitSeq := First(ps, start, h.k))
                        else r.(frames := next.frames))
  {
    hide Matches, First, Push, FramesMatch, UnitCount;
    var p, first, got := ps[h.k], First(ps, start, h.k), Got(hs, h.k);
    var next := Push(r, false, SentHead(p, first, h.i), SentData(p, h.i), h.arriveTime, h.buffer);
    FrameOf(ps, start, hs, d, r.frames, h.k);
    PushMine(r, p, first, h.i, h.arriveTime, h.buffer, got);
    ProperOfStream(ps, h.k, h.i);
    ArrivalKeepsFrames(ps, start, hs, h, d, r.frames, next.frames);
    assert p.timestamp > 1;
  }

  lemma ArriveFirst(ps: seq<Plan>, start: Seq16, hs: seq<Happening>, h: Happening, run: Run)
    requires StreamOk(ps) && InStream(ps, h) && (forall g :: g in hs ==> InStream(ps, g))
    requires Inv(ps, start, hs, run) && Got(hs, 0) == {} && h.Arrive? && h.k == 0
    requires GotInRange(ps, hs + [h])
    ensures Inv(ps, start, hs + [h], Step(run, false, ToEvent(ps, start, h)))
  {
    hide Matches, First, Push, DeliveredAs, FramesMatch, Running, Complete, GotInRange, UnitCount;
    GotOthers(hs, h);
    assert (h.i as nat) in Got(hs + [h], 0);
    assert FramesMatch(ps, start, hs, 0, map[]) by { BeginFrames(ps, start, hs); }
    ArrivalPushes(ps, start, hs, h, run.r, 0);
  }

  lemma ArriveLater(ps: seq<Plan>, start: Seq16, hs: seq<Happening>, h: Happening, run: Run)
    requires StreamOk(ps) && InStream(ps, h) && (forall g :: g in hs ==> InStream(ps, g))
    requires Inv(ps, start, hs, run) && Got(hs, 0) != {} && h.Arrive? && h.k >= |run.trace|
    requires GotInRange(ps, hs + [h])
    ensures Inv(ps, start, hs + [h], Step(run, false, ToEvent(ps, start, h)))
  {
    hide Matches, First, Push, DeliveredAs, FramesMatch, Running, Complete, GotInRange, UnitCount, Got;
    var d := |run.trace|;
    GotOthers(hs, h);
    ArrivalNotStale(ps, d, h.k);
    ArrivalPushes(ps, start, hs, h, run.r, d);
  }

  lemma CompleteHas(p: Plan, got: set<nat>, i: nat)
    requires p.unit > 0 && Complete(p, got) && i < Units(p)
    ensures got + {i} == got
  {
  }

  /** A packet of a frame that is out, taken for late, changes nothing. */
  lemma ArriveStale(ps: seq<Plan>, start: Seq16, hs: seq<Happening>, h: Happening, run: Run)
    requires StreamOk(ps) && InStream(ps, h) && (forall g :: g in hs ==> InStream(ps, g))
    requires Inv(ps, start, hs, run) && Got(hs, 0) != {} && h.Arrive? && h.k < |run.trace|
    requires Stale(ps[h.k].timestamp, run.r.lastTimestamp)
    ensures Inv(ps, start, hs + [h], Step(run, false, ToEvent(ps, start, h)))
  {
    hide Matches, First, DeliveredAs, FramesMatch, Running, Complete, UnitCount, Got, GotInRange;
    var d, all := |run.trace|, hs + [h];
    GotOthers(hs, h);
    CompleteHas(ps[h.k], Got(hs, h.k), h.i);
    assert forall k: nat :: Got(all, k) == Got(hs, k);
    SameGotInRange(ps, hs, all);
    SameGotSameFrames(ps, start, hs, all, d, run.r.frames);
  }

  lemma SameGotInRange(ps: seq<Plan>, hs: seq<Happening>, gs: seq<Happening>)
    requires StreamOk(ps) && GotInRange(ps, hs) && forall k: nat :: Got(gs, k) == Got(hs, k)
    ensures GotInRange(ps, gs)
  {
  }

  lemma ArriveKeepsInv(ps: seq<Plan>, start: Seq16, hs: seq<Happening>, h: Happening, run: Run)
    requires StreamOk(ps) && InStream(ps, h) && (forall g :: g in hs ==> InStream(ps, g))
    requires Inv(ps, start, hs, run) && h.Arrive? && (Got(hs, 0) == {} ==> h.k == 0)
    requires h.k < |run.trace| ==> Stale(ps[h.k].timestamp, run.r.lastTimestamp)
    ensures Inv(ps, start, hs + [h], Step(run, false, ToEvent(ps, start, h)))
  {
    assert GotInRange(ps, hs) && (Got(hs, 0) == {} ==> |run.trace| == 0);
    ArrivalKeepsGot(ps, hs, h);
    hide *;
    if Got(hs, 0) == {} {
      ArriveFirst(ps, start, hs, h, run);
    } else if h.k < |run.trace| {
      ArriveStale(ps, start, hs, h, run);
    } else {
      ArriveLater(ps, start, hs, h, run);
    }
  }

  lemma BeginFrames(ps: seq<Plan>, start: Seq16, hs: seq<Happening>)
    requires StreamOk(ps) && GotInRange(ps, hs) && Got(hs, 0) == {}
    ensures FramesMatch(ps, start, hs, 0, map[])
  {
  }

  /** What `FramesMatch` says of one frame. */
  lemma FrameOf(ps: seq<Plan>, start: Seq16, hs: seq<Happening>, d: nat, frames: map<U32, Frame>, k: nat)
    requires StreamOk(ps) && d <= k < |ps| && FramesMatch(ps, start, hs, d, frames)
    ensures ps[k].timestamp in frames <==> Got(hs, k) != {}
    ensures ps[k].timestamp in frames ==> Matches(ps[k], First(ps, start, k), frames[ps[k].timestamp], Got(hs, k))
  {
    hide Matches, First;
    if ps[k].timestamp in frames {
      var j :| d <= j < |ps| && ps[j].timestamp == ps[k].timestamp && Got(hs, j) != {};
      assert j == k;
    }
  }

  // ---- The receiver looks ----

  lemma BegunIn(ps: seq<Plan>, start: Seq16, hs: seq<Happening>, d: nat, frames: map<U32, Frame>, j: nat)
    requires StreamOk(ps) && FramesMatch(ps, start, hs, d, frames) && d <= j < |ps|
    ensures Got(hs, j) != {} ==> ps[j].timestamp in frames && frames != map[] && FirstKey(frames) <= ps[j].timestamp
  {
    hide Matches, First;
  }

  lemma CompleteNotEmpty(p: Plan, got: set<nat>)
    requires Sendable(p) && Complete(p, got)
    ensures got != {}
  {
    hide Complete, UnitCount;
    if got == {} {
      NothingComplete(p, got);
    }
  }

  /** The first frame in the receiver; nothing of the frames from `d` up to it has arrived. */
  lemma FirstFrame(ps: seq<Plan>, start: Seq16, hs: seq<Happening>, d: nat, frames: map<U32, Frame>) returns (k: nat)
    requires StreamOk(ps) && FramesMatch(ps, start, hs, d, frames) && frames != map[]
    ensures d <= k < |ps| && FirstKey(frames) == ps[k].timestamp && Got(hs, k) != {}
    ensures Matches(ps[k], First(ps, start, k), frames[FirstKey(frames)], Got(hs, k))
    ensures forall j :: d <= j < k ==> Got(hs, j) == {}
  {
    hide Matches, First;
    var ts := FirstKey(frames);
    k :| d <= k < |ps| && ps[k].timestamp == ts && Got(hs, k) != {};
    forall j | d <= j < k ensures Got(hs, j) == {} {
      BegunIn(ps, start, hs, d, frames, j);
    }
  }

  /** A pass on the stream: the first frame leaves in sequence if its first number is the awaited one and
      it is whole, and else by expiry. */
  lemma PassTakes(r: Receiver, now: U32)
    requires r.frames != map[] && !r.waitKey && 0 <= r.waitSeq < 65536
    requires r.frames[FirstKey(r.frames)].head.timestamp > 1
    ensures var f := r.frames[FirstKey(r.frames)];
            var past := Past(r, FirstKey(r.frames), f);
            PollOnce(r, now) ==
              if f.firstSeq == r.waitSeq && IsWhole(f) then Took(past.(lost := 0), Released(InSequence, f, true, r.lost))
              else if f.expireTime >= now then Idle
              else if IsWhole(f) then Took(past.(lost := 0), Released(Expired, f, true, r.lost))
              else Took(past.(lost := Wrap16(r.lost + 1), waitKey := IsVideo(f)), Released(Expired, f, false, 0))
  {
    hide IsWhole;
  }

  lemma OutKeepsFrames(ps: seq<Plan>, start: Seq16, hs: seq<Happening>, d: nat, frames: map<U32, Frame>)
    requires StreamOk(ps) && d < |ps| && FramesMatch(ps, start, hs, d, frames)
    ensures FramesMatch(ps, start, hs, d + 1, frames - {ps[d].timestamp})
  {
    hide Matches, First;
    var rest := frames - {ps[d].timestamp};
    forall ts | ts in rest ensures exists k :: d + 1 <= k < |ps| && ps[k].timestamp == ts && Got(hs, k) != {} {
      var k :| d <= k < |ps| && ps[k].timestamp == ts && Got(hs, k) != {};
      assert k != d;
    }
  }

  lemma FirstAfter(ps: seq<Plan>, start: Seq16, d: nat)
    requires StreamOk(ps) && d < |ps|
    ensures First(ps, start, d + 1) == Wrap16(First(ps, start, d) + Units(ps[d]))
  {
    hide UnitCount;
  }

  lemma LookKeepsGot(ps: seq<Plan>, hs: seq<Happening>, h: Happening)
    requires StreamOk(ps) && h.Look? && GotInRange(ps, hs)
    ensures GotInRange(ps, hs + [h])
    ensures forall k: nat :: Got(hs + [h], k) == Got(hs, k)
  {
    forall k: nat ensures Got(hs + [h], k) == Got(hs, k) {
      GotAfter(hs, h, k);
    }
  }

  lemma SameGotSameFrames(ps: seq<Plan>, start: Seq16, hs: seq<Happening>, gs: seq<Happening>, d: nat, frames: map<U32, Frame>)
    requires StreamOk(ps) && FramesMatch(ps, start, hs, d, frames)
    requires forall k: nat :: Got(gs, k) == Got(hs, k)
    ensures FramesMatch(ps, start, gs, d, frames)
  {
    hide Matches, First;
    forall ts | ts in frames ensures exists k :: d <= k < |ps| && ps[k].timestamp == ts && Got(gs, k) != {} {
      var k :| d <= k < |ps| && ps[k].timestamp == ts && Got(hs, k) != {};
      assert Got(gs, k) != {};
    }
  }

  /** What a pass finds: the first frame, which is frame `d` or comes before anything of frame `d`. */
  lemma WhatLookDoes(ps: seq<Plan>, start: Seq16, hs: seq<Happening>, run: Run, now: U32) returns (k: nat)
    requires StreamOk(ps) && Inv(ps, start, hs, run) && Got(hs, 0) != {} && run.r.frames != map[]
    ensures var d, f := |run.trace|, run.r.frames[FirstKey(run.r.frames)];
            && d <= k < |ps| && FirstKey(run.r.frames) == ps[k].timestamp == f.head.timestamp && Got(hs, k) != {}
            && Matches(ps[k], First(ps, start, k), f, Got(hs, k))
            && (forall j :: d <= j < k ==> Got(hs, j) == {})
            && (IsWhole(f) <==> Complete(ps[k], Got(hs, k)))
            && (var past := Past(run.r, ps[k].timestamp, f);
                PollOnce(run.r, now) ==
                  if First(ps, start, k) == First(ps, start, d) && IsWhole(f) then Took(past, Released(InSequence, f, true, 0))
                  else if f.expireTime >= now then Idle
                  else if IsWhole(f) then Took(past, Released(Expired, f, true, 0))
                  else Took(past.(lost := 1, waitKey := IsVideo(f)), Released(Expired, f, false, 0)))
  {
    hide Matches, First, IsWhole, PollOnce, DeliveredAs, FramesMatch, Complete;
    var d := |run.trace|;
    k := FirstFrame(ps, start, hs, d, run.r.frames);
    MatchesHead(ps[k], First(ps, start, k), run.r.frames[FirstKey(run.r.frames)], Got(hs, k));
    WholeExactly(ps[k], First(ps, start, k), run.r.frames[FirstKey(run.r.frames)], Got(hs, k));
    PassTakes(run.r, now);
  }

  lemma OvertakenIf(ps: seq<Plan>, start: Seq16, hs: seq<Happening>, d: nat, k: nat)
    requires StreamOk(ps) && d < k < |ps|
    ensures OvertakenBy(ps, start, hs, d, k) ==> Overtaken(ps, start, hs, d)
  {
  }

  /** A harmless pass takes out the next frame if that is complete, and nothing otherwise. */
  lemma HarmlessLook(ps: seq<Plan>, start: Seq16, hs: seq<Happening>, run: Run, now: U32)
    requires StreamOk(ps) && Inv(ps, start, hs, run) && Got(hs, 0) != {} && run.r.frames != map[]
    requires var d := |run.trace|;
             && d < |ps|
             && (|| Complete(ps[d], Got(hs, d))
                 || (!Overtaken(ps, start, hs, d) && now <= run.r.frames[FirstKey(run.r.frames)].expireTime))
    ensures var d, f := |run.trace|, run.r.frames[FirstKey(run.r.frames)];
            if Complete(ps[d], Got(hs, d))
            then && FirstKey(run.r.frames) == ps[d].timestamp && Matches(ps[d], First(ps, start, d), f, Got(hs, d)) && IsWhole(f)
                 && PollOnce(run.r, now) == Took(Past(run.r, ps[d].timestamp, f), Released(InSequence, f, true, 0))
            else PollOnce(run.r, now) == Idle
  {
    hide Matches, First, IsWhole, PollOnce, DeliveredAs, FramesMatch, Complete, Past, IsVideo, GotInRange, Inv;
    var d := |run.trace|;
    var k := WhatLookDoes(ps, start, hs, run, now);
    if Complete(ps[d], Got(hs, d)) {
      CompleteNotEmpty(ps[d], Got(hs, d));
    } else if k > d {
      OvertakenIf(ps, start, hs, d, k);
    }
  }

  /** The next frame leaves, complete. */
  lemma TakeKeepsInv(ps: seq<Plan>, start: Seq16, hs: seq<Happening>, h: Happening, run: Run, f: Frame)
    requires StreamOk(ps) && Inv(ps, start, hs, run) && Got(hs, 0) != {} && |run.trace| < |ps|
    requires GotInRange(ps, hs + [h]) && forall k: nat :: Got(hs + [h], k) == Got(hs, k)
    requires var d := |run.trace|;
             Complete(ps[d], Got(hs, d)) && Matches(ps[d], First(ps, start, d), f, Got(hs, d)) && IsWhole(f)
    ensures Inv(ps, start, hs + [h], Run(Past(run.r, ps[|run.trace|].timestamp, f), run.trace + [Released(InSequence, f, true, 0)]))
  {
    hide Matches, First, IsWhole, DeliveredAs, FramesMatch, GotInRange, Complete, Got, UnitCount;
    var d, all := |run.trace|, hs + [h];
    SameGotSameFrames(ps, start, hs, all, d, run.r.frames);
    MatchesHead(ps[d], First(ps, start, d), f, Got(hs, d));
    WholePayload(ps[d], First(ps, start, d), f, Got(hs, d));
    OutKeepsFrames(ps, start, all, d, run.r.frames);
    FirstAfter(ps, start, d);
    IsDelivered(f, ps[d]);
  }

  lemma LookKeepsInv(ps: seq<Plan>, start: Seq16, hs: seq<Happening>, h: Happening, run: Run)
    requires StreamOk(ps) && (forall g :: g in hs ==> InStream(ps, g)) && h.Look?
    requires Inv(ps, start, hs, run)
    requires var d := |run.trace|;
             d < |ps| && run.r.frames != map[] ==>
               || Complete(ps[d], Got(hs, d))
               || (!Overtaken(ps, start, hs, d) && h.lookTime <= run.r.frames[FirstKey(run.r.frames)].expireTime)
    ensures Inv(ps, start, hs + [h], Step(run, false, ToEvent(ps, start, h)))
  {
    hide Matches, First, IsWhole, PollOnce, DeliveredAs, FramesMatch, GotInRange, Complete, Overtaken, Past, Got;
    assert GotInRange(ps, hs);
    LookKeepsGot(ps, hs, h);
    var d, all := |run.trace|, hs + [h];
    if Got(hs, 0) != {} {
      SameGotSameFrames(ps, start, hs, all, d, run.r.frames);
      if run.r.frames != map[] {
        var _ := FirstFrame(ps, start, hs, d, run.r.frames);
        HarmlessLook(ps, start, hs, run, h.lookTime);
        if Complete(ps[d], Got(hs, d)) {
          TakeKeepsInv(ps, start, hs, h, run, run.r.frames[FirstKey(run.r.frames)]);
          hide Inv;
        }
      }
    }
  }

  lemma IsDelivered(f: Frame, p: Plan)
    requires f.head.timestamp == p.timestamp && IsWhole(f) && Holds(f, p.payload)
    ensures DeliveredAs(Released(InSequence, f, true, 0), p)
  {
  }

  // ---- Whole runs ----

  lemma InvAtFirst(ps: seq<Plan>, start: Seq16)
    requires StreamOk(ps)
    ensures Inv(ps, start, [], Run(INITIAL, []))
  {
  }

  /** What a run says of its last happening. */
  lemma LastOf(ps: seq<Plan>, hs: seq<Happening>)
    requires StreamOk(ps) && hs != [] && StreamRun(ps, hs)
    ensures var before, h := hs[..|hs| - 1], hs[|hs| - 1];
            && hs == before + [h] && InStream(ps, h) && StreamRun(ps, before)
            && (forall g :: g in hs ==> InStream(ps, g)) && (forall g :: g in before ==> InStream(ps, g))
            && (h.Arrive? && Got(before, 0) == {} ==> h.k == 0)
  {
    assert hs[|hs| - 1] in hs;
    forall g | g in hs[..|hs| - 1] ensures InStream(ps, g) {
      assert g in hs;
    }
  }

  lemma {:induction false} RunKeepsInv(ps: seq<Plan>, start: Seq16, hs: seq<Happening>)
    requires StreamOk(ps) && StreamRun(ps, hs) && HarmlessRun(ps, start, hs)
    ensures (forall g :: g in hs ==> InStream(ps, g)) && Inv(ps, start, hs, Running(ps, start, hs))
  {
    hide Inv, Step, StreamRun;
    if hs == [] {
      InvAtFirst(ps, start);
    } else {
      var before, h := hs[..|hs| - 1], hs[|hs| - 1];
      LastOf(ps, hs);
      RunKeepsInv(ps, start, before);
      match h
      case Arrive(_, _, _, _) => ArriveKeepsInv(ps, start, before, h, Running(ps, start, before));
      case Look(_) => LookKeepsInv(ps, start, before, h, Running(ps, start, before));
    }
  }

  /** The callbacks so far are the first frames of the stream, each once, in order, complete, with lost
      count 0. */
  ghost predicate InOrder(ps: seq<Plan>, trace: seq<Released>) {
    |trace| <= |ps| && forall k :: 0 <= k < |trace| ==> DeliveredAs(trace[k], ps[k])
  }

  /** No frame is in the receiver again that is out, or behind one that is. */
  ghost predicate NothingBehind(run: Run) {
    run.trace != [] ==> forall ts :: ts in run.r.frames ==> run.trace[|run.trace| - 1].frame.head.timestamp < ts
  }

  ghost predicate Clean(ps: seq<Plan>, run: Run) {
    InOrder(ps, run.trace) && NothingBehind(run)
  }

  lemma InvIsClean(ps: seq<Plan>, start: Seq16, hs: seq<Happening>, run: Run)
    requires StreamOk(ps) && Inv(ps, start, hs, run)
    ensures Clean(ps, run)
  {
    hide Matches, First, IsWhole, Complete, GotInRange;
    var d := |run.trace|;
    if d > 0 {
      forall ts | ts in run.r.frames ensures run.trace[d - 1].frame.head.timestamp < ts {
        var k :| d <= k < |ps| && ps[k].timestamp == ts && Got(hs, k) != {};
        assert ps[d - 1].timestamp < ps[k].timestamp;
      }
    }
  }

  // ---- Harm is never undone ----

  /** Frames are kept under their own timestamps. */
  ghost predicate Keyed(r: Receiver) {
    forall ts :: ts in r.frames ==> r.frames[ts].head.timestamp == ts
  }

  lemma {:induction false} RunKeyed(ps: seq<Plan>, start: Seq16, hs: seq<Happening>)
    requires StreamOk(ps) && forall h :: h in hs ==> InStream(ps, h)
    ensures Keyed(Running(ps, start, hs).r)
  {
    if hs != [] {
      var before, h := hs[..|hs| - 1], hs[|hs| - 1];
      assert h in hs && forall g :: g in before ==> g in hs;
      RunKeyed(ps, start, before);
      StepKeyed(Running(ps, start, before), ToEvent(ps, start, h));
    }
  }

  lemma StepKeyed(run: Run, e: Event)
    requires Keyed(run.r)
    ensures Keyed(Step(run, false, e).r)
  {
    hide IsWhole, FreshFrame, PollOnce;
    match e
    case Packet(h, data, now, buffer) => FreshFrameHead(run.r, false, h, now, buffer);
    case Poll(now) =>
      if run.r.frames != map[] && PollOnce(run.r, now).Took? {
        PassRemoves(run.r, now);
      }
  }

  lemma PushKeepsKeys(r: Receiver, h: Head, data: seq<Byte>, now: U32, buffer: seq<Byte>)
    ensures r.frames.Keys <= Push(r, false, h, data, now, buffer).frames.Keys
  {
    hide FreshFrame, Fill;
  }

  /** A frame behind the last one released leaves first, and out of order. */
  lemma BehindLeavesFirst(ps: seq<Plan>, run: Run, now: U32)
    requires StreamOk(ps) && Keyed(run.r) && InOrder(ps, run.trace) && !NothingBehind(run)
    requires run.r.frames != map[] && PollOnce(run.r, now).Took?
    ensures !InOrder(ps, run.trace + [PollOnce(run.r, now).out])
  {
    hide IsWhole, PollOnce, Holds;
    PassRemoves(run.r, now);
    var n, out := |run.trace|, PollOnce(run.r, now).out;
    var ts :| ts in run.r.frames && ts <= run.trace[n - 1].frame.head.timestamp;
    assert DeliveredAs(run.trace[n - 1], ps[n - 1]);
    assert (run.trace + [out])[n] == out;
    if n < |ps| {
      assert ps[n - 1].timestamp < ps[n].timestamp;
    }
  }

  lemma UncleanStays(ps: seq<Plan>, run: Run, e: Event)
    requires StreamOk(ps) && Keyed(run.r) && !Clean(ps, run)
    ensures !Clean(ps, Step(run, false, e))
  {
    hide DeliveredAs, PollOnce, Push, StreamOk;
    var next := Step(run, false, e);
    if !InOrder(ps, run.trace) {
      assert run.trace <= next.trace;
    } else {
      match e
      case Packet(h, data, now, buffer) => PushKeepsKeys(run.r, h, data, now, buffer);
      case Poll(now) =>
        if run.r.frames != map[] && PollOnce(run.r, now).Took? {
          BehindLeavesFirst(ps, run, now);
        }
    }
  }

  /** A late packet of a frame that is out, not taken for late, puts that frame back. */
  lemma HarmfulArrival(ps: seq<Plan>, start: Seq16, hs: seq<Happening>, h: Happening, run: Run)
    requires StreamOk(ps) && InStream(ps, h) && (forall g :: g in hs ==> InStream(ps, g))
    requires Inv(ps, start, hs, run) && h.Arrive? && h.k < |run.trace| && !Stale(ps[h.k].timestamp, run.r.lastTimestamp)
    ensures !Clean(ps, Step(run, false, ToEvent(ps, start, h)))
  {
    hide Fill, FreshFrame, SentData, FramesMatch, Complete, GotInRange, Holds, IsWhole;
    var next := Step(run, false, ToEvent(ps, start, h));
    assert ps[h.k].timestamp in next.r.frames;
    assert DeliveredAs(next.trace[|run.trace| - 1], ps[|run.trace| - 1]);
    assert h.k < |run.trace| - 1 ==> ps[h.k].timestamp < ps[|run.trace| - 1].timestamp;
  }

  /** A pass on an overtaken or expired frame releases the wrong one. */
  lemma HarmfulLook(ps: seq<Plan>, start: Seq16, hs: seq<Happening>, h: Happening, run: Run)
    requires StreamOk(ps) && (forall g :: g in hs ==> InStream(ps, g)) && h.Look?
    requires Inv(ps, start, hs, run) && run.r.frames != map[] && |run.trace| < |ps|
    requires !Complete(ps[|run.trace|], Got(hs, |run.trace|))
    requires Overtaken(ps, start, hs, |run.trace|) || h.lookTime > run.r.frames[FirstKey(run.r.frames)].expireTime
    ensures !Clean(ps, Step(run, false, ToEvent(ps, start, h)))
  {
    hide Matches, First, IsWhole, PollOnce, FramesMatch, GotInRange, Complete, Past, IsVideo, Holds;
    var d := |run.trace|;
    assert Got(hs, 0) != {} by { hide *; FramesNeedGot(ps, start, hs, run); }
    var k := WhatLookDoes(ps, start, hs, run, h.lookTime);
    if Overtaken(ps, start, hs, d) {
      var j :| d < j < |ps| && OvertakenBy(ps, start, hs, d, j);
      OvertakenIsFirst(ps, start, hs, d, run.r.frames, j, k);
    }
    var next := Step(run, false, ToEvent(ps, start, h));
    assert k == d || ps[k].timestamp != ps[d].timestamp;
    assert next.trace[d] == PollOnce(run.r, h.lookTime).out;
  }

  lemma FramesNeedGot(ps: seq<Plan>, start: Seq16, hs: seq<Happening>, run: Run)
    requires StreamOk(ps) && Inv(ps, start, hs, run) && run.r.frames != map[]
    ensures Got(hs, 0) != {}
  {
  }

  lemma TimestampsGrow(ps: seq<Plan>, j: nat, k: nat)
    requires StreamOk(ps) && j < |ps| && k < |ps|
    ensures j < k ==> ps[j].timestamp < ps[k].timestamp
  {
  }

  lemma OvertakenIsFirst(ps: seq<Plan>, start: Seq16, hs: seq<Happening>, d: nat, frames: map<U32, Frame>, j: nat, k: nat)
    requires StreamOk(ps) && FramesMatch(ps, start, hs, d, frames) && frames != map[]
    requires d < j < |ps| && OvertakenBy(ps, start, hs, d, j)
    requires d <= k < |ps| && FirstKey(frames) == ps[k].timestamp && Got(hs, k) != {}
    ensures k == j
  {
    hide Matches, First, FramesMatch, Complete, UnitCount;
    CompleteNotEmpty(ps[j], Got(hs, j));
    BegunIn(ps, start, hs, d, frames, j);
    TimestampsGrow(ps, j, k);
  }

  lemma HarmShows(ps: seq<Plan>, start: Seq16, hs: seq<Happening>, h: Happening)
    requires StreamOk(ps) && InStream(ps, h) && (forall g :: g in hs ==> InStream(ps, g))
    requires Inv(ps, start, hs, Running(ps, start, hs)) && !Harmless(ps, start, hs, h)
    ensures !Clean(ps, Step(Running(ps, start, hs), false, ToEvent(ps, start, h)))
  {
    hide Inv, Running, Step, Clean, Overtaken, Complete, FirstKey, Stale;
    match h
    case Arrive(_, _, _, _) => HarmfulArrival(ps, start, hs, h, Running(ps, start, hs));
    case Look(_) => HarmfulLook(ps, start, hs, h, Running(ps, start, hs));
  }

  /** Over every run: the deliveries are in order and nothing that is out is in the receiver again if and
      only if nothing harmful has happened. Harm is never undone. */
  lemma {:induction false} InOrderExactly(ps: seq<Plan>, start: Seq16, hs: seq<Happening>)
    requires StreamOk(ps) && StreamRun(ps, hs)
    ensures forall g :: g in hs ==> InStream(ps, g)
    ensures Clean(ps, Running(ps, start, hs)) <==> HarmlessRun(ps, start, hs)
  {
    hide Step, Clean, Inv, StreamRun, Harmless;
    if HarmlessRun(ps, start, hs) {
      RunKeepsInv(ps, start, hs);
      InvIsClean(ps, start, hs, Running(ps, start, hs));
    } else {
      var before, h := hs[..|hs| - 1], hs[|hs| - 1];
      LastOf(ps, hs);
      if HarmlessRun(ps, start, before) {
        RunKeepsInv(ps, start, before);
        HarmShows(ps, start, before, h);
      } else {
        InOrderExactly(ps, start, before);
        RunKeyed(ps, start, before);
        UncleanStays(ps, Running(ps, start, before), ToEvent(ps, start, h));
      }
    }
  }

  ghost predicate AllCome(ps: seq<Plan>, hs: seq<Happening>)
    requires StreamOk(ps)
  {
    forall k :: 0 <= k < |ps| ==> Complete(ps[k], Got(hs, k))
  }

  /** The whole stream is out, each frame once and in order, with nothing left in the receiver, if and only
      if every packet has come, nothing harmful has happened, and passes have gone on until nothing was
      left. */
  lemma ExactlyOnce(ps: seq<Plan>, start: Seq16, hs: seq<Happening>)
    requires StreamOk(ps) && StreamRun(ps, hs)
    ensures forall g :: g in hs ==> InStream(ps, g)
    ensures var run := Running(ps, start, hs);
            (|run.trace| == |ps| && InOrder(ps, run.trace) && run.r.frames == map[]
             <==> HarmlessRun(ps, start, hs) && run.r.frames == map[] && AllCome(ps, hs))
  {
    hide Running, Matches, First, IsWhole, DeliveredAs, HarmlessRun;
    InOrderExactly(ps, start, hs);
    var run := Running(ps, start, hs);
    if HarmlessRun(ps, start, hs) {
      RunKeepsInv(ps, start, hs);
      var d := |run.trace|;
      if ps != [] {
        if AllCome(ps, hs) {
          CompleteNotEmpty(ps[0], Got(hs, 0));
          if d < |ps| {
            CompleteNotEmpty(ps[d], Got(hs, d));
          }
        }
      }
    }
  }

  /** And passes do go on: once every packet has come, no pass of a harmless run is idle before nothing is
      left. */
  lemma NeverIdle(ps: seq<Plan>, start: Seq16, hs: seq<Happening>, now: U32)
    requires StreamOk(ps) && StreamRun(ps, hs) && HarmlessRun(ps, start, hs)
    requires AllCome(ps, hs)
    ensures forall g :: g in hs ==> InStream(ps, g)
    ensures var r := Running(ps, start, hs).r; r.frames != map[] ==> PollOnce(r, now).Took?
    ensures Harmless(ps, start, hs, Look(now))
  {
    hide Running, Matches, First, IsWhole, PollOnce, DeliveredAs, Overtaken;
    RunKeepsInv(ps, start, hs);
    var run := Running(ps, start, hs);
    if run.r.frames != map[] {
      FramesNeedGot(ps, start, hs, run);
      var _ := FirstFrame(ps, start, hs, |run.trace|, run.r.frames);
      HarmlessLook(ps, start, hs, run, now);
    }
  }
}
