/** Runs in which a stream is not delivered exactly once, each with the one harmful thing that happens in
    it: a frame overtaken by another, and a packet that comes again after its frame is out. */
module RtpHarm {
  import opened Integers
  import opened RtpReceive
  import opened RtpStream
  import opened RtpDelivery
  import opened RtpExactlyOnce

  /** The first `n` packets of frame `k`, in order. */
  function Packets(ps: seq<Plan>, k: nat, n: nat): (hs: seq<Happening>)
    requires k < |ps| && n <= 65536
    ensures |hs| == n
  {
    if n == 0 then [] else Packets(ps, k, n - 1) + [Arrive(k, n - 1, 0, seq(|ps[k].payload| + 1, _ => 0))]
  }

  lemma StreamRunOn(ps: seq<Plan>, hs: seq<Happening>, h: Happening)
    requires StreamOk(ps) && StreamRun(ps, hs) && InStream(ps, h) && (h.Arrive? && Got(hs, 0) == {} ==> h.k == 0)
    ensures StreamRun(ps, hs + [h])
  {
    var all := hs + [h];
    assert all[..|all| - 1] == hs && all[|all| - 1] == h;
    forall g | g in all ensures InStream(ps, g) {
      if g != h {
        assert g in hs;
        InRun(ps, hs, g);
      }
    }
  }

  lemma InRun(ps: seq<Plan>, hs: seq<Happening>, g: Happening)
    requires StreamOk(ps) && StreamRun(ps, hs) && g in hs
    ensures InStream(ps, g)
  {
  }

  lemma HarmlessOn(ps: seq<Plan>, start: Seq16, hs: seq<Happening>, h: Happening)
    requires StreamOk(ps) && StreamRun(ps, hs) && InStream(ps, h) && (h.Arrive? && Got(hs, 0) == {} ==> h.k == 0)
    ensures StreamRun(ps, hs + [h]) && (forall g :: g in hs ==> InStream(ps, g)) && (forall g :: g in hs + [h] ==> InStream(ps, g))
    ensures HarmlessRun(ps, start, hs + [h]) <==> HarmlessRun(ps, start, hs) && Harmless(ps, start, hs, h)
    ensures Running(ps, start, hs + [h]) == Step(Running(ps, start, hs), false, ToEvent(ps, start, h))
  {
    hide Harmless, Step;
    StreamRunOn(ps, hs, h);
    var all := hs + [h];
    assert all[..|all| - 1] == hs && all[|all| - 1] == h;
    LastOf(ps, all);
  }

  lemma {:induction false} PacketsGot(ps: seq<Plan>, hs: seq<Happening>, k: nat, n: nat)
    requires k < |ps| && n <= 65536
    ensures forall j: nat :: j != k ==> Got(hs + Packets(ps, k, n), j) == Got(hs, j)
    ensures forall i: nat :: i in Got(hs + Packets(ps, k, n), k) <==> i in Got(hs, k) || i < n
    decreases n
  {
    hide Got;
    if n == 0 {
      assert hs + [] == hs;
    } else {
      PacketsGot(ps, hs, k, n - 1);
      var before, h := hs + Packets(ps, k, n - 1), Arrive(k, n - 1, 0, seq(|ps[k].payload| + 1, _ => 0));
      assert before + [h] == hs + Packets(ps, k, n);
      GotOthers(before, h);
    }
  }

  /** Bringing in a frame that is not out yet does no harm. */
  lemma {:induction false} BringIn(ps: seq<Plan>, start: Seq16, hs: seq<Happening>, k: nat, n: nat)
    requires StreamOk(ps) && StreamRun(ps, hs) && HarmlessRun(ps, start, hs) && k < |ps| && n <= Units(ps[k])
    requires (forall g :: g in hs ==> InStream(ps, g)) && |Running(ps, start, hs).trace| <= k
    requires Got(hs, 0) == {} ==> k == 0
    ensures var all := hs + Packets(ps, k, n);
            && StreamRun(ps, all) && HarmlessRun(ps, start, all) && (forall g :: g in all ==> InStream(ps, g))
            && Running(ps, start, all).trace == Running(ps, start, hs).trace
    decreases n
  {
    hide Push, UnitCount, HarmlessRun, StreamRun, Got, Stale, First;
    if n == 0 {
      assert hs + [] == hs;
    } else {
      BringIn(ps, start, hs, k, n - 1);
      PacketsGot(ps, hs, k, n - 1);
      var before, h := hs + Packets(ps, k, n - 1), Arrive(k, n - 1, 0, seq(|ps[k].payload| + 1, _ => 0));
      assert before + [h] == hs + Packets(ps, k, n);
      HarmlessOn(ps, start, before, h);
    }
  }

  /** Frame `k` comes in and a pass follows. */
  function FrameAndLook(ps: seq<Plan>, k: nat): seq<Happening>
    requires k < |ps| && ps[k].unit > 0 && Units(ps[k]) <= 65536
  {
    Packets(ps, k, Units(ps[k])) + [Look(0)]
  }

  lemma FirstIn(ps: seq<Plan>, start: Seq16)
    requires StreamOk(ps) && ps != []
    ensures var hs := Packets(ps, 0, Units(ps[0]));
            && StreamRun(ps, hs) && HarmlessRun(ps, start, hs) && (forall g :: g in hs ==> InStream(ps, g))
            && Running(ps, start, hs).trace == [] && Complete(ps[0], Got(hs, 0)) && Got(hs, 0) != {}
            && (forall j: nat :: j > 0 ==> Got(hs, j) == {})
  {
    hide UnitCount, Packets, Step;
    var n := Units(ps[0]);
    BringIn(ps, start, [], 0, n);
    PacketsGot(ps, [], 0, n);
    assert [] + Packets(ps, 0, n) == Packets(ps, 0, n);
    CompleteNotEmpty(ps[0], Got(Packets(ps, 0, n), 0));
  }

  lemma FirstOut(ps: seq<Plan>, start: Seq16)
    requires StreamOk(ps) && ps != []
    ensures var hs := FrameAndLook(ps, 0);
            && StreamRun(ps, hs) && HarmlessRun(ps, start, hs) && (forall g :: g in hs ==> InStream(ps, g))
            && |Running(ps, start, hs).trace| == 1 && Complete(ps[0], Got(hs, 0))
            && (forall j: nat :: j > 0 ==> Got(hs, j) == {})
  {
    hide UnitCount, Matches, PollOnce, Overtaken, First, Push, DeliveredAs, Past, Packets, HarmlessRun, StreamRun, Got, FramesMatch;
    FirstIn(ps, start);
    var before := Packets(ps, 0, Units(ps[0]));
    RunKeepsInv(ps, start, before);
    var run := Running(ps, start, before);
    HarmlessOn(ps, start, before, Look(0));
    FrameOf(ps, start, before, 0, run.r.frames, 0);
    HarmlessLook(ps, start, before, run, 0);
    forall j: nat ensures Got(before + [Look(0)], j) == Got(before, j) {
      GotAfter(before, Look(0), j);
    }
  }

  /** In every stream long enough frame 1 is overtaken in some run without loss, repetition or expiry:
      the frame 65536 packets on is delivered in its place. */
  lemma OvertakingHappens(ps: seq<Plan>, start: Seq16, k: nat)
    requires StreamOk(ps) && 1 < k < |ps| && First(ps, start, k) == First(ps, start, 1)
    ensures var hs := FrameAndLook(ps, 0) + Packets(ps, k, Units(ps[k]));
            && StreamRun(ps, hs) && HarmlessRun(ps, start, hs) && Overtaken(ps, start, hs, 1)
            && StreamRun(ps, hs + [Look(0)]) && (forall g :: g in hs + [Look(0)] ==> InStream(ps, g))
            && var trace := Running(ps, start, hs + [Look(0)]).trace;
               |trace| == 2 && trace[1].way == InSequence && trace[1].frame.head.timestamp == ps[k].timestamp
  {
    hide UnitCount, Matches, PollOnce, First, Push, DeliveredAs, Past, Packets, FrameAndLook, HarmlessRun, StreamRun;
    FirstOut(ps, start);
    var first := FrameAndLook(ps, 0);
    CompleteNotEmpty(ps[0], Got(first, 0));
    BringIn(ps, start, first, k, Units(ps[k]));
    PacketsGot(ps, first, k, Units(ps[k]));
    var hs := first + Packets(ps, k, Units(ps[k]));
    assert Complete(ps[k], Got(hs, k));
    assert OvertakenBy(ps, start, hs, 1, k);
    RunKeepsInv(ps, start, hs);
    var run := Running(ps, start, hs);
    HarmlessOn(ps, start, hs, Look(0));
    CompleteNotEmpty(ps[k], Got(hs, k));
    FrameOf(ps, start, hs, 1, run.r.frames, k);
    var j := WhatLookDoes(ps, start, hs, run, 0);
    OvertakenIsFirst(ps, start, hs, 1, run.r.frames, k, j);
  }

  /** `n` frames of one packet each. */
  function Singles(n: nat): seq<Plan>
    requires n < 65600
  {
    seq(n, k requires 0 <= k < n => Plan(k + 2, 0, 0, [0], 2))
  }

  lemma SinglesOk(n: nat)
    requires n < 65600
    ensures StreamOk(Singles(n)) && |Singles(n)| == n
    ensures forall k :: 0 <= k < n ==> Units(Singles(n)[k]) == 1
  {
  }

  lemma {:induction false} SinglesOffset(n: nat, k: nat)
    requires k <= n < 65600 && StreamOk(Singles(n))
    ensures Offset(Singles(n), k) == k
  {
    if k > 0 {
      SinglesOk(n);
      hide Singles, StreamOk, UnitCount;
      SinglesOffset(n, k - 1);
    }
  }

  /** There are such streams. */
  lemma LongStreams(start: Seq16, n: nat)
    requires 65537 < n < 65600
    ensures var ps := Singles(n); StreamOk(ps) && |ps| == n && First(ps, start, 65537) == First(ps, start, 1)
  {
    hide Singles, Offset, StreamOk;
    SinglesOk(n);
    SinglesOffset(n, 65537);
    SinglesOffset(n, 1);
  }

  /** What a pass does with a frame of `p` that came back with one of its packets. `due` says that its
      first number is the awaited one. */
  ghost predicate LatePass(r: Receiver, p: Plan, due: bool, now: U32)
    requires p.unit > 0
  {
    && r.frames != map[] && FirstKey(r.frames) == p.timestamp
    && var f, pass := r.frames[p.timestamp], PollOnce(r, now);
       if Units(p) == 1 && due then pass.Took? && pass.out == Released(InSequence, f, true, 0)
       else if f.expireTime >= now then pass == Idle
       else if Units(p) == 1 then pass.Took? && pass.out == Released(Expired, f, true, 0)
       else pass.Took? && pass.out == Released(Expired, f, false, 0) && pass.r.lost == 1
            && pass.r.waitKey == (p.dataType == VIDEO || p.dataType == VIDEO_I)
  }

  lemma LatePassOf(r: Receiver, p: Plan, first: Seq16, i: nat, now: U32)
    requires Sendable(p) && p.timestamp > 1 && i < Units(p)
    requires r.frames != map[] && FirstKey(r.frames) == p.timestamp && Matches(p, first, r.frames[p.timestamp], {i})
    requires !r.waitKey && r.lost == 0 && 0 <= r.waitSeq < 65536
    ensures LatePass(r, p, first == r.waitSeq, now)
  {
    hide Matches, IsWhole, UnitCount, PollOnce;
    var f := r.frames[p.timestamp];
    MatchesHead(p, first, f, {i});
    OnePacketWhole(p, first, f, i);
    PassTakes(r, now);
  }

  lemma OnePacketWhole(p: Plan, first: Seq16, f: Frame, i: nat)
    requires Sendable(p) && i < Units(p) && Matches(p, first, f, {i})
    ensures IsWhole(f) <==> Units(p) == 1
  {
    hide Matches, IsWhole, UnitCount;
    var got := {i};
    WholeExactly(p, first, f, got);
    if Units(p) == 1 {
      assert forall x: nat :: x < Units(p) ==> x in got;
    } else {
      var other: nat := if i == 0 then 1 else 0;
      assert other < Units(p) && other !in got;
    }
  }

  /** What a late packet of a frame that is out does after any harmless run, if it is not taken for late.
      A frame of one packet is delivered a second time, when it expires at the latest. Any other frame
      blocks every pass until it expires, and then counts as lost and closes the key frame gate if it is
      video. */
  lemma LateCopy(ps: seq<Plan>, start: Seq16, hs: seq<Happening>, h: Happening, now: U32)
    requires StreamOk(ps) && StreamRun(ps, hs) && HarmlessRun(ps, start, hs) && (forall g :: g in hs ==> InStream(ps, g))
    requires InStream(ps, h) && h.Arrive? && !Harmless(ps, start, hs, h)
    ensures var run := Running(ps, start, hs);
            && h.k < |run.trace| <= |ps|
            && LatePass(Step(run, false, ToEvent(ps, start, h)).r, ps[h.k],
                        First(ps, start, h.k) == First(ps, start, |run.trace|), now)
  {
    RunKeepsInv(ps, start, hs);
    LateCopyOf(ps, start, hs, h, Running(ps, start, hs), now);
  }

  lemma LateCopyOf(ps: seq<Plan>, start: Seq16, hs: seq<Happening>, h: Happening, run: Run, now: U32)
    requires StreamOk(ps) && (forall g :: g in hs ==> InStream(ps, g)) && Inv(ps, start, hs, run)
    requires InStream(ps, h) && h.Arrive? && h.k < |run.trace| && !Stale(ps[h.k].timestamp, run.r.lastTimestamp)
    ensures |run.trace| <= |ps|
    ensures LatePass(Step(run, false, ToEvent(ps, start, h)).r, ps[h.k],
                     First(ps, start, h.k) == First(ps, start, |run.trace|), now)
  {
    hide Matches, First, Push, Complete, UnitCount, LatePass, FramesMatch, DeliveredAs;
    var p, first := ps[h.k], First(ps, start, h.k);
    NothingIn(ps, start, hs, run, h.k);
    PushMine(run.r, p, first, h.i, h.arriveTime, h.buffer, {});
    ProperOfStream(ps, h.k, h.i);
    assert Accepted(p, {}, h.i) == {h.i as nat};
    LatePassOf(Push(run.r, false, SentHead(p, first, h.i), SentData(p, h.i), h.arriveTime, h.buffer), p, first, h.i, now);
  }

  /** Nothing in the receiver is as early as a frame that is out. */
  lemma NothingIn(ps: seq<Plan>, start: Seq16, hs: seq<Happening>, run: Run, k: nat)
    requires StreamOk(ps) && Inv(ps, start, hs, run) && Got(hs, 0) != {} && k < |run.trace|
    ensures forall ts :: ts in run.r.frames ==> ps[k].timestamp < ts
  {
    hide Matches, First, DeliveredAs, Complete, GotInRange;
    forall ts | ts in run.r.frames ensures ps[k].timestamp < ts {
      var j :| |run.trace| <= j < |ps| && ps[j].timestamp == ts && Got(hs, j) != {};
      TimestampsGrow(ps, k, j);
    }
  }

  /** It happens in every stream: after the first frame is out, one more copy of any of its packets. */
  lemma LateCopyHappens(ps: seq<Plan>, start: Seq16, i: Seq16)
    requires StreamOk(ps) && ps != [] && i < Units(ps[0])
    ensures var hs, h := FrameAndLook(ps, 0), Arrive(0, i, 0, seq(|ps[0].payload| + 1, _ => 0));
            && StreamRun(ps, hs) && HarmlessRun(ps, start, hs) && (forall g :: g in hs ==> InStream(ps, g)) && InStream(ps, h)
            && |Running(ps, start, hs).trace| == 1 && !Harmless(ps, start, hs, h)
            && StreamRun(ps, hs + [h]) && !HarmlessRun(ps, start, hs + [h])
  {
    hide UnitCount, Matches, First, Push, DeliveredAs, Packets, FrameAndLook, FramesMatch;
    FirstOut(ps, start);
    var hs, h := FrameAndLook(ps, 0), Arrive(0, i, 0, seq(|ps[0].payload| + 1, _ => 0));
    CompleteNotEmpty(ps[0], Got(hs, 0));
    RunKeepsInv(ps, start, hs);
    HarmlessOn(ps, start, hs, h);
  }
}
