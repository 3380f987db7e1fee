/** `CSotpRtpSource` with its fields changed in place, each method proved against the functions whose
    properties are proved in the other modules. Frames are objects; the pool that reuses them is not
    part of this model. */
module RtpSource {
  import opened Wrappers
  import opened Integers
  import opened RtpLostSeq
  import opened RtpMissed
  import opened RtpReceive
  import opened RtpRing
  import opened SotpRtpFrame
  import RtpWire

  /** The passes of one call of `GetWholeFrame`, one clock reading each, until there is no frame or
      nothing to do. */
  function Drain(r: Receiver, clock: nat -> U32, pass: nat): (result: Run)
    decreases |r.frames|
  {
    if r.frames == map[] then Run(r, [])
    else match PollOnce(r, clock(pass))
      case Idle => Run(r, [])
      case Took(next, out) =>
        PassRemoves(r, clock(pass));
        var rest := Drain(next, clock, pass + 1);
        Run(rest.r, [out] + rest.trace)
  }

  /** What one call of `GetWholeFrame` leaves behind: no frame, or one that a last look found neither
      next in sequence nor expired. */
  lemma {:induction false} DrainStops(r: Receiver, clock: nat -> U32, pass: nat)
    ensures var run := Drain(r, clock, pass);
            run.r.frames == map[] || PollOnce(run.r, clock(pass + |run.trace|)).Idle?
    decreases |r.frames|
  {
    if r.frames != map[] && PollOnce(r, clock(pass)).Took? {
      PassRemoves(r, clock(pass));
      DrainStops(PollOnce(r, clock(pass)).r, clock, pass + 1);
    }
  }

  /** The looks a call of `GetWholeFrame` takes, as events of a run. */
  function Looks(clock: nat -> U32, pass: nat, n: nat): (es: seq<Event>)
    ensures |es| == n
    decreases n
  {
    if n == 0 then [] else [Poll(clock(pass))] + Looks(clock, pass + 1, n - 1)
  }

  function Steps(run: Run, serverMode: bool, es: seq<Event>): Run
    decreases |es|
  {
    if es == [] then run else Steps(Step(run, serverMode, es[0]), serverMode, es[1..])
  }

  /** So the properties of runs hold for calls of `GetWholeFrame`: each is a row of events. */
  lemma {:induction false} DrainIsRun(r: Receiver, clock: nat -> U32, pass: nat, before: seq<Released>)
    ensures var run := Drain(r, clock, pass);
            Steps(Run(r, before), false, Looks(clock, pass, |run.trace|)) == Run(run.r, before + run.trace)
    decreases |r.frames|
  {
    if r.frames != map[] && PollOnce(r, clock(pass)).Took? {
      PassRemoves(r, clock(pass));
      var p := PollOnce(r, clock(pass));
      var rest := Drain(p.r, clock, pass + 1);
      DrainIsRun(p.r, clock, pass + 1, before + [p.out]);
      assert before + ([p.out] + rest.trace) == before + [p.out] + rest.trace;
    } else {
      assert before + [] == before;
    }
  }

  lemma FreshLength(r: Receiver, serverMode: bool, h: Head, now: U32, buffer: seq<Byte>)
    ensures FreshFrame(r, serverMode, h, now, buffer).payload == buffer
  {
  }

  /** What is to come of a call that has released `out` so far. */
  ghost predicate Leads(r: Receiver, clock: nat -> U32, out: seq<Released>, total: Run) {
    var rest := Drain(r, clock, |out|);
    Run(rest.r, out + rest.trace) == total
  }

  lemma LeadsOn(r: Receiver, clock: nat -> U32, out: seq<Released>, total: Run, next: Receiver, x: Released)
    requires Leads(r, clock, out, total) && r.frames != map[] && PollOnce(r, clock(|out|)) == Took(next, x)
    ensures Leads(next, clock, out + [x], total) && |next.frames| < |r.frames|
  {
    hide PollOnce;
    PassRemoves(r, clock(|out|));
    var rest := Drain(next, clock, |out + [x]|);
    assert out + ([x] + rest.trace) == out + [x] + rest.trace;
  }

  lemma LeadsEnd(r: Receiver, clock: nat -> U32, out: seq<Released>, total: Run)
    requires Leads(r, clock, out, total)
    requires r.frames == map[] || PollOnce(r, clock(|out|)).Idle?
    ensures total == Run(r, out)
  {
    assert out + [] == out;
  }

  lemma LeadsBegin(r: Receiver, clock: nat -> U32)
    ensures Leads(r, clock, [], Drain(r, clock, 0))
  {
    assert [] + Drain(r, clock, 0).trace == Drain(r, clock, 0).trace;
  }

  class Source {
    const serverMode: bool
    var lastTimestamp: U32
    var waitSeq: int
    var waitKey: bool
    var lost: Seq16
    var lastPacketSeq: int
    var lastExpectSeq: int
    var lastExpect1: Expect
    var lastExpect2: Expect
    var currentSeq: Seq16
    const frames: FrameTable
    const queue: ReliableQueue<RtpWire.Datagram>
    const lostSeqInfo2: LostSeqInfo

    ghost predicate Valid()
      reads frames, frames.repr
    {
      && frames.Valid() && queue.Wf()
      && this as object !in {frames as object, queue.slots} + frames.repr
      && queue.slots as object !in {frames as object} + frames.repr && frames !in frames.repr
      && lostSeqInfo2 as object !in {frames as object, queue.slots} + frames.repr
    }

    ghost function Tracking(): Tracker
      reads this, lostSeqInfo2
    {
      Tracker(serverMode, lastPacketSeq, lastExpectSeq, lastExpect1, lastExpect2, lostSeqInfo2.lostSeq)
    }

    ghost function Receiving(): Receiver
      reads this, frames
    {
      Receiver(lastTimestamp, waitSeq, waitKey, lost, frames.views)
    }

    constructor (server: bool)
      ensures Valid() && serverMode == server && Tracking() == Fresh(server) && Receiving() == INITIAL
      ensures fresh(frames) && frames.repr == {} && fresh(queue) && fresh(queue.slots)
      ensures queue.Contents() == RingAfter([]) && currentSeq == 0 && fresh(lostSeqInfo2)
    {
      serverMode := server;
      lastTimestamp, waitSeq, waitKey, lost := 0, -1, false, 0;
      lastPacketSeq, lastExpectSeq, lastExpect1, lastExpect2 := -1, -1, NO_EXPECT, NO_EXPECT;
      currentSeq := 0;
      frames := new FrameTable();
      queue := new ReliableQueue();
      lostSeqInfo2 := new LostSeqInfo();
    }

    // ---- Missed packets ----

    method CaculateMissedPackets(p: Arrival) returns (naks: seq<Nak>)
      modifies this`lastPacketSeq, this`lastExpectSeq, this`lastExpect1, this`lastExpect2, lostSeqInfo2
      ensures (Tracking(), naks) == Calculate(old(Tracking()), p)
    {
      hide LookAtHeld, Batch, Advance;
      naks := [];
      if p.sn == 0 && p.timestamp == 0 { return; }
      var done;
      naks, done := LookAtGaps(p);
      if !done {
        var batch := TakeBatch(p);
        var more := Judge(p);
        naks := naks + batch + more;
      }
    }

    method TakeBatch(p: Arrival) returns (naks: seq<Nak>)
      modifies lostSeqInfo2
      ensures (Tracking(), naks) == Batch(old(Tracking()), p)
    {
      naks := [];
      if p.nak >= 2 {
        var nak := lostSeqInfo2.Receive(p.sn, Wrap16(lastPacketSeq));
        if nak.Some? {
          naks := [nak.value];
        }
      }
    }

    method LookAtGaps(p: Arrival) returns (naks: seq<Nak>, done: bool)
      modifies this`lastExpectSeq, this`lastExpect1, this`lastExpect2
      ensures Looked(Tracking(), naks, done) == LookAtHeld(old(Tracking()), p)
    {
      naks, done := [], false;
      if p.nak < 1 { return; }
      if serverMode && lastExpectSeq >= 0 {
        if lastExpectSeq == p.sn {
          done := true;
        } else {
          naks := [Nak(Wrap16(lastExpectSeq + 1), 1)];
        }
        lastExpectSeq := -1;
      } else if !serverMode {
        if lastExpect1.sn == p.sn {
          lastExpect1 := NO_EXPECT;
          return [], true;
        } else if lastExpect2.sn == p.sn {
          lastExpect2 := NO_EXPECT;
          return [], true;
        }
        if lastExpect1.sn != -1 {
          lastExpect1 := lastExpect1.(count := lastExpect1.count + 1);
        }
        if lastExpect1.sn != -1 && lastExpect1.count >= 2 {
          naks := [Nak(Wrap16(lastExpect1.sn + 1), 1)];
          lastExpect1 := NO_EXPECT;
        } else {
          if lastExpect2.sn != -1 {
            lastExpect2 := lastExpect2.(count := lastExpect2.count + 1);
          }
          if lastExpect2.sn != -1 && lastExpect2.count >= 2 {
            naks := [Nak(Wrap16(lastExpect2.sn + 1), 1)];
            lastExpect2 := NO_EXPECT;
          }
        }
      }
    }

    method Judge(p: Arrival) returns (naks: seq<Nak>)
      modifies this`lastPacketSeq, this`lastExpectSeq, this`lastExpect1, this`lastExpect2, lostSeqInfo2
      ensures (Tracking(), naks) == Advance(old(Tracking()), p)
    {
      hide Lost;
      naks := [];
      var due := Wrap16(lastPacketSeq + 1);
      if p.sn == due || lastPacketSeq == -1 || (1 <= p.sn <= 10 && 300 < lastPacketSeq < 65200) {
        lastPacketSeq := p.sn;
        return;
      }
      var n := 0;
      if p.sn > due && p.sn - due < 0x7F00 {
        lastPacketSeq := p.sn;
        if p.sn - due > MAX_RESEND_COUNT { return; }
        n := p.sn - due;
        if p.nak >= 2 && n > 1 {
          lostSeqInfo2.TakeOn(p.sn - n, n);
        }
      } else if due > p.sn && due - p.sn > 0x7F00 {
        lastPacketSeq := p.sn;
        var diff := p.sn + (65535 - due);
        n := if diff > MAX_RESEND_COUNT then MAX_RESEND_COUNT else diff;
        if p.nak >= 2 {
          ListAcrossWrap(due, p.sn);
        }
      }
      if p.nak >= 1 && n > 0 {
        naks := HoldOrAsk(due, p.sn, n);
      }
    }

    method ListAcrossWrap(due: Seq16, sn: Seq16)
      requires WrapJump(due - 1, sn)
      modifies lostSeqInfo2
      ensures lostSeqInfo2.lostSeq == ListGap(old(lostSeqInfo2.lostSeq), due - 1, sn)
    {
      hide Lost;
      var diff1 := 65535 - due;
      if diff1 > MAX_RESEND_COUNT { diff1 := MAX_RESEND_COUNT; }
      lostSeqInfo2.TakeOn(65535 - diff1, diff1 + 1);
      var diff2 := if sn > 0 then sn - 1 else 0;
      if diff2 >= MAX_RESEND_COUNT {
        lostSeqInfo2.Clear();
      } else if diff2 > 0 {
        lostSeqInfo2.TakeOn(sn - diff2, diff2);
      }
    }

    method HoldOrAsk(due: Seq16, sn: Seq16, n: nat) returns (naks: seq<Nak>)
      requires 0 < n <= MAX_RESEND_COUNT
      modifies this`lastExpectSeq, this`lastExpect1, this`lastExpect2
      ensures (Tracking(), naks) == HoldOrRequest(old(Tracking()), due, sn, n)
    {
      naks := [];
      if n == 1 {
        if serverMode {
          lastExpectSeq := due;
        } else if lastExpect1.sn == -1 {
          lastExpect1 := Expect(due, 0);
        } else {
          if lastExpect2.sn != -1 {
            naks := [Nak(Wrap16(lastExpect2.sn + 1), 1)];
          }
          lastExpect2 := Expect(due, 0);
        }
      } else {
        naks := [Nak(sn, n)];
      }
    }

    // ---- Frames ----

    method PushRtpData(h: Head, data: seq<Byte>, now: U32) returns (ghost buffer: seq<Byte>)
      requires Valid()
      modifies this`lastTimestamp, this`waitSeq, this`lastPacketSeq, frames, frames.repr
      ensures Valid() && fresh(frames.repr - old(frames.repr)) && |buffer| >= Wrap32(h.total + 1)
      ensures Receiving() == Push(old(Receiving()), serverMode, h, data, now, buffer)
      ensures lastPacketSeq == if RestartsTracking(old(Receiving()), h) then -1 else old(lastPacketSeq)
    {
      hide FrameTable.Valid, FreshFrame, Fill, DataLength, DataOffset, Wrap32;
      buffer := seq(Wrap32(h.total + 1), _ => 0);
      if h.index >= SOTP_RTP_MAX_PACKETS_PER_FRAME { return; }
      var ts := h.timestamp;
      if ts < lastTimestamp && ts > 0 && lastTimestamp - ts < 0xFFFF {
        return;
      } else if ts > lastTimestamp && ts - lastTimestamp > 20 * 1000 {
        lastPacketSeq := -1;
      }
      buffer := Store(h, data, now);
    }

    /** The part of `PushRtpData` that a packet in time reaches. */
    method Store(h: Head, data: seq<Byte>, now: U32) returns (ghost buffer: seq<Byte>)
      requires Valid() && h.index < SOTP_RTP_MAX_PACKETS_PER_FRAME && !Stale(h.timestamp, lastTimestamp)
      modifies this`lastTimestamp, this`waitSeq, frames, frames.repr
      ensures Valid() && fresh(frames.repr - old(frames.repr)) && |buffer| >= Wrap32(h.total + 1)
      ensures Receiving() == Push(old(Receiving()), serverMode, h, data, now, buffer)
    {
      hide FrameTable.Valid, FreshFrame, Fill, DataLength, DataOffset, Wrap32;
      var ts := h.timestamp;
      buffer := seq(Wrap32(h.total + 1), _ => 0);
      var found := frames.Has(ts);
      if !found {
        buffer := AddFrame(h, now);
        FreshLength(old(Receiving()), serverMode, h, now, buffer);
      }
      if ts > 0 && lastTimestamp == 0 {
        var head, firstSeq, _, _ := frames.Get(ts);
        lastTimestamp := Wrap32(head.timestamp - 1);
        waitSeq := firstSeq;
      }
      frames.FillAt(ts, h, data);
    }

    method AddFrame(h: Head, now: U32) returns (ghost buffer: seq<Byte>)
      requires Valid() && h.timestamp !in frames.views
      modifies frames
      ensures Valid() && fresh(frames.repr - old(frames.repr)) && |buffer| >= Wrap32(h.total + 1)
      ensures frames.views == old(frames.views)[h.timestamp := FreshFrame(old(Receiving()), serverMode, h, now, buffer)]
    {
      hide FreshFrame, FrameBuffer.View;
      var f;
      f, buffer := NewFrame(h, now);
      frames.Insert(h.timestamp, f);
    }

    method NewFrame(h: Head, now: U32) returns (f: FrameBuffer, ghost buffer: seq<Byte>)
      ensures f.Valid() && fresh(f.Repr()) && |buffer| >= Wrap32(h.total + 1)
      ensures f.View() == FreshFrame(Receiving(), serverMode, h, now, buffer)
    {
      hide ExpireTime, Wrap16;
      f := new FrameBuffer(h);
      f.BuildBuffer(Wrap32(h.total + 1));
      buffer := f.payload[..];
      f.firstSeq := Wrap16(h.sn - h.index);
      f.number := PacketNumber(h);
      if h.timestamp > 0 && !serverMode {
        f.expireTime := ExpireTime(lastTimestamp, h.timestamp, f.number, now);
      }
      assert f.filled[..] == seq(SOTP_RTP_MAX_PACKETS_PER_FRAME, _ => false);
    }

    method GetWholeFrame(clock: nat -> U32) returns (out: seq<Released>)
      requires Valid()
      modifies this`lastTimestamp, this`waitSeq, this`waitKey, this`lost, frames`frames, frames`views
      ensures Valid()
      ensures Run(Receiving(), out) == Drain(old(Receiving()), clock, 0)
    {
      hide PollOnce, Drain, Leads, FrameTable.Valid;
      ghost var total := Drain(Receiving(), clock, 0);
      LeadsBegin(Receiving(), clock);
      out := [];
      var empty := frames.Empty();
      while !empty
        invariant Valid() && empty == (frames.views == map[]) && Leads(Receiving(), clock, out, total)
        decreases |frames.views|
      {
        ghost var was := Receiving();
        var pass := OnePass(clock(|out|));
        if pass.None? {
          LeadsEnd(was, clock, out, total);
          return;
        }
        LeadsOn(was, clock, out, total, Receiving(), pass.value);
        out := out + [pass.value];
        empty := frames.Empty();
      }
      LeadsEnd(Receiving(), clock, out, total);
    }

    /** The body of the loop: the first frame leaves, or nothing is to be done. */
    method OnePass(now: U32) returns (released: Option<Released>)
      requires Valid() && frames.views != map[]
      modifies this`lastTimestamp, this`waitSeq, this`waitKey, this`lost, frames`frames, frames`views
      ensures Valid()
      ensures PollOnce(old(Receiving()), now) ==
        match released case None => Idle case Some(out) => Took(Receiving(), out)
      ensures released.None? ==> Receiving() == old(Receiving())
    {
      hide IsWhole, FrameTable.Valid, Past;
      var ts := frames.First();
      var head, firstSeq, number, expireTime := frames.Get(ts);
      var whole := frames.IsWholeAt(ts);
      var out;
      if head.timestamp == 0 && head.sn == 0 && whole {
        var f := frames.Copy(ts);
        frames.Erase(ts);
        released := Some(Released(Direct, f, true, 0));
      } else if (waitSeq == -1 || Wrap16(waitSeq) == firstSeq) && whole {
        out := TakeNext(ts, now);
        released := Some(out);
      } else if expireTime < now {
        out := TakeExpired(ts, whole, now);
        released := Some(out);
      } else {
        released := None;
      }
    }

    method TakeNext(ts: U32, now: U32) returns (out: Released)
      requires Valid() && frames.views != map[] && ts == FirstKey(frames.views)
      requires !IsDirect(frames.views[ts]) && IsNext(Receiving(), frames.views[ts])
      modifies this`lastTimestamp, this`waitSeq, this`waitKey, this`lost, frames`frames, frames`views
      ensures Valid() && PollOnce(old(Receiving()), now) == Took(Receiving(), out)
    {
      hide IsDirect, IsNext, FrameTable.Valid;
      var head, firstSeq, number, _ := frames.Get(ts);
      waitSeq := Wrap16(firstSeq + number);
      lastTimestamp := head.timestamp;
      if waitKey && head.dataType == VIDEO_I {
        waitKey := false;
      }
      var f := frames.Copy(ts);
      frames.Erase(ts);
      if !waitKey || head.dataType != VIDEO {
        out := Released(InSequence, f, true, lost);
        lost := 0;
      } else {
        out := Released(InSequence, f, false, 0);
      }
    }

    method TakeExpired(ts: U32, whole: bool, now: U32) returns (out: Released)
      requires Valid() && frames.views != map[] && ts == FirstKey(frames.views)
      requires !IsDirect(frames.views[ts]) && !IsNext(Receiving(), frames.views[ts])
      requires whole == IsWhole(frames.views[ts]) && frames.views[ts].expireTime < now
      modifies this`lastTimestamp, this`waitSeq, this`waitKey, this`lost, frames`frames, frames`views
      ensures Valid() && PollOnce(old(Receiving()), now) == Took(Receiving(), out)
    {
      hide IsDirect, IsNext, IsWhole, FrameTable.Valid;
      var head, firstSeq, number, _ := frames.Get(ts);
      lastTimestamp := head.timestamp;
      waitSeq := Wrap16(firstSeq + number);
      var f := frames.Copy(ts);
      frames.Erase(ts);
      if !waitKey && whole {
        out := Released(Expired, f, true, lost);
        lost := 0;
      } else {
        out := Released(Expired, f, false, 0);
        lost := Wrap16(lost + 1);
        waitKey := head.dataType == VIDEO_I || head.dataType == VIDEO;
      }
    }

    method GetNextSeq() returns (sn: Seq16)
      modifies this`currentSeq
      ensures sn == currentSeq == Wrap16(old(currentSeq) + 1)
    {
      currentSeq := Wrap16(currentSeq + 1);
      sn := currentSeq;
    }
  }
}
