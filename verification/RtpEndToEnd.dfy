/** A whole stream from the sender's payloads to the receiver's callbacks: cut, printed, lost or repeated or
    out of order on the way, parsed, put together and released. */
module RtpEndToEnd {
  import opened Integers
  import opened RtpReceive
  import opened RtpStream
  import opened RtpExactlyOnce
  import opened RtpWire
  import opened RtpSender

  /** What of a stream can be printed: the types are single bytes. */
  ghost predicate Printable(ps: seq<Plan>) {
    StreamOk(ps) && forall k :: 0 <= k < |ps| ==> SmallTypes(ps[k])
  }

  lemma CutInStream(ps: seq<Plan>, start: Seq16, h: Happening)
    requires Printable(ps) && InStream(ps, h) && h.Arrive?
    ensures |ps[h.k].payload| < TWO32 && h.i < Count(ps[h.k])
  {
    hide UnitCount;
    CountOfSendable(ps[h.k]);
  }

  lemma CountOfSendable(p: Plan)
    requires Sendable(p)
    ensures Count(p) == Units(p)
  {
    hide UnitCount, Count;
    CountBound(p);
  }

  /** The bytes of the packet the sender makes. */
  ghost function Bytes(ps: seq<Plan>, start: Seq16, room: U64, source: U64, h: Happening): seq<Byte>
    requires Printable(ps) && InStream(ps, h) && h.Arrive?
  {
    CutInStream(ps, start, h);
    var d := Cut(ps[h.k], room, source, First(ps, start, h.k), h.i);
    SendData(d.head, d.data)
  }

  /** What the receiver makes of it. */
  ghost function WireStep(run: Run, ps: seq<Plan>, start: Seq16, room: U64, source: U64, h: Happening): Run
    requires Printable(ps) && InStream(ps, h)
  {
    match h
    case Arrive(_, _, now, buffer) =>
      (match ReceiveData(Bytes(ps, start, room, source, h))
       case None => run
       case Some(d) => Step(run, false, Packet(d.head.head, d.data, now, buffer)))
    case Look(now) => Step(run, false, Poll(now))
  }

  ghost function WireRunning(ps: seq<Plan>, start: Seq16, room: U64, source: U64, hs: seq<Happening>): Run
    requires Printable(ps) && forall h :: h in hs ==> InStream(ps, h)
  {
    if hs == [] then Run(INITIAL, [])
    else WireStep(WireRunning(ps, start, room, source, hs[..|hs| - 1]), ps, start, room, source, hs[|hs| - 1])
  }

  lemma WireStepIs(run: Run, ps: seq<Plan>, start: Seq16, room: U64, source: U64, h: Happening)
    requires Printable(ps) && InStream(ps, h)
    ensures WireStep(run, ps, start, room, source, h) == Step(run, false, ToEvent(ps, start, h))
  {
    hide SendData, ReceiveData, UnitCount, First, Step, Proper, Cut, SentData;
    if h.Arrive? {
      var p, first := ps[h.k], First(ps, start, h.k);
      CutInStream(ps, start, h);
      CutIsSent(p, room, source, first, h.i);
      SentPacketReceived(room, source, p, first, h.i);
      ProperOfStream(ps, h.k, h.i);
    }
  }

  lemma {:induction false} WireRunningIs(ps: seq<Plan>, start: Seq16, room: U64, source: U64, hs: seq<Happening>)
    requires Printable(ps) && forall h :: h in hs ==> InStream(ps, h)
    ensures WireRunning(ps, start, room, source, hs) == Running(ps, start, hs)
  {
    hide WireStep, Step;
    if hs != [] {
      assert hs[|hs| - 1] in hs;
      WireRunningIs(ps, start, room, source, hs[..|hs| - 1]);
      WireStepIs(Running(ps, start, hs[..|hs| - 1]), ps, start, room, source, hs[|hs| - 1]);
    }
  }

  /** From end to end: the whole stream is out, each frame once and in order, with nothing left in the
      receiver, if and only if every packet has come, nothing harmful has happened, and passes have gone
      on until nothing was left. */
  lemma DeliveredExactlyOnce(ps: seq<Plan>, start: Seq16, room: U64, source: U64, hs: seq<Happening>)
    requires Printable(ps) && StreamRun(ps, hs)
    ensures forall g :: g in hs ==> InStream(ps, g)
    ensures var run := WireRunning(ps, start, room, source, hs);
            (|run.trace| == |ps| && InOrder(ps, run.trace) && run.r.frames == map[]
             <==> HarmlessRun(ps, start, hs) && run.r.frames == map[] && AllCome(ps, hs))
  {
    hide Running, WireRunning, HarmlessRun;
    ExactlyOnce(ps, start, hs);
    WireRunningIs(ps, start, room, source, hs);
  }

  /** The sender numbers the frames as the stream has them: it goes on from frame `k` to frame `k + 1`. */
  lemma NumbersFollow(ps: seq<Plan>, start: Seq16, k: nat, current: Seq16)
    requires StreamOk(ps) && k < |ps| && Wrap16(current + 1) == First(ps, start, k)
    ensures Wrap16(Wrap16(current + Count(ps[k])) + 1) == First(ps, start, k + 1)
  {
    hide UnitCount, Count, First;
    CountOfSendable(ps[k]);
    FirstAfter(ps, start, k);
    GoOn(current, First(ps, start, k), Units(ps[k]));
  }

  lemma GoOn(current: Seq16, first: Seq16, n: nat)
    requires Wrap16(current + 1) == first
    ensures Wrap16(Wrap16(current + n) + 1) == Wrap16(first + n)
  {
  }
}
