/** The receiving side of `CSotpRtpSource` as functions: frames are put together from packets
    (`PushRtpData`) and leave in order or by expiry, one per pass (`GetWholeFrame`). */
module RtpReceive {
  import opened Wrappers
  import opened Integers

  const SOTP_RTP_MAX_PACKETS_PER_FRAME: nat := 512
  const VIDEO: nat := 1
  const VIDEO_I: nat := 2

  /** `tagSotpRtpDataHead` in host byte order, without the room and source it names. */
  datatype Head = Head(
    sn: Seq16, nak: nat, dataType: nat, timestamp: U32, total: U32, unit: Seq16, index: Seq16)

  datatype Frame = Frame(
    head: Head, firstSeq: Seq16, number: Seq16, expireTime: U32, filled: seq<bool>, payload: seq<Byte>)

  /** `m_nWaitForFrameSeq` is -1 until a first frame is known. */
  datatype Receiver = Receiver(
    lastTimestamp: U32, waitSeq: int, waitKey: bool, lost: Seq16, frames: map<U32, Frame>)

  const INITIAL := Receiver(0, -1, false, 0, map[])

  // ---- Lengths ----

  function DataOffset(h: Head): nat {
    h.index * h.unit
  }

  /** The number of bytes the head says its packet carries. */
  function DataLength(h: Head): nat {
    var rest := Wrap32(h.total - DataOffset(h));
    if rest >= h.unit then h.unit else rest
  }

  /** The number of packets of the frame; without a unit length there is none. */
  function PacketNumber(h: Head): Seq16 {
    if h.unit == 0 then 0 else Wrap16(Wrap32(h.total + h.unit - 1) / h.unit)
  }

  /** How long a new frame waits: 900 ms, the distance to the last frame up to 900 ms more, and 100 ms for
      every two packets up to 4500 ms. The distance is taken as a signed 32-bit number and the sum of the
      first two as a signed 16-bit one. */
  function WaitTime(last: U32, ts: U32, number: Seq16): int {
    var distance := Signed32(if ts > last then ts - last else last - ts);
    Signed16(900 + Min(900, distance)) + Min(4500, number / 2 * 100)
  }

  function ExpireTime(last: U32, ts: U32, number: Seq16, now: U32): U32 {
    Wrap32(now + WaitTime(last, ts, number))
  }

  // ---- One packet ----

  function FreshFrame(r: Receiver, serverMode: bool, h: Head, now: U32, buffer: seq<Byte>): Frame {
    var number := PacketNumber(h);
    Frame(h, Wrap16(h.sn - h.index), number,
          if h.timestamp > 0 && !serverMode then ExpireTime(r.lastTimestamp, h.timestamp, number, now) else 0,
          seq(SOTP_RTP_MAX_PACKETS_PER_FRAME, _ => false),
          buffer)
  }

  /** A write past the buffer has no meaning in the source; here it writes nothing. */
  function Overwrite(buffer: seq<Byte>, at: nat, data: seq<Byte>): (s: seq<Byte>)
    ensures |s| == |buffer|
  {
    if at + |data| > |buffer| then buffer else buffer[..at] + data + buffer[at + |data|..]
  }

  /** A packet fills its place once, and only with as many bytes as its head says. */
  function Fill(f: Frame, h: Head, data: seq<Byte>): Frame {
    if h.index >= |f.filled| || f.filled[h.index] || |data| != DataLength(h) then f
    else f.(filled := f.filled[h.index := true], payload := Overwrite(f.payload, DataOffset(h), data))
  }

  /** Behind the last released frame by less than 0xFFFF. */
  predicate Stale(ts: U32, last: U32) {
    0 < ts < last && last - ts < 0xFFFF
  }

  /** `PushRtpData`. `buffer` is what the frame pool hands over for a new frame: at least one byte more
      than the total length, with arbitrary contents. */
  function Push(r: Receiver, serverMode: bool, h: Head, data: seq<Byte>, now: U32, buffer: seq<Byte>): Receiver {
    if h.index >= SOTP_RTP_MAX_PACKETS_PER_FRAME || Stale(h.timestamp, r.lastTimestamp) then r
    else
      var ts := h.timestamp;
      var f := if ts in r.frames then r.frames[ts] else FreshFrame(r, serverMode, h, now, buffer);
      var started := if ts > 0 && r.lastTimestamp == 0
        then r.(lastTimestamp := Wrap32(f.head.timestamp - 1), waitSeq := f.firstSeq) else r;
      started.(frames := started.frames[ts := Fill(f, h, data)])
  }

  /** The packet number tracking starts over after a silence of 20 seconds. */
  predicate RestartsTracking(r: Receiver, h: Head) {
    && h.index < SOTP_RTP_MAX_PACKETS_PER_FRAME && !Stale(h.timestamp, r.lastTimestamp)
    && h.timestamp > r.lastTimestamp && h.timestamp - r.lastTimestamp > 20 * 1000
  }

  /** What a packet does, by its numbers. One without a place in its frame, or behind the last release by less
      than 65535, does nothing; any other is kept under its timestamp. */
  lemma PacketKept(r: Receiver, serverMode: bool, h: Head, data: seq<Byte>, now: U32, buffer: seq<Byte>)
    ensures var next, ts, last := Push(r, serverMode, h, data, now, buffer), h.timestamp, r.lastTimestamp;
            var late := ts > 0 && 0 < last - ts < 65535;
            && (h.index >= 512 || late ==> next == r)
            && (h.index < 512 && !late ==>
                 && next.frames.Keys == r.frames.Keys + {ts}
                 && (forall t :: t in r.frames && t != ts ==> next.frames[t] == r.frames[t])
                 && next.waitKey == r.waitKey && next.lost == r.lost
                 && (if ts > 0 && last == 0 then next.lastTimestamp == Wrap32(next.frames[ts].head.timestamp - 1) && next.waitSeq == next.frames[ts].firstSeq
                     else next.lastTimestamp == last && next.waitSeq == r.waitSeq))
  {
    hide ExpireTime, PacketNumber;
  }

  /** The frame a first packet begins, and what a further packet adds to one: each place is filled once, by a
      packet with as many bytes as its head says. */
  lemma FrameKept(r: Receiver, serverMode: bool, h: Head, data: seq<Byte>, now: U32, buffer: seq<Byte>)
    requires h.index < 512 && !(h.timestamp > 0 && 0 < r.lastTimestamp - h.timestamp < 65535)
    requires h.timestamp in r.frames ==> |r.frames[h.timestamp].filled| == 512
    ensures h.timestamp in Push(r, serverMode, h, data, now, buffer).frames
    ensures var f, ts, fits := Push(r, serverMode, h, data, now, buffer).frames[h.timestamp], h.timestamp, |data| == DataLength(h);
            if ts !in r.frames then
              && f.head == h && f.firstSeq == (h.sn - h.index) % 65536 && f.number == PacketNumber(h)
              && f.expireTime == (if ts == 0 || serverMode then 0 else ExpireTime(r.lastTimestamp, ts, PacketNumber(h), now))
              && |f.filled| == 512 && (forall k :: 0 <= k < 512 ==> (f.filled[k] <==> k == h.index && fits))
              && f.payload == (if fits then Overwrite(buffer, DataOffset(h), data) else buffer)
            else
              var g := r.frames[ts];
              && (fits && !g.filled[h.index] ==>
                   f == g.(filled := f.filled, payload := Overwrite(g.payload, DataOffset(h), data))
                   && |f.filled| == 512 && forall k :: 0 <= k < 512 ==> (f.filled[k] <==> g.filled[k] || k == h.index))
              && (!fits || g.filled[h.index] ==> f == g)
  {
    hide ExpireTime, PacketNumber, DataLength, DataOffset, Overwrite;
  }

  /** The bytes of a packet go to their place, and to no other. */
  lemma OverwriteExactly(buffer: seq<Byte>, at: nat, data: seq<Byte>, k: nat)
    requires at + |data| <= |buffer| && k < |buffer|
    ensures Overwrite(buffer, at, data)[k] == if at <= k < at + |data| then data[k - at] else buffer[k]
  {
  }

  // ---- One pass over the frames ----

  predicate IsWhole(f: Frame) {
    f.number <= |f.filled| && forall i :: 0 <= i < f.number ==> f.filled[i]
  }

  /** A frame has at most 512 packets, and is whole if all of them have come. */
  lemma WholeExactly512(f: Frame)
    requires |f.filled| == 512
    ensures IsWhole(f) <==> f.number <= 512 && forall i :: 0 <= i < f.number ==> f.filled[i]
  {
  }

  lemma {:induction false} Smallest(s: set<int>, x: int) returns (k: int)
    requires x in s
    ensures k in s && forall j :: j in s ==> k <= j
    decreases |s|
  {
    k := x;
    var rest := s - {x};
    if y :| y in rest {
      var m := Smallest(rest, y);
      if m < x { k := m; }
    }
    forall j | j in s ensures k <= j {
      assert j == x || j in rest;
    }
  }

  lemma FirstExists(frames: map<U32, Frame>)
    requires frames != map[]
    ensures exists k :: k in frames.Keys && forall j :: j in frames.Keys ==> k <= j
  {
    var x :| x in frames;
    var k := Smallest(frames.Keys, x);
  }

  /** The key `begin()` points at. */
  function FirstKey(frames: map<U32, Frame>): (k: U32)
    requires frames != map[]
    ensures k in frames && forall j :: j in frames ==> k <= j
  {
    FirstExists(frames);
    var k :| k in frames.Keys && forall j :: j in frames.Keys ==> k <= j;
    k
  }

  datatype Way = Direct | InSequence | Expired

  /** A frame that leaves the receiver, and the lost count its callback reports. */
  datatype Released = Released(way: Way, frame: Frame, delivered: bool, lost: Seq16)

  datatype Pass = Idle | Took(r: Receiver, out: Released)

  predicate IsVideo(f: Frame) {
    f.head.dataType == VIDEO || f.head.dataType == VIDEO_I
  }

  predicate IsDirect(f: Frame) {
    f.head.timestamp == 0 && f.head.sn == 0 && IsWhole(f)
  }

  predicate IsNext(r: Receiver, f: Frame) {
    (r.waitSeq == -1 || Wrap16(r.waitSeq) == f.firstSeq) && IsWhole(f)
  }

  /** The receiver once `f` has left it as the frame to go on from. */
  function Past(r: Receiver, ts: U32, f: Frame): Receiver {
    r.(frames := r.frames - {ts}, lastTimestamp := f.head.timestamp, waitSeq := Wrap16(f.firstSeq + f.number))
  }

  /** One turn of the loop of `GetWholeFrame`. */
  function PollOnce(r: Receiver, now: U32): Pass
    requires r.frames != map[]
  {
    var ts := FirstKey(r.frames);
    var f := r.frames[ts];
    if IsDirect(f) then Took(r.(frames := r.frames - {ts}), Released(Direct, f, true, 0))
    else if IsNext(r, f) then
      var waitKey := r.waitKey && f.head.dataType != VIDEO_I;
      var past := Past(r, ts, f).(waitKey := waitKey);
      if !waitKey || f.head.dataType != VIDEO
      then Took(past.(lost := 0), Released(InSequence, f, true, r.lost))
      else Took(past, Released(InSequence, f, false, 0))
    else if f.expireTime < now then
      if !r.waitKey && IsWhole(f)
      then Took(Past(r, ts, f).(lost := 0), Released(Expired, f, true, r.lost))
      else Took(Past(r, ts, f).(lost := Wrap16(r.lost + 1), waitKey := IsVideo(f)), Released(Expired, f, false, 0))
    else Idle
  }

  /** Each pass that does not stop the loop removes the first frame. */
  lemma PassRemoves(r: Receiver, now: U32)
    requires r.frames != map[] && PollOnce(r, now).Took?
    ensures var ts := FirstKey(r.frames);
            && PollOnce(r, now).r.frames == r.frames - {ts} && PollOnce(r, now).out.frame == r.frames[ts]
            && |PollOnce(r, now).r.frames| < |r.frames|
  {
    hide IsWhole;
    var ts := FirstKey(r.frames);
    assert r.frames.Keys == (r.frames - {ts}).Keys + {ts};
  }

  /** Between timestamps less than 2^31 apart that is at least 900 ms and at most 6300 ms. */
  lemma WaitBounds(last: U32, ts: U32, number: Seq16)
    requires -0x8000_0000 < ts - last < 0x8000_0000
    ensures 900 <= WaitTime(last, ts, number) <= 6300
    ensures WaitTime(last, ts, number) ==
      900 + Min(900, if ts > last then ts - last else last - ts) + Min(4500, number / 2 * 100)
  {
  }

  predicate ExpiredBy(last: U32, ts: U32, number: Seq16, now: U32, later: U32) {
    ExpireTime(last, ts, number, now) < later
  }

  /** No moment of the 900 ms after `now` is past the time the frame expires. */
  ghost predicate Grace(last: U32, ts: U32, number: Seq16, now: U32) {
    forall later: U32 :: now <= later <= now + 900 ==> !ExpiredBy(last, ts, number, now, later)
  }

  /** A new frame has its 900 ms if and only if its time to wait is that long and the clock does not wrap
      within it; or a negative one wraps below 0; or it expires with the last tick of the clock. */
  lemma GraceExactly(last: U32, ts: U32, number: Seq16, now: U32)
    ensures Grace(last, ts, number, now) <==>
      var w := WaitTime(last, ts, number);
      now + w < 0 || (900 <= w && now + w < TWO32) || (0 <= w && now + w == TWO32 - 1)
  {
    var w := WaitTime(last, ts, number);
    WaitInRange(last, ts, number);
    hide WaitTime;
    if 0 <= w < 900 && now + w < TWO32 - 1 {
      var later: U32 := now + w + 1;
      assert ExpiredBy(last, ts, number, now, later);
    } else if (w < 0 && now + w >= 0) || now + w >= TWO32 {
      assert ExpiredBy(last, ts, number, now, now);
    }
  }

  lemma WaitInRange(last: U32, ts: U32, number: Seq16)
    ensures -0x8000 <= WaitTime(last, ts, number) < 0x8000 + 4500
  {
  }

  /** The first packet of a frame sets the time it expires; the first frame leaves by expiry exactly if that
      is past and it is not next in sequence. */
  lemma FrameExpires(r: Receiver, h: Head, data: seq<Byte>, now: U32, buffer: seq<Byte>, later: U32)
    requires h.timestamp > 0 && h.timestamp !in r.frames && !Stale(h.timestamp, r.lastTimestamp)
    requires h.index < SOTP_RTP_MAX_PACKETS_PER_FRAME
    ensures var next := Push(r, false, h, data, now, buffer);
            && next.frames != map[]
            && (FirstKey(next.frames) == h.timestamp ==>
                  (PollOnce(next, later).Took? && PollOnce(next, later).out.way == Expired
                   <==> !IsNext(next, next.frames[h.timestamp])
                        && ExpiredBy(r.lastTimestamp, h.timestamp, PacketNumber(h), now, later)))
  {
    hide ExpireTime, IsWhole, FirstKey, PacketNumber, Past;
    var next := Push(r, false, h, data, now, buffer);
    assert h.timestamp in next.frames;
  }

  predicate ClosesGate(x: Released) {
    x.way == Expired && !x.delivered && IsVideo(x.frame)
  }

  predicate OpensGate(x: Released) {
    || (x.way == InSequence && x.frame.head.dataType == VIDEO_I)
    || (x.way == Expired && !x.delivered && !IsVideo(x.frame))
  }

  /** A delta video frame with a timestamp, on its way to the callback. */
  predicate DeltaDelivered(x: Released) {
    x.delivered && x.way != Direct && x.frame.head.dataType == VIDEO
  }

  /** What a pass does to the counters, told by what it releases. */
  lemma PassEffect(r: Receiver, now: U32)
    requires r.frames != map[] && PollOnce(r, now).Took?
    ensures var next, out := PollOnce(r, now).r, PollOnce(r, now).out;
            && next.lastTimestamp == (if out.way == Direct then r.lastTimestamp else out.frame.head.timestamp)
            && next.waitKey == (if ClosesGate(out) then true else if OpensGate(out) then false else r.waitKey)
            && (DeltaDelivered(out) ==> !r.waitKey)
            && (out.delivered ==> IsWhole(out.frame))
            && (out.way == Direct ==> out.frame.head.timestamp == 0)
            && (out.way == Expired && !out.delivered ==> out.lost == 0 && next.lost == Wrap16(r.lost + 1))
            && (out.way != Expired || out.delivered ==> out.lost + next.lost == r.lost)
  {
    hide IsWhole;
  }

  /** What a release does to the awaited number and to the lost count, gate open or closed. */
  lemma ReleaseCounts(r: Receiver, now: U32)
    requires r.frames != map[] && PollOnce(r, now).Took?
    ensures var next, out := PollOnce(r, now).r, PollOnce(r, now).out;
            && next.waitSeq == (if out.way == Direct then r.waitSeq else (out.frame.firstSeq + out.frame.number) % 65536)
            && (out.way == Direct || !out.delivered ==> out.lost == 0)
            && (out.way != Direct && out.delivered ==> out.lost == r.lost && next.lost == 0)
            && (out.way == Direct || (out.way == InSequence && !out.delivered) ==> next.lost == r.lost)
  {
    hide IsWhole;
  }

  /** Which release the first frame gets, told by its fields: 1 is a delta frame of a video and 2 a key
      frame. */
  lemma PassExactly(r: Receiver, now: U32)
    requires r.frames != map[]
    ensures var f, pass := r.frames[FirstKey(r.frames)], PollOnce(r, now);
            var whole, due := IsWhole(f), r.waitSeq == -1 || f.firstSeq == r.waitSeq % 65536;
            var bare, video := f.head.timestamp == 0 && f.head.sn == 0, f.head.dataType == 1 || f.head.dataType == 2;
            && (pass.Took? <==> (whole && (bare || due)) || f.expireTime < now)
            && (pass.Took? ==>
                  if whole && bare then pass.out.way == Direct && pass.out.delivered && pass.r.waitKey == r.waitKey
                  else if whole && due then
                    && pass.out.way == InSequence && pass.out.delivered == (!r.waitKey || f.head.dataType != 1)
                    && pass.r.waitKey == (r.waitKey && f.head.dataType != 2)
                  else
                    && pass.out.way == Expired && pass.out.delivered == (whole && !r.waitKey)
                    && pass.r.waitKey == (!pass.out.delivered && video))
  {
    hide IsWhole;
  }

  // ---- Runs ----

  /** Packets and passes in any order. A call of `GetWholeFrame` is a row of passes, between which
      other packets may arrive. */
  datatype Event =
    | Packet(head: Head, data: seq<Byte>, pushTime: U32, buffer: seq<Byte>)
    | Poll(pollTime: U32)

  datatype Run = Run(r: Receiver, trace: seq<Released>)

  function Step(run: Run, serverMode: bool, e: Event): Run {
    match e
    case Packet(h, data, now, buffer) => run.(r := Push(run.r, serverMode, h, data, now, buffer))
    case Poll(now) =>
      if run.r.frames == map[] then run
      else match PollOnce(run.r, now)
        case Idle => run
        case Took(r, out) => Run(r, run.trace + [out])
  }

  function RunOf(serverMode: bool, es: seq<Event>): Run {
    if es == [] then Run(INITIAL, []) else Step(RunOf(serverMode, es[..|es| - 1]), serverMode, es[|es| - 1])
  }

  // ---- Only whole frames, in order ----

  ghost predicate WholeOnly(trace: seq<Released>) {
    forall i :: 0 <= i < |trace| && trace[i].delivered ==> IsWhole(trace[i].frame)
  }

  /** No frame is released that lies behind the one released just before it by less than 0xFFFF. */
  ghost predicate NeverStale(trace: seq<Released>) {
    forall i :: 0 < i < |trace| ==> !Stale(trace[i].frame.head.timestamp, trace[i - 1].frame.head.timestamp)
  }

  /** What holds between releases: frames are kept under their own timestamps, none of them is behind
      the last release, and the last release is the one at the end of the trace. */
  ghost predicate Ordered(run: Run) {
    && (forall ts :: ts in run.r.frames ==> ts > 1 && run.r.frames[ts].head.timestamp == ts)
    && (forall ts :: ts in run.r.frames ==> !Stale(ts, run.r.lastTimestamp))
    && (run.r.lastTimestamp == 0 ==> run.r.frames == map[] && run.trace == [])
    && (run.trace != [] ==> run.r.lastTimestamp == run.trace[|run.trace| - 1].frame.head.timestamp)
    && WholeOnly(run.trace) && NeverStale(run.trace)
  }

  ghost predicate TimestampsAboveOne(es: seq<Event>) {
    forall i :: 0 <= i < |es| && es[i].Packet? ==> es[i].head.timestamp > 1
  }

  lemma OrderedPush(run: Run, serverMode: bool, h: Head, data: seq<Byte>, now: U32, buffer: seq<Byte>)
    requires Ordered(run) && h.timestamp > 1
    ensures Ordered(run.(r := Push(run.r, serverMode, h, data, now, buffer)))
  {
    hide IsWhole, FreshFrame, WholeOnly, NeverStale;
    FreshFrameHead(run.r, serverMode, h, now, buffer);
  }

  lemma OrderedPoll(run: Run, now: U32)
    requires Ordered(run) && run.r.frames != map[] && PollOnce(run.r, now).Took?
    ensures Ordered(Run(PollOnce(run.r, now).r, run.trace + [PollOnce(run.r, now).out]))
  {
    hide IsWhole, PollOnce;
    PassRemoves(run.r, now);
    PassEffect(run.r, now);
  }

  lemma OrderedStep(run: Run, serverMode: bool, e: Event)
    requires Ordered(run) && (e.Packet? ==> e.head.timestamp > 1)
    ensures Ordered(Step(run, serverMode, e))
  {
    hide Ordered, Push, PollOnce;
    match e
    case Packet(h, data, now, buffer) => OrderedPush(run, serverMode, h, data, now, buffer);
    case Poll(now) =>
      if run.r.frames != map[] && PollOnce(run.r, now).Took? {
        OrderedPoll(run, now);
      }
  }

  lemma FreshFrameHead(r: Receiver, serverMode: bool, h: Head, now: U32, buffer: seq<Byte>)
    ensures FreshFrame(r, serverMode, h, now, buffer).head == h
  {
  }

  /** Over every run with timestamps above 1, whatever is lost, reordered or repeated: only whole
      frames are delivered, and no frame is released behind the one before it by less than 0xFFFF. */
  lemma {:induction false} OrderedDelivery(serverMode: bool, es: seq<Event>)
    requires TimestampsAboveOne(es)
    ensures Ordered(RunOf(serverMode, es))
  {
    if es != [] {
      var before := es[..|es| - 1];
      forall i | 0 <= i < |before| && before[i].Packet? ensures before[i].head.timestamp > 1 {
        assert before[i] == es[i];
      }
      OrderedDelivery(serverMode, before);
      OrderedStep(RunOf(serverMode, before), serverMode, es[|es| - 1]);
    }
  }

  // ---- Lost frames are counted ----

  function Reported(trace: seq<Released>): nat {
    if trace == [] then 0 else Reported(trace[..|trace| - 1]) + trace[|trace| - 1].lost
  }

  function ExpiredUndelivered(trace: seq<Released>): nat {
    if trace == [] then 0
    else ExpiredUndelivered(trace[..|trace| - 1])
         + if trace[|trace| - 1].way == Expired && !trace[|trace| - 1].delivered then 1 else 0
  }

  predicate Balanced(reported: nat, pending: Seq16, expired: nat) {
    (reported + pending) % 65536 == expired % 65536
  }

  lemma BalanceCounts(reported: nat, pending: Seq16, expired: nat)
    requires Balanced(reported, pending, expired)
    ensures Balanced(reported, Wrap16(pending + 1), expired + 1)
  {
  }

  lemma BalanceMoves(reported: nat, pending: Seq16, expired: nat, told: nat, left: Seq16)
    requires Balanced(reported, pending, expired) && told + left == pending
    ensures Balanced(reported + told, left, expired)
  {
  }

  lemma LossStep(run: Run, serverMode: bool, e: Event)
    requires Balanced(Reported(run.trace), run.r.lost, ExpiredUndelivered(run.trace))
    ensures var next := Step(run, serverMode, e);
            Balanced(Reported(next.trace), next.r.lost, ExpiredUndelivered(next.trace))
  {
    hide IsWhole, FreshFrame, PollOnce, IsVideo, Wrap16, Balanced;
    var next := Step(run, serverMode, e);
    if e.Poll? && run.r.frames != map[] && PollOnce(run.r, e.pollTime).Took? {
      var out := PollOnce(run.r, e.pollTime).out;
      PassEffect(run.r, e.pollTime);
      assert next.trace[..|run.trace|] == run.trace;
      if out.way == Expired && !out.delivered {
        BalanceCounts(Reported(run.trace), run.r.lost, ExpiredUndelivered(run.trace));
      } else {
        BalanceMoves(Reported(run.trace), run.r.lost, ExpiredUndelivered(run.trace), out.lost, next.r.lost);
      }
    }
  }

  /** Over every run the lost counts reported and the one pending add up to the number of frames that
      expired undelivered, modulo 2^16. */
  lemma {:induction false} LossAccounted(serverMode: bool, es: seq<Event>)
    ensures var run := RunOf(serverMode, es);
            (Reported(run.trace) + run.r.lost) % 65536 == ExpiredUndelivered(run.trace) % 65536
  {
    hide Step;
    if es != [] {
      LossAccounted(serverMode, es[..|es| - 1]);
      LossStep(RunOf(serverMode, es[..|es| - 1]), serverMode, es[|es| - 1]);
    }
  }

  // ---- The key frame gate ----

  /** The gate as the trace of releases tells it. */
  predicate Gate(trace: seq<Released>) {
    if trace == [] then false
    else if ClosesGate(trace[|trace| - 1]) then true
    else if OpensGate(trace[|trace| - 1]) then false
    else Gate(trace[..|trace| - 1])
  }

  ghost predicate GateKept(run: Run) {
    && run.r.waitKey == Gate(run.trace)
    && forall i :: 0 <= i < |run.trace| && DeltaDelivered(run.trace[i]) ==> !Gate(run.trace[..i])
  }

  lemma GateStep(run: Run, serverMode: bool, e: Event)
    requires GateKept(run)
    ensures GateKept(Step(run, serverMode, e))
  {
    hide IsWhole, FreshFrame, PollOnce, ClosesGate, OpensGate, DeltaDelivered;
    var next := Step(run, serverMode, e);
    if e.Poll? && run.r.frames != map[] && PollOnce(run.r, e.pollTime).Took? {
      PassEffect(run.r, e.pollTime);
    }
    if next.trace != run.trace {
      var n := |run.trace|;
      assert next.trace[..n] == run.trace;
      forall i | 0 <= i < |next.trace| && DeltaDelivered(next.trace[i]) ensures !Gate(next.trace[..i]) {
        if i < n {
          assert next.trace[..i] == run.trace[..i];
        }
      }
    }
  }

  lemma {:induction false} GateOverRuns(serverMode: bool, es: seq<Event>)
    ensures GateKept(RunOf(serverMode, es))
  {
    if es != [] {
      GateOverRuns(serverMode, es[..|es| - 1]);
      GateStep(RunOf(serverMode, es[..|es| - 1]), serverMode, es[|es| - 1]);
    }
  }

  lemma {:induction false} GateStaysClosed(trace: seq<Released>, i: nat)
    requires i < |trace| && ClosesGate(trace[i])
    requires forall m :: i < m < |trace| ==> !OpensGate(trace[m])
    ensures Gate(trace)
  {
    var n := |trace| - 1;
    if i < n {
      GateStaysClosed(trace[..n], i);
    }
  }

  /** After a video frame expires undelivered, no delta video frame with a timestamp is delivered
      before a key frame passes in sequence or a frame that is not video expires. */
  lemma KeyFrameGate(serverMode: bool, es: seq<Event>, i: nat, j: nat)
    requires var trace := RunOf(serverMode, es).trace;
             i < j < |trace| && ClosesGate(trace[i]) && DeltaDelivered(trace[j])
    ensures var trace := RunOf(serverMode, es).trace;
            exists m :: i < m < j && OpensGate(trace[m])
  {
    var trace := RunOf(serverMode, es).trace;
    GateOverRuns(serverMode, es);
    if forall m :: i < m < j ==> !OpensGate(trace[m]) {
      forall m | i < m < |trace[..j]| ensures !OpensGate(trace[..j][m]) {
        assert trace[..j][m] == trace[m];
      }
      GateStaysClosed(trace[..j], i);
    }
  }

  // ---- The awaited number ----

  /** The head of the first packet that has a place in its frame. */
  function FirstHead(es: seq<Event>): Option<Head> {
    if es == [] then None
    else if FirstHead(es[..|es| - 1]).Some? then FirstHead(es[..|es| - 1])
    else
      var e := es[|es| - 1];
      if e.Packet? && e.head.index < 512 then Some(e.head) else None
  }

  /** With timestamps above 1 the awaited number is always the one behind the last release, delivered or
      not; before the first release it is the first number of the frame of the first packet, and the
      last timestamp the one before that of the frame. */
  ghost predicate Awaits(es: seq<Event>, run: Run) {
    if run.trace != [] then
      var f := run.trace[|run.trace| - 1].frame;
      run.r.lastTimestamp > 1 && run.r.waitSeq == (f.firstSeq + f.number) % 65536 && run.r.lastTimestamp == f.head.timestamp
    else match FirstHead(es)
      case None => run.r.lastTimestamp == 0 && run.r.waitSeq == -1 && run.r.frames == map[]
      case Some(h) => run.r.lastTimestamp == h.timestamp - 1 >= 1 && run.r.waitSeq == (h.sn - h.index) % 65536
  }

  lemma AwaitsPush(es: seq<Event>, run: Run, serverMode: bool, e: Event)
    requires e.Packet? && e.head.timestamp > 1 && Awaits(es, run)
    ensures Awaits(es + [e], Step(run, serverMode, e))
  {
    hide Fill, ExpireTime, PacketNumber;
    assert (es + [e])[..|es|] == es;
  }

  lemma AwaitsPoll(es: seq<Event>, run: Run, serverMode: bool, e: Event)
    requires e.Poll? && Ordered(run) && Awaits(es, run)
    ensures Awaits(es + [e], Step(run, serverMode, e))
  {
    hide IsWhole, PollOnce, WholeOnly, NeverStale;
    assert (es + [e])[..|es|] == es;
    if run.r.frames != map[] && PollOnce(run.r, e.pollTime).Took? {
      ReleaseCounts(run.r, e.pollTime);
      PassEffect(run.r, e.pollTime);
      PassRemoves(run.r, e.pollTime);
    }
  }

  lemma {:induction false} AwaitedOverRuns(serverMode: bool, es: seq<Event>)
    requires TimestampsAboveOne(es)
    ensures Awaits(es, RunOf(serverMode, es))
  {
    hide Step, Ordered, Awaits, FirstHead;
    if es == [] {
      NothingAwaited();
    } else {
      var before, e := es[..|es| - 1], es[|es| - 1];
      assert before + [e] == es;
      forall i | 0 <= i < |before| && before[i].Packet? ensures before[i].head.timestamp > 1 {
        assert before[i] == es[i];
      }
      AwaitedOverRuns(serverMode, before);
      OrderedDelivery(serverMode, before);
      if e.Packet? {
        AwaitsPush(before, RunOf(serverMode, before), serverMode, e);
      } else {
        AwaitsPoll(before, RunOf(serverMode, before), serverMode, e);
      }
    }
  }

  lemma NothingAwaited()
    ensures Awaits([], Run(INITIAL, []))
  {
  }

  /** The key frame that ends a video gap is never missed: whole delta frames in sequence are dropped, each
      moving the awaited number on, and the whole key frame next in number behind them is delivered with
      the lost count and opens the gate. */
  ghost predicate DeltasThenKey(fs: seq<Frame>, first: Seq16) {
    fs != [] && fs[0].firstSeq == first && IsWhole(fs[0]) && fs[0].head.timestamp > 1
    && if |fs| == 1 then fs[0].head.dataType == 2
       else
         && fs[0].head.dataType == 1 && fs[0].head.timestamp < fs[1].head.timestamp
         && DeltasThenKey(fs[1..], Wrap16(first + fs[0].number))
  }

  /** The first frames of the receiver are `fs`. */
  ghost predicate Begins(frames: map<U32, Frame>, fs: seq<Frame>) {
    && (forall i :: 0 <= i < |fs| ==> fs[i].head.timestamp in frames && frames[fs[i].head.timestamp] == fs[i])
    && (forall i, j :: 0 <= i < j < |fs| ==> fs[i].head.timestamp < fs[j].head.timestamp)
    && (forall ts :: ts in frames ==> (exists i :: 0 <= i < |fs| && fs[i].head.timestamp == ts)
                                      || fs == [] || fs[|fs| - 1].head.timestamp < ts)
  }

  function Polls(times: seq<U32>, run: Run): Run {
    if times == [] then run else Polls(times[1..], Step(run, false, Poll(times[0])))
  }

  function Dropped(fs: seq<Frame>): (trace: seq<Released>)
    ensures |trace| == |fs|
  {
    seq(|fs|, i requires 0 <= i < |fs| => Released(InSequence, fs[i], false, 0))
  }

  lemma {:induction false} BeginsAt(frames: map<U32, Frame>, fs: seq<Frame>)
    requires Begins(frames, fs) && fs != []
    ensures var ts := fs[0].head.timestamp;
            && ts in frames && frames[ts] == fs[0] && FirstKey(frames) == ts
            && forall i :: 0 < i < |fs| ==> fs[i].head.timestamp != ts
  {
    assert fs[0].head.timestamp in frames;
  }

  lemma {:induction false} BeginsRest(frames: map<U32, Frame>, fs: seq<Frame>)
    requires Begins(frames, fs) && fs != []
    ensures Begins(frames - {fs[0].head.timestamp}, fs[1..])
  {
    var first := fs[0].head.timestamp;
    forall ts | ts in frames - {first}
      ensures (exists i :: 0 <= i < |fs[1..]| && fs[1..][i].head.timestamp == ts) || fs[1..] == [] || fs[1..][|fs[1..]| - 1].head.timestamp < ts
    {
      if i :| 0 <= i < |fs| && fs[i].head.timestamp == ts {
        assert fs[1..][i - 1] == fs[i];
      }
    }
  }

  /** One pass of it. */
  lemma {:induction false} PassOnFirst(run: Run, fs: seq<Frame>, now: U32)
    requires run.r.waitKey && 0 <= run.r.waitSeq < 65536
    requires DeltasThenKey(fs, run.r.waitSeq) && Begins(run.r.frames, fs)
    ensures var next, f := Step(run, false, Poll(now)), fs[0];
            && Begins(next.r.frames, fs[1..]) && next.r.waitSeq == Wrap16(f.firstSeq + f.number)
            && if |fs| == 1 then !next.r.waitKey && next.r.lost == 0 && next.trace == run.trace + [Released(InSequence, f, true, run.r.lost)]
               else next.r.waitKey && next.r.lost == run.r.lost && next.trace == run.trace + [Released(InSequence, f, false, 0)]
  {
    hide PollOnce, IsWhole, Begins;
    BeginsAt(run.r.frames, fs);
    BeginsRest(run.r.frames, fs);
    PassExactly(run.r, now);
    PassRemoves(run.r, now);
    ReleaseCounts(run.r, now);
  }

  lemma {:induction false} KeyFrameRecovers(run: Run, fs: seq<Frame>, times: seq<U32>)
    requires run.r.waitKey && 0 <= run.r.waitSeq < 65536 && |times| == |fs|
    requires DeltasThenKey(fs, run.r.waitSeq) && Begins(run.r.frames, fs)
    ensures var after, n := Polls(times, run), |fs| - 1;
            && after.trace == run.trace + Dropped(fs[..n]) + [Released(InSequence, fs[n], true, run.r.lost)]
            && !after.r.waitKey && after.r.lost == 0 && after.r.waitSeq == Wrap16(fs[n].firstSeq + fs[n].number)
    decreases |fs|
  {
    hide Step, IsWhole, Begins;
    PassOnFirst(run, fs, times[0]);
    var next, f, n := Step(run, false, Poll(times[0])), fs[0], |fs| - 1;
    if |fs| == 1 {
      assert times[1..] == [] && run.trace + Dropped(fs[..0]) == run.trace;
    } else {
      KeyFrameRecovers(next, fs[1..], times[1..]);
      assert fs[1..][..n - 1] == fs[..n][1..] && fs[1..][n - 1] == fs[n];
      assert Dropped(fs[..n]) == [Released(InSequence, f, false, 0)] + Dropped(fs[..n][1..]);
    }
  }
}
