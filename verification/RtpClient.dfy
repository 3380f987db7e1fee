/** A client's source as packets and passes drive it (`doRtpData` and the poll loop): the tracking of missed
    packets and the frames together. A packet goes through both, and the second can start the first
    over. */
module RtpClient {
  import opened Integers
  import opened RtpLostSeq
  import opened RtpMissed
  import opened RtpReceive
  import opened RtpSource
  import opened SotpRtpFrame

  datatype Client = Client(tracker: Tracker, run: Run)

  function ArrivalOf(h: Head): Arrival {
    Arrival(h.sn, h.timestamp, h.nak)
  }

  function ClientStep(c: Client, e: Event): Client {
    match e
    case Packet(h, _, _, _) =>
      var t := Calculate(c.tracker, ArrivalOf(h)).0;
      Client(if RestartsTracking(c.run.r, h) then t.(lastPacketSeq := -1) else t, Step(c.run, false, e))
    case Poll(_) => c.(run := Step(c.run, false, e))
  }

  function ClientAfter(es: seq<Event>): Client {
    if es == [] then Client(Fresh(false), Run(INITIAL, [])) else ClientStep(ClientAfter(es[..|es| - 1]), es[|es| - 1])
  }

  /** What the tracking hears of the events. */
  function HeardIn(es: seq<Event>): seq<Heard> {
    if es == [] then []
    else
      var before, e := es[..|es| - 1], es[|es| - 1];
      match e
      case Packet(h, _, _, _) =>
        HeardIn(before) + [Came(ArrivalOf(h))] + if RestartsTracking(RunOf(false, before).r, h) then [Restarted] else []
      case Poll(_) => HeardIn(before)
  }

  lemma AfterOne(t: Tracker, hs: seq<Heard>, h: Heard)
    ensures After(t, hs + [h]) == Hear(After(t, hs), h)
  {
    assert (hs + [h])[..|hs|] == hs;
  }

  /** So every run of a client is a run of either part. */
  lemma {:induction false} ClientRuns(es: seq<Event>)
    ensures ClientAfter(es).run == RunOf(false, es)
    ensures ClientAfter(es).tracker == After(Fresh(false), HeardIn(es))
  {
    hide Step, Calculate, After;
    if es == [] {
      EmptyRun(Fresh(false));
    } else {
      var before, e := es[..|es| - 1], es[|es| - 1];
      ClientRuns(before);
      if e.Packet? {
        var heard := HeardIn(before);
        var came := heard + [Came(ArrivalOf(e.head))];
        AfterOne(Fresh(false), heard, Came(ArrivalOf(e.head)));
        AfterOne(Fresh(false), came, Restarted);
        assert came + [] == came;
      }
    }
  }

  lemma EmptyRun(t: Tracker)
    ensures After(t, []) == t
  {
  }

  /** Over every run of a client, whatever frames come and go and however often the tracking starts over:
      every single gap recorded is filled, requested once, or still held. */
  lemma ClientGapsConserved(es: seq<Event>, x: Seq16)
    ensures var t, hs := Fresh(false), HeardIn(es);
            TimesRecorded(t, hs, x) == TimesFilled(t, hs, x) + Asked(AllOwnNaks(t, hs), x) + Held(ClientAfter(es).tracker, x)
  {
    hide ClientAfter, HeardIn, TimesRecorded, TimesFilled, AllOwnNaks, Asked, Held, RtpMissed.Valid, Fresh;
    ClientRuns(es);
    NothingHeld(false, x);
    GapsConserved(Fresh(false), HeardIn(es), x);
  }

  /** The tracking starts over with the very first packet if its timestamp is above 20 seconds. */
  lemma FirstPacketRestarts(h: Head)
    ensures RestartsTracking(INITIAL, h) <==> h.index < SOTP_RTP_MAX_PACKETS_PER_FRAME && h.timestamp > 20 * 1000
  {
  }

  /** At any time exactly the packets more than 20 seconds ahead of the last release start it over. */
  lemma RestartsExactly(c: Client, e: Event)
    requires e.Packet?
    ensures var next := ClientStep(c, e).tracker;
            if e.head.index < 512 && e.head.timestamp > c.run.r.lastTimestamp + 20000
            then next == Calculate(c.tracker, ArrivalOf(e.head)).0.(lastPacketSeq := -1)
            else next == Calculate(c.tracker, ArrivalOf(e.head)).0
  {
    hide Calculate;
  }

  /** After that nothing before the next packet counts as missing. */
  lemma RestartForgets(t: Tracker, p: Arrival, x: Seq16)
    requires RtpMissed.Valid(t) && t.lastPacketSeq == -1
    ensures Recorded(t, p, x) == 0
    ensures OwnNaks(t, p) == if Ignored(p) then [] else LookAtHeld(t, p).naks
  {
    hide LookAtHeld, Batch, ListGap;
    LookLeaves(t, p);
    BatchLeaves(LookAtHeld(t, p).t, p);
    assert LookAtHeld(t, p).naks + [] == LookAtHeld(t, p).naks;
  }

  /** `doRtpData` on the source a packet is for. */
  method DoRtpData(source: Source, h: Head, data: seq<Byte>, now: U32) returns (naks: seq<Nak>, ghost buffer: seq<Byte>)
    requires source.Valid() && !source.serverMode
    modifies source`lastTimestamp, source`waitSeq, source`lastPacketSeq, source`lastExpectSeq, source`lastExpect1,
             source`lastExpect2, source.lostSeqInfo2, source.frames, source.frames.repr
    ensures source.Valid() && fresh(source.frames.repr - old(source.frames.repr))
    ensures naks == Calculate(old(source.Tracking()), ArrivalOf(h)).1
    ensures Client(source.Tracking(), Run(source.Receiving(), [])) ==
      ClientStep(Client(old(source.Tracking()), Run(old(source.Receiving()), [])), Packet(h, data, now, buffer))
  {
    hide Calculate, Push, FrameTable.Valid;
    naks := source.CaculateMissedPackets(ArrivalOf(h));
    buffer := source.PushRtpData(h, data, now);
  }
}
