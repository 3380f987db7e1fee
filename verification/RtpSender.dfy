/** `doSendRtpData`: a frame is cut into numbered packets, each kept for resending and sent; and what a
    receiver that misses some of them gets back. */
module RtpSender {
  import opened Integers
  import opened RtpReceive
  import opened RtpRing
  import opened RtpStream
  import opened RtpWire
  import opened RtpSource

  /** The number of packets, cut to 16 bits as the source does. */
  function Count(p: Plan): Seq16
    requires p.unit > 0
  {
    Wrap16(Wrap32(|p.payload| + p.unit - 1) / p.unit)
  }

  predicate Accepts(p: Plan)
    requires p.unit > 0
  {
    |p.payload| != 0 && Count(p) < SOTP_RTP_MAX_PACKETS_PER_FRAME
  }

  lemma CountBound(p: Plan)
    requires p.unit > 0 && |p.payload| < TWO32
    ensures Count(p) <= Units(p)
    ensures |p.payload| + p.unit <= TWO32 && Units(p) < 65536 ==> Count(p) == Units(p)
  {
    var n, u := |p.payload| + p.unit - 1, p.unit as int;
    WrapLess(n);
    DivideMonotone(Wrap32(n), n, u);
  }

  lemma WrapLess(n: nat)
    ensures Wrap32(n) <= n && (n < TWO32 ==> Wrap32(n) == n)
  {
  }

  lemma DivideMonotone(a: nat, b: nat, u: nat)
    requires a <= b && u > 0
    ensures a / u <= b / u
  {
    var x, y := a / u, b / u;
    assert a == x * u + a % u && b == y * u + b % u;
    if y < x {
      Ordered2(y, x, u);
    }
  }

  /** The last packet gets the remainder. */
  function CutSize(p: Plan, i: nat): nat
    requires p.unit > 0
  {
    if i + 1 == Count(p) then |p.payload| % p.unit else p.unit
  }

  function CutData(p: Plan, i: nat): (s: seq<Byte>)
    requires p.unit > 0 && |p.payload| < TWO32 && i < Count(p)
    ensures |s| == CutSize(p, i)
  {
    CutInside(p, i);
    p.payload[i * p.unit..i * p.unit + CutSize(p, i)]
  }

  lemma CutInside(p: Plan, i: nat)
    requires p.unit > 0 && |p.payload| < TWO32 && i < Count(p)
    ensures 0 <= i * p.unit <= i * p.unit + CutSize(p, i) <= |p.payload|
  {
    hide Count, UnitCount;
    var n, u := |p.payload|, p.unit as int;
    CountBound(p);
    EmptyHasNone(p);
    RestOfUnit(n, u, i);
    RemainderOfLast(n, u);
    LessOne(Units(p), u);
    Smaller(n, u);
  }

  lemma EmptyHasNone(p: Plan)
    requires p.unit > 0 && Units(p) > 0
    ensures |p.payload| > 0
  {
    if |p.payload| == 0 {
      QuotientUnique(p.unit - 1, p.unit, 0, p.unit - 1);
    }
  }

  lemma Smaller(n: nat, u: nat)
    requires u > 0
    ensures 0 <= n % u < u
  {
  }

  /** A frame without a timestamp carries no packet numbers. */
  function CutHead(p: Plan, first: Seq16, i: Seq16): Head {
    SentHead(p, first, i).(sn := if p.timestamp == 0 then 0 else Wrap16(first + i))
  }

  function Cut(p: Plan, room: U64, source: U64, first: Seq16, i: Seq16): Datagram
    requires p.unit > 0 && |p.payload| < TWO32 && i < Count(p)
  {
    Datagram(WireHead(room, source, CutHead(p, first, i)), CutData(p, i))
  }

  /** For a payload the receiver can hold, these are the packets the receiver's theorems speak of. */
  lemma CutIsSent(p: Plan, room: U64, source: U64, first: Seq16, i: Seq16)
    requires Sendable(p) && p.timestamp > 0 && |p.payload| < TWO32 && i < Count(p)
    ensures i < Units(p)
    ensures Cut(p, room, source, first, i) == Datagram(Addressed(room, source, p, first, i), SentData(p, i))
  {
    hide Count, UnitCount;
    CountBound(p);
    ExpectedLength(p, first, i);
  }

  function MsgOf(d: Datagram): Msg<Datagram> {
    Msg(d.head.head.sn, d.head.head.timestamp, d)
  }

  function PutAll<D>(ring: Ring<D>, ms: seq<Msg<D>>): Ring<D> {
    if ms == [] then ring else Put(PutAll(ring, ms[..|ms| - 1]), ms[|ms| - 1])
  }

  lemma {:induction false} PutAllExtends<D>(h: seq<Msg<D>>, ms: seq<Msg<D>>)
    ensures PutAll(RingAfter(h), ms) == RingAfter(h + ms)
  {
    if ms == [] {
      assert h + ms == h;
    } else {
      PutAllExtends(h, ms[..|ms| - 1]);
      assert (h + ms)[..|h + ms| - 1] == h + ms[..|ms| - 1];
    }
  }

  /** The first `n` packets. */
  function Packets(p: Plan, room: U64, source: U64, first: Seq16, n: nat): (s: seq<Datagram>)
    requires p.unit > 0 && |p.payload| < TWO32 && n <= Count(p)
    ensures |s| == n
  {
    seq(n, i requires 0 <= i < n => Cut(p, room, source, first, i))
  }

  /** What is stored for resending: nothing for a frame without a timestamp. */
  function Kept(p: Plan, packets: seq<Datagram>): (s: seq<Msg<Datagram>>) {
    if p.timestamp == 0 then [] else seq(|packets|, i requires 0 <= i < |packets| => MsgOf(packets[i]))
  }

  lemma KeptGrows(p: Plan, packets: seq<Datagram>, d: Datagram, ring: Ring<Datagram>)
    ensures PutAll(ring, Kept(p, packets + [d])) ==
      if p.timestamp == 0 then PutAll(ring, Kept(p, packets)) else Put(PutAll(ring, Kept(p, packets)), MsgOf(d))
  {
    if p.timestamp > 0 {
      assert Kept(p, packets + [d])[..|packets|] == Kept(p, packets);
    }
  }

  /** The packets of one frame; the pauses between them are left out. */
  method DoSendRtpData(source: Source, room: U64, id: U64, p: Plan) returns (ok: bool, sent: seq<Datagram>)
    requires p.unit > 0 && |p.payload| < TWO32 && source.queue.Wf()
    modifies source`currentSeq, source.queue.slots
    ensures ok <==> Accepts(p)
    ensures sent == if ok then Packets(p, room, id, Wrap16(old(source.currentSeq) + 1), Count(p)) else []
    ensures source.queue.Contents() == PutAll(old(source.queue.Contents()), Kept(p, sent))
    ensures source.currentSeq == if p.timestamp == 0 then old(source.currentSeq) else Wrap16(old(source.currentSeq) + |sent|)
  {
    hide Count, Cut, Kept, PutAll, Put, Repeats, SlotOf, Wrap16;
    sent := [];
    KeptNone(p, source.queue.Contents());
    WrapNone(source.currentSeq);
    if |p.payload| == 0 { return false, []; }
    var count := Count(p);
    if count >= SOTP_RTP_MAX_PACKETS_PER_FRAME { return false, []; }
    for i := 0 to count
      invariant sent == Packets(p, room, id, Wrap16(old(source.currentSeq) + 1), i)
      invariant source.queue.Contents() == PutAll(old(source.queue.Contents()), Kept(p, sent))
      invariant source.currentSeq == if p.timestamp == 0 then old(source.currentSeq) else Wrap16(old(source.currentSeq) + i)
    {
      var sn: Seq16 := 0;
      if p.timestamp != 0 {
        sn := source.GetNextSeq();
      }
      NextNumber(old(source.currentSeq), i);
      var d := MakePacket(room, id, p, Wrap16(old(source.currentSeq) + 1), sn, i, count);
      KeptGrows(p, sent, d, old(source.queue.Contents()));
      if p.timestamp > 0 {
        var _, _ := source.queue.UpdateReliableQueue(MsgOf(d));
      }
      sent := sent + [d];
    }
    ok := true;
  }

  method MakePacket(room: U64, id: U64, p: Plan, ghost first: Seq16, sn: Seq16, i: Seq16, count: Seq16) returns (d: Datagram)
    requires p.unit > 0 && |p.payload| < TWO32 && count == Count(p) && i < count
    requires sn == if p.timestamp == 0 then 0 else Wrap16(first + i)
    ensures d == Cut(p, room, id, first, i)
  {
    hide Count;
    CutInside(p, i);
    WrapSmall(|p.payload|);
    var h := Head(sn, p.nak, p.dataType, p.timestamp, |p.payload|, p.unit, i);
    var size := if i + 1 == count then |p.payload| % p.unit else p.unit;
    d := Datagram(WireHead(room, id, h), p.payload[i * p.unit..i * p.unit + size]);
  }

  lemma WrapNone(n: Seq16)
    ensures Wrap16(n + 0) == n
  {
  }

  lemma KeptNone(p: Plan, ring: Ring<Datagram>)
    ensures PutAll(ring, Kept(p, [])) == ring
  {
  }

  lemma NextNumber(last: Seq16, i: nat)
    ensures Wrap16(Wrap16(last + i) + 1) == Wrap16(Wrap16(last + 1) + i) == Wrap16(last + (i + 1))
  {
  }

  /** A payload of more than 65535 units is not refused when the number of its units, cut to 16 bits, is
      small: only that many packets go out. */
  lemma LongPayloadCut(p: Plan)
    requires p.unit > 0 && 0 < |p.payload| && |p.payload| + p.unit <= TWO32
    ensures Accepts(p) && Count(p) < Units(p) <==> Units(p) >= 65536 && Units(p) % 65536 < SOTP_RTP_MAX_PACKETS_PER_FRAME
  {
    hide Wrap32;
    WrapSmall(|p.payload| + p.unit - 1);
  }
}
