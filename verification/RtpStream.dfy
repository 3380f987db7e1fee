/** A sender's frames cut into packets (`doSendRtpData`) and put together again by the receiver: what
    a frame holds after any of its packets have arrived, and delivery of a whole stream exactly once
    and in order. */
module RtpStream {
  import opened Integers
  import opened RtpReceive

  /** What one call of `doSendRtpData` is given; `unit` is the package size of the client. */
  datatype Plan = Plan(timestamp: U32, nak: nat, dataType: nat, payload: seq<Byte>, unit: Seq16)

  /** The source's `nCount`, before it is cut to 16 bits. */
  function Units(p: Plan): nat
    requires p.unit > 0
  {
    UnitCount(|p.payload|, p.unit)
  }

  function UnitCount(n: nat, u: nat): nat
    requires u > 0
  {
    (n + u - 1) / u
  }

  /** A payload of at least one byte and fewer than 512 units. */
  predicate Sendable(p: Plan) {
    && p.unit > 0 && 0 < |p.payload| && |p.payload| + p.unit <= TWO32
    && Units(p) < SOTP_RTP_MAX_PACKETS_PER_FRAME
  }

  /** The number of bytes the sender puts into packet `i`; for the last one that is the remainder,
      which is none when the units come out even. */
  function SentSize(p: Plan, i: nat): nat
    requires p.unit > 0
  {
    if i + 1 == Units(p) then |p.payload| % p.unit else p.unit
  }

  function SentHead(p: Plan, first: Seq16, i: Seq16): Head {
    Head(Wrap16(first + i), p.nak, p.dataType, p.timestamp, Wrap32(|p.payload|), p.unit, i)
  }

  // ---- Arithmetic of units ----

  /** The unit that byte `b` lies in. */
  function UnitIndex(b: nat, u: nat): nat
    requires u > 0
  {
    b / u
  }

  lemma DivideUp(n: nat, u: nat)
    requires n > 0 && u > 0
    ensures var c := UnitCount(n, u); c >= 1 && (c - 1) * u < n <= c * u
  {
    var c := UnitCount(n, u);
    assert n + u - 1 == c * u + (n + u - 1) % u;
    assert (c - 1) * u == c * u - u;
    if c == 0 {
      Times0(u);
    }
  }

  lemma Times0(u: nat)
    ensures 0 * u == 0
  {
  }

  lemma RemainderOfLast(n: nat, u: nat)
    requires n > 0 && u > 0
    ensures var c := UnitCount(n, u); n % u == (if n == c * u then 0 else n - (c - 1) * u)
  {
    hide UnitCount;
    DivideUp(n, u);
    var c := UnitCount(n, u);
    LessOne(c, u);
    if n == c * u {
      QuotientUnique(n, u, c, 0);
    } else {
      QuotientUnique(n, u, c - 1, n - (c - 1) * u);
    }
  }

  lemma LessOne(c: int, u: nat)
    ensures (c - 1) * u == c * u - u
  {
  }

  lemma QuotientUnique(n: nat, u: nat, q: nat, r: nat)
    requires u > 0 && r < u && n == q * u + r
    ensures n / u == q && n % u == r
  {
    var a, b := n / u, n % u;
    assert n == a * u + b;
    if a < q {
      Ordered2(a, q, u);
    } else if q < a {
      Ordered2(q, a, u);
    }
  }

  lemma Ordered2(x: nat, y: nat, u: nat)
    requires x < y
    ensures x * u + u <= y * u
  {
    assert (y - x - 1) * u >= 0;
    assert y * u == x * u + u + (y - x - 1) * u;
  }

  lemma UnitOfByte(b: nat, u: nat)
    requires u > 0
    ensures var x := UnitIndex(b, u); x * u <= b < x * u + u
  {
    assert b == (b / u) * u + b % u;
  }

  lemma UnitOfByteInRange(b: nat, n: nat, u: nat)
    requires b < n && u > 0
    ensures UnitIndex(b, u) < UnitCount(n, u)
  {
    hide UnitIndex, UnitCount;
    UnitOfByte(b, u);
    DivideUp(n, u);
    if UnitIndex(b, u) > UnitCount(n, u) {
      Ordered2(UnitCount(n, u), UnitIndex(b, u), u);
    }
  }

  /** What is left of `n` at unit `i`. */
  lemma RestOfUnit(n: nat, u: nat, i: nat)
    requires n > 0 && u > 0 && i < UnitCount(n, u)
    ensures var rest := n - i * u;
            0 < rest <= n && (i + 1 < UnitCount(n, u) ==> rest >= u) && (i + 1 == UnitCount(n, u) ==> rest <= u)
  {
    hide UnitCount;
    var c := UnitCount(n, u);
    DivideUp(n, u);
    LessOne(c, u);
    assert i * u >= 0;
    if i + 1 < c {
      Ordered2(i, c - 1, u);
    } else {
      assert i == c - 1;
    }
  }

  lemma WrapSmall(n: int)
    requires 0 <= n < TWO32
    ensures Wrap32(n) == n
  {
  }

  /** The length the receiver expects of packet `i` is the unit, and for the last packet the rest. */
  lemma ExpectedLength(p: Plan, first: Seq16, i: Seq16)
    requires Sendable(p) && i < Units(p)
    ensures var h := SentHead(p, first, i);
            && DataOffset(h) == i * p.unit
            && DataOffset(h) + DataLength(h) <= |p.payload|
            && 0 < DataLength(h) <= p.unit
            && (i + 1 < Units(p) ==> DataLength(h) == p.unit)
            && (i + 1 == Units(p) ==> DataLength(h) == |p.payload| - i * p.unit)
            && PacketNumber(h) == Units(p)
  {
    hide Wrap32;
    RestOfUnit(|p.payload|, p.unit, i);
    WrapSmall(|p.payload|);
    WrapSmall(|p.payload| - i * p.unit);
    WrapSmall(|p.payload| + p.unit - 1);
    CountFits(p, SentHead(p, first, i));
    hide UnitCount;
  }

  lemma CountFits(p: Plan, h: Head)
    requires Sendable(p) && h.unit == p.unit && h.total == |p.payload| && Wrap32(h.total + h.unit - 1) == h.total + h.unit - 1
    ensures PacketNumber(h) == Units(p)
  {
    hide Wrap32;
  }

  /** The packet fills its place exactly if it carries what its head says: always, except for the last
      one of a payload that is a multiple of the unit. */
  predicate Proper(p: Plan, i: nat)
    requires p.unit > 0
  {
    i < Units(p) && (i + 1 == Units(p) ==> |p.payload| % p.unit != 0)
  }

  function SentData(p: Plan, i: nat): (s: seq<Byte>)
    requires Sendable(p) && i < Units(p)
    ensures |s| == SentSize(p, i)
  {
    ExpectedLength(p, 0, i);
    RemainderOfLast(|p.payload|, p.unit);
    p.payload[i * p.unit..i * p.unit + SentSize(p, i)]
  }

  lemma ProperExactly(p: Plan, first: Seq16, i: Seq16)
    requires Sendable(p) && i < Units(p)
    ensures |SentData(p, i)| == DataLength(SentHead(p, first, i)) <==> Proper(p, i)
  {
    ExpectedLength(p, first, i);
    RemainderOfLast(|p.payload|, p.unit);
    DivideUp(|p.payload|, p.unit);
  }

  // ---- One frame, any of its packets ----

  /** `f` is the frame of `p` after the packets `got` have filled it. */
  ghost predicate Matches(p: Plan, first: Seq16, f: Frame, got: set<nat>)
    requires Sendable(p)
  {
    && f.head.timestamp == p.timestamp && f.head.dataType == p.dataType
    && f.firstSeq == first && f.number == Units(p)
    && |f.filled| == SOTP_RTP_MAX_PACKETS_PER_FRAME && |p.payload| < |f.payload|
    && (forall x :: x in got ==> Proper(p, x))
    && (forall x: nat :: x < SOTP_RTP_MAX_PACKETS_PER_FRAME ==> (f.filled[x] <==> x in got))
    && (forall b :: 0 <= b < |p.payload| && UnitIndex(b, p.unit) in got ==> f.payload[b] == p.payload[b])
  }

  function Accepted(p: Plan, got: set<nat>, i: nat): set<nat>
    requires p.unit > 0
  {
    if Proper(p, i) then got + {i} else got
  }

  lemma FreshMatches(r: Receiver, p: Plan, first: Seq16, i: Seq16, now: U32, buffer: seq<Byte>)
    requires Sendable(p) && i < Units(p) && |p.payload| < |buffer|
    ensures Matches(p, first, FreshFrame(r, false, SentHead(p, first, i), now, buffer), {})
  {
    hide ExpireTime, Units, PacketNumber, Wrap16, Proper;
    ExpectedLength(p, first, i);
    TakeBack(first, i);
  }

  lemma TakeBack(first: Seq16, i: Seq16)
    ensures Wrap16(Wrap16(first + i) - i) == first
  {
  }

  lemma FillMatches(p: Plan, first: Seq16, f: Frame, got: set<nat>, i: Seq16)
    requires Sendable(p) && i < Units(p) && Matches(p, first, f, got)
    ensures Matches(p, first, Fill(f, SentHead(p, first, i), SentData(p, i)), Accepted(p, got, i))
  {
    hide UnitIndex, UnitCount;
    var h, data, u := SentHead(p, first, i), SentData(p, i), p.unit as int;
    var g := Fill(f, h, data);
    ProperExactly(p, first, i);
    ExpectedLength(p, first, i);
    if Proper(p, i) {
      if f.filled[i] {
        assert Accepted(p, got, i) == got;
      } else {
        forall b | 0 <= b < |p.payload| && UnitIndex(b, p.unit) in got + {i} ensures g.payload[b] == p.payload[b] {
          UnitOfByte(b, u);
          var x := UnitIndex(b, p.unit);
          if x == i {
            assert g.payload[b] == data[b - i * u];
          } else {
            if x < i { Ordered2(x, i, u); } else { Ordered2(i, x, u); }
            assert g.payload[b] == f.payload[b];
          }
        }
      }
    }
  }

  /** Every packet of the frame is among `got`. */
  ghost predicate Complete(p: Plan, got: set<nat>)
    requires p.unit > 0
  {
    forall x: nat :: x < Units(p) ==> x in got
  }

  /** The frame is whole exactly when every packet has filled its place, and then it holds the
      payload. */
  lemma WholeExactly(p: Plan, first: Seq16, f: Frame, got: set<nat>)
    requires Sendable(p) && Matches(p, first, f, got)
    ensures IsWhole(f) <==> Complete(p, got)
  {
    hide Units, Proper;
    if IsWhole(f) {
      forall x: nat | x < Units(p) ensures x in got {
        assert f.filled[x];
      }
    }
  }

  /** The buffer of the frame starts with `payload`. */
  predicate Holds(f: Frame, payload: seq<Byte>) {
    |payload| <= |f.payload| && f.payload[..|payload|] == payload
  }

  lemma WholePayload(p: Plan, first: Seq16, f: Frame, got: set<nat>)
    requires Sendable(p) && Matches(p, first, f, got) && IsWhole(f)
    ensures Holds(f, p.payload)
  {
    hide UnitIndex, UnitCount, IsWhole, Proper;
    WholeExactly(p, first, f, got);
    forall b | 0 <= b < |p.payload| ensures f.payload[b] == p.payload[b] {
      UnitOfByteInRange(b, |p.payload|, p.unit);
    }
  }

  /** A payload that is a multiple of the unit is never whole: its last packet carries no byte. */
  lemma EvenPayloadNeverWhole(p: Plan, first: Seq16, f: Frame, got: set<nat>)
    requires Sendable(p) && Matches(p, first, f, got) && |p.payload| % p.unit == 0
    ensures !IsWhole(f)
  {
    WholeExactly(p, first, f, got);
    DivideUp(|p.payload|, p.unit);
    assert !Proper(p, Units(p) - 1);
  }
}
