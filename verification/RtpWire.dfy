/** RTP packets and commands as bytes (`toRtpData`, `toRtpCommand`) and the RTP items of the 2.1
    parser: exactly what a receiver makes of a sender's packet, and reassembly over the wire. */
module RtpWire {
  import opened Wrappers
  import opened Integers
  import opened RtpReceive
  import opened RtpStream
  import opened RtpDelivery

  const NEWLINE: Byte := 10

  // ---- Numbers in network byte order ----

  function Number2(s: seq<Byte>): (n: Seq16)
    requires |s| == 2
  {
    (s[0] as int) * 256 + s[1]
  }

  function Number4(s: seq<Byte>): (n: U32)
    requires |s| == 4
  {
    Number2(s[..2]) * 65536 + Number2(s[2..])
  }

  function Number8(s: seq<Byte>): (n: U64)
    requires |s| == 8
  {
    Number4(s[..4]) * TWO32 + Number4(s[4..])
  }

  function Bytes2(n: Seq16): (s: seq<Byte>)
    ensures |s| == 2
  {
    [n / 256, n % 256]
  }

  function Bytes4(n: U32): (s: seq<Byte>)
    ensures |s| == 4
  {
    Bytes2(n / 65536) + Bytes2(n % 65536)
  }

  function Bytes8(n: U64): (s: seq<Byte>)
    ensures |s| == 8
  {
    Bytes4(n / TWO32) + Bytes4(n % TWO32)
  }

  lemma Number2Of(n: Seq16)
    ensures Number2(Bytes2(n)) == n
  {
  }

  lemma Number4Of(n: U32)
    ensures Number4(Bytes4(n)) == n
  {
    assert Bytes4(n)[..2] == Bytes2(n / 65536) && Bytes4(n)[2..] == Bytes2(n % 65536);
  }

  lemma Number8Of(n: U64)
    ensures Number8(Bytes8(n)) == n
  {
    hide Bytes4, Number4;
    assert Bytes8(n)[..4] == Bytes4(n / TWO32) && Bytes8(n)[4..] == Bytes4(n % TWO32);
    Number4Of(n / TWO32);
    Number4Of(n % TWO32);
  }

  // ---- The data head ----

  /** `tagSotpRtpDataHead` with the room and the source; the two identifiers are taken as 64 bits. */
  datatype WireHead = WireHead(room: U64, source: U64, head: Head)

  /** The two types are single bytes. */
  predicate Fits(w: WireHead) {
    w.head.nak < 256 && w.head.dataType < 256
  }

  const SOTP_RTP_DATA_HEAD_SIZE: nat := 32

  function HeadBytes(w: WireHead): (s: seq<Byte>)
    requires Fits(w)
    ensures |s| == SOTP_RTP_DATA_HEAD_SIZE
  {
    var h := w.head;
    Bytes8(w.room) + Bytes8(w.source) + Bytes2(h.sn) + [h.nak, h.dataType]
      + Bytes4(h.timestamp) + Bytes4(h.total) + Bytes2(h.unit) + Bytes2(h.index)
  }

  function ReadHead(s: seq<Byte>): (w: WireHead)
    requires |s| == SOTP_RTP_DATA_HEAD_SIZE
    ensures Fits(w)
  {
    WireHead(Number8(s[..8]), Number8(s[8..16]),
             Head(Number2(s[16..18]), s[18], s[19], Number4(s[20..24]), Number4(s[24..28]),
                  Number2(s[28..30]), Number2(s[30..32])))
  }

  lemma HeadRoundTrip(w: WireHead)
    requires Fits(w)
    ensures ReadHead(HeadBytes(w)) == w
  {
    hide Bytes8, Bytes4, Bytes2, Number8, Number4, Number2;
    var h, s := w.head, HeadBytes(w);
    Number8Of(w.room);
    Number8Of(w.source);
    Number2Of(h.sn);
    Number4Of(h.timestamp);
    Number4Of(h.total);
    Number2Of(h.unit);
    Number2Of(h.index);
    assert s[..8] == Bytes8(w.room);
    assert s[8..16] == Bytes8(w.source);
    assert s[16..18] == Bytes2(h.sn);
    assert s[20..24] == Bytes4(h.timestamp);
    assert s[24..28] == Bytes4(h.total);
    assert s[28..30] == Bytes2(h.unit);
    assert s[30..32] == Bytes2(h.index);
  }

  // ---- Commands ----

  datatype Argument = Destination(id: U64) | Request(sn: Seq16, count: Seq16, rest: U32)

  const SOTP_RTP_COMMAND_DATA_REQUEST: Byte := 6
  const SOTP_RTP_COMMAND_SIZE: nat := 26

  datatype Command = Command(version: Byte, command: Byte, room: U64, source: U64, argument: Argument)

  /** The union holds a request exactly for the command that is one. */
  predicate WellFormed(c: Command) {
    c.argument.Request? <==> c.command == SOTP_RTP_COMMAND_DATA_REQUEST
  }

  function ArgumentBytes(a: Argument): (s: seq<Byte>)
    ensures |s| == 8
  {
    match a
    case Destination(id) => Bytes8(id)
    case Request(sn, count, rest) => Bytes2(sn) + Bytes2(count) + Bytes4(rest)
  }

  function CommandBytes(c: Command): (s: seq<Byte>)
    ensures |s| == SOTP_RTP_COMMAND_SIZE
  {
    [c.version, c.command] + Bytes8(c.room) + Bytes8(c.source) + ArgumentBytes(c.argument)
  }

  function ReadArgument(command: Byte, s: seq<Byte>): Argument
    requires |s| == 8
  {
    if command == SOTP_RTP_COMMAND_DATA_REQUEST then Request(Number2(s[..2]), Number2(s[2..4]), Number4(s[4..]))
    else Destination(Number8(s))
  }

  function ReadCommand(s: seq<Byte>): Command
    requires |s| == SOTP_RTP_COMMAND_SIZE
  {
    Command(s[0], s[1], Number8(s[2..10]), Number8(s[10..18]), ReadArgument(s[1], s[18..26]))
  }

  lemma ArgumentRoundTrip(c: Command)
    requires WellFormed(c)
    ensures ReadArgument(c.command, ArgumentBytes(c.argument)) == c.argument
  {
    hide Bytes8, Bytes4, Bytes2, Number8, Number4, Number2;
    var s := ArgumentBytes(c.argument);
    match c.argument
    case Destination(id) => Number8Of(id);
    case Request(sn, count, rest) =>
      Number2Of(sn);
      Number2Of(count);
      Number4Of(rest);
      assert s[..2] == Bytes2(sn) && s[2..4] == Bytes2(count) && s[4..] == Bytes4(rest);
  }

  lemma CommandBytesRead(c: Command)
    requires WellFormed(c)
    ensures ReadCommand(CommandBytes(c)) == c
  {
    hide Bytes8, Number8, ArgumentBytes, ReadArgument;
    ArgumentRoundTrip(c);
    Number8Of(c.room);
    Number8Of(c.source);
    var s := CommandBytes(c);
    assert s[2..10] == Bytes8(c.room);
    assert s[10..18] == Bytes8(c.source);
    assert s[18..26] == ArgumentBytes(c.argument);
  }

  // ---- Datagrams ----

  /** The first line "4 SOTP/2.1" with its newline. */
  const RTP_LINE: seq<Byte> := [52, 32, 83, 79, 84, 80, 47, 50, 46, 49, NEWLINE]
  const ITEM_DATA: Byte := 69
  const ITEM_COMMAND: Byte := 68

  function SendData(w: WireHead, data: seq<Byte>): (s: seq<Byte>)
    requires Fits(w)
    ensures |s| == 45 + |data|
  {
    RTP_LINE + [ITEM_DATA] + HeadBytes(w) + data + [NEWLINE]
  }

  function SendCommand(c: Command): (s: seq<Byte>)
    ensures |s| == 39
  {
    RTP_LINE + [ITEM_COMMAND] + CommandBytes(c) + [NEWLINE]
  }

  datatype Datagram = Datagram(head: WireHead, data: seq<Byte>)

  /** What the parser has read: the last data head, the bytes of the last data item, whether there was one,
      and the last command. */
  datatype Received = Received(head: Option<WireHead>, data: seq<Byte>, isData: bool, command: Option<Command>)

  const NOTHING := Received(None, [], false, None)

  /** The loop of `parseBuffer` over the items of an RTP datagram, from the byte behind the item before. It
      goes on if that byte is a newline, and replaces what it has read. A data item that does not fit
      ends it, its head already taken over. The source copies heads and commands without looking at
      what is left; without their bytes they have no meaning here, and items of other kinds end the
      model. */
  function ReadItems(r: Received, text: seq<Byte>): Received
    decreases |text|
  {
    if |text| <= 1 || text[0] != NEWLINE then r
    else if text[1] == ITEM_COMMAND && |text| >= 2 + SOTP_RTP_COMMAND_SIZE then
      ReadItems(r.(command := Some(ReadCommand(text[2..28]))), text[28..])
    else if text[1] == ITEM_DATA && |text| >= 2 + SOTP_RTP_DATA_HEAD_SIZE then
      var w := ReadHead(text[2..34]);
      var length := DataLength(w.head);
      if DataOffset(w.head) >= w.head.total || length + SOTP_RTP_DATA_HEAD_SIZE + 2 > |text| then r.(head := Some(w))
      else ReadItems(r.(head := Some(w), data := text[34..34 + length], isData := true), text[34 + length..])
    else r
  }

  function Receive(buffer: seq<Byte>): Received {
    if |buffer| < 11 || buffer[..11] != RTP_LINE then NOTHING else ReadItems(NOTHING, buffer[10..])
  }

  /** What the client makes of a datagram: a command if there was one, and otherwise a packet. */
  function ReceiveCommand(buffer: seq<Byte>): Option<Command> {
    Receive(buffer).command
  }

  function ReceiveData(buffer: seq<Byte>): Option<Datagram> {
    var r := Receive(buffer);
    if r.command.None? && r.isData && r.head.Some? then Some(Datagram(r.head.value, r.data)) else None
  }

  /** The item that starts a text. */
  lemma ReadDataItem(r: Received, w: WireHead, rest: seq<Byte>)
    requires Fits(w)
    ensures var length := DataLength(w.head);
            ReadItems(r, [NEWLINE, ITEM_DATA] + HeadBytes(w) + rest) ==
              if DataOffset(w.head) >= w.head.total || length > |rest| then r.(head := Some(w))
              else ReadItems(r.(head := Some(w), data := rest[..length], isData := true), rest[length..])
  {
    hide HeadBytes, ReadHead, DataLength, DataOffset;
    var text := [NEWLINE, ITEM_DATA] + HeadBytes(w) + rest;
    HeadRoundTrip(w);
    assert text[2..34] == HeadBytes(w);
    assert text[34..] == rest;
    if DataLength(w.head) <= |rest| {
      assert text[34..34 + DataLength(w.head)] == rest[..DataLength(w.head)];
      assert text[34 + DataLength(w.head)..] == rest[DataLength(w.head)..];
    }
  }

  /** What comes out of any packet. Its place must lie inside the total length and at most one byte may be
      missing; then it is as many bytes as the head says, of the data and the newline after it. If what
      follows those is a newline too, the parser reads on. */
  lemma DataReceived(w: WireHead, data: seq<Byte>)
    requires Fits(w)
    ensures var length, all := DataLength(w.head), data + [NEWLINE];
            Receive(SendData(w, data)) ==
              if DataOffset(w.head) >= w.head.total || length > |all| then NOTHING.(head := Some(w))
              else ReadItems(Received(Some(w), all[..length], true, None), all[length..])
  {
    hide HeadBytes, DataLength, DataOffset, ReadItems;
    var s, all := SendData(w, data), data + [NEWLINE];
    assert s[..11] == RTP_LINE;
    assert s[10..] == [NEWLINE, ITEM_DATA] + HeadBytes(w) + all;
    ReadDataItem(NOTHING, w, all);
  }

  /** Without that, the packet is all there is. */
  lemma DataReceivedAlone(w: WireHead, data: seq<Byte>)
    requires Fits(w)
    requires |data| <= DataLength(w.head) || data[DataLength(w.head)] != NEWLINE
    ensures ReceiveData(SendData(w, data)) ==
      if DataOffset(w.head) >= w.head.total || DataLength(w.head) > |data| + 1 then None
      else Some(Datagram(w, (data + [NEWLINE])[..DataLength(w.head)]))
  {
    hide DataLength, DataOffset, SendData;
    DataReceived(w, data);
  }

  /** But a second item in the data of a packet takes the place of the packet. */
  lemma SecondItemTakesOver(w: WireHead, data: seq<Byte>, second: WireHead, more: seq<Byte>)
    requires Fits(w) && DataOffset(w.head) < w.head.total && |data| == DataLength(w.head)
    requires Fits(second) && DataOffset(second.head) < second.head.total && |more| == DataLength(second.head)
    ensures ReceiveData(SendData(w, data + [NEWLINE, ITEM_DATA] + HeadBytes(second) + more)) == Some(Datagram(second, more))
  {
    hide DataLength, DataOffset, SendData, HeadBytes;
    var long := data + [NEWLINE, ITEM_DATA] + HeadBytes(second) + more;
    DataReceived(w, long);
    var rest := more + [NEWLINE];
    assert (long + [NEWLINE])[|data|..] == [NEWLINE, ITEM_DATA] + HeadBytes(second) + rest;
    ReadDataItem(Received(Some(w), data, true, None), second, rest);
    assert rest[..|more|] == more && rest[|more|..] == [NEWLINE];
    assert (long + [NEWLINE])[..|data|] == data;
  }

  /** What a later item brings is shorter than what was left. */
  lemma {:induction false} ItemsShorten(r: Received, text: seq<Byte>)
    ensures var out := ReadItems(r, text); out.data == r.data || |out.data| + 34 <= |text|
    decreases |text|
  {
    hide ReadHead, ReadCommand, DataLength, DataOffset;
    if |text| > 1 && text[0] == NEWLINE {
      if text[1] == ITEM_COMMAND && |text| >= 28 {
        ItemsShorten(r.(command := Some(ReadCommand(text[2..28]))), text[28..]);
      } else if text[1] == ITEM_DATA && |text| >= 34 {
        var w := ReadHead(text[2..34]);
        var length := DataLength(w.head);
        if DataOffset(w.head) < w.head.total && length + 34 <= |text| {
          ItemsShorten(r.(head := Some(w), data := text[34..34 + length], isData := true), text[34 + length..]);
        }
      }
    }
  }

  /** A packet comes out as it went in exactly if it carries what its head says and belongs into the
      total length. */
  lemma DataRoundTrip(w: WireHead, data: seq<Byte>)
    requires Fits(w)
    ensures ReceiveData(SendData(w, data)) == Some(Datagram(w, data))
       <==> DataOffset(w.head) < w.head.total && |data| == DataLength(w.head)
  {
    hide DataLength, DataOffset, SendData, Receive;
    DataReceived(w, data);
    var length, all := DataLength(w.head), data + [NEWLINE];
    if DataOffset(w.head) < w.head.total && length <= |all| {
      assert |all[..length]| == length;
      ItemsShorten(Received(Some(w), all[..length], true, None), all[length..]);
      if length == |data| {
        assert all[..length] == data && all[length..] == [NEWLINE];
      }
    }
  }

  /** The newline behind a command need not have come. */
  lemma CommandRoundTrip(c: Command)
    requires WellFormed(c)
    ensures ReceiveCommand(SendCommand(c)) == Some(c) && ReceiveCommand(SendCommand(c)[..38]) == Some(c)
  {
    hide CommandBytes, ReadCommand;
    CommandBytesRead(c);
    var s := SendCommand(c);
    assert s[..11] == RTP_LINE;
    var text := s[10..];
    assert text == [NEWLINE, ITEM_COMMAND] + CommandBytes(c) + [NEWLINE];
    assert text[2..28] == CommandBytes(c);
    assert text[28..] == [NEWLINE];
    var r := NOTHING.(command := Some(c));
    assert ReadItems(r, [NEWLINE]) == r;
    assert ReadItems(NOTHING, text) == r;
    var short := s[..38];
    assert short[..11] == RTP_LINE && short[10..] == [NEWLINE, ITEM_COMMAND] + CommandBytes(c);
    assert short[10..][2..28] == CommandBytes(c) && short[10..][28..] == [];
    assert ReadItems(r, []) == r;
    assert ReadItems(NOTHING, short[10..]) == r;
  }

  /** A command in the data of a packet takes the place of the packet too. */
  lemma CommandTakesOver(w: WireHead, data: seq<Byte>, c: Command)
    requires Fits(w) && DataOffset(w.head) < w.head.total && |data| == DataLength(w.head) && WellFormed(c)
    ensures var buffer := SendData(w, data + [NEWLINE, ITEM_COMMAND] + CommandBytes(c));
            ReceiveCommand(buffer) == Some(c) && ReceiveData(buffer) == None
  {
    hide DataLength, DataOffset, SendData, CommandBytes, ReadCommand;
    CommandBytesRead(c);
    var long := data + [NEWLINE, ITEM_COMMAND] + CommandBytes(c);
    DataReceived(w, long);
    var text := (long + [NEWLINE])[|data|..];
    assert text == [NEWLINE, ITEM_COMMAND] + CommandBytes(c) + [NEWLINE];
    assert text[2..28] == CommandBytes(c) && text[28..] == [NEWLINE];
    var r := Received(Some(w), data, true, Some(c));
    assert ReadItems(r, [NEWLINE]) == r;
    assert (long + [NEWLINE])[..|data|] == data;
  }

  /** A datagram of another type or version is neither. */
  lemma OtherDatagram(buffer: seq<Byte>, k: nat)
    requires k < 10 && k < |buffer| && buffer[k] != [52, 32, 83, 79, 84, 80, 47, 50, 46, 49][k]
    ensures ReceiveCommand(buffer) == None && ReceiveData(buffer) == None
  {
    if |buffer| >= 11 {
      assert buffer[..11][k] != RTP_LINE[k];
    }
  }

  /** The server prints a packet again as it came. */
  function Relay(buffer: seq<Byte>): Option<seq<Byte>> {
    match ReceiveData(buffer)
    case None => None
    case Some(packet) => if Fits(packet.head) then Some(SendData(packet.head, packet.data)) else None
  }

  lemma RelayKeepsPacket(w: WireHead, data: seq<Byte>)
    requires Fits(w) && DataOffset(w.head) < w.head.total && |data| == DataLength(w.head)
    ensures Relay(SendData(w, data)) == Some(SendData(w, data))
  {
    DataRoundTrip(w, data);
  }

  // ---- The packets of a frame ----

  function Addressed(room: U64, source: U64, p: Plan, first: Seq16, i: Seq16): WireHead {
    WireHead(room, source, SentHead(p, first, i))
  }

  predicate SmallTypes(p: Plan) {
    p.nak < 256 && p.dataType < 256
  }

  /** Every packet of a frame arrives as it was sent, but for the last one of a payload that comes out
      even: its data are missing, so the parser drops it, unless the unit is a single byte, when the
      newline is taken for it. */
  lemma SentPacketReceived(room: U64, source: U64, p: Plan, first: Seq16, i: Seq16)
    requires Sendable(p) && SmallTypes(p) && i < Units(p)
    ensures var w := Addressed(room, source, p, first, i);
            ReceiveData(SendData(w, SentData(p, i))) ==
              if Proper(p, i) then Some(Datagram(w, SentData(p, i)))
              else if p.unit == 1 then Some(Datagram(w, [NEWLINE]))
              else None
  {
    hide ReceiveData, SendData, UnitCount, Proper;
    var w, data := Addressed(room, source, p, first, i), SentData(p, i);
    ExpectedLength(p, first, i);
    RemainderOfLast(|p.payload|, p.unit);
    DivideUp(|p.payload|, p.unit);
    ProperExactly(p, first, i);
    DataRoundTrip(w, data);
    OffsetInside(p, first, i);
    if !Proper(p, i) {
      ImproperIsLast(p, i);
      assert data == [];
      LastOfEven(p, first, i);
      DataReceivedAlone(w, data);
      if p.unit == 1 {
        assert (data + [NEWLINE])[..1] == [NEWLINE];
      }
    }
  }

  lemma OffsetInside(p: Plan, first: Seq16, i: Seq16)
    requires Sendable(p) && i < Units(p)
    ensures var h := SentHead(p, first, i); DataOffset(h) < h.total
  {
    hide UnitCount;
    ExpectedLength(p, first, i);
    WrapSmall(|p.payload|);
  }

  lemma ImproperIsLast(p: Plan, i: nat)
    requires Sendable(p) && i < Units(p) && !Proper(p, i)
    ensures i + 1 == Units(p) && |p.payload| % p.unit == 0 && SentSize(p, i) == 0
  {
  }

  lemma LastOfEven(p: Plan, first: Seq16, i: Seq16)
    requires Sendable(p) && i + 1 == Units(p) && |p.payload| % p.unit == 0
    ensures DataLength(SentHead(p, first, i)) == p.unit
  {
    hide UnitCount, DataLength;
    ExpectedLength(p, first, i);
    RemainderOfLast(|p.payload|, p.unit);
    LessOne(Units(p), p.unit);
  }

  // ---- A frame among other traffic, over the wire ----

  function Arrive(r: Receiver, room: U64, source: U64, p: Plan, first: Seq16, x: Item): Receiver
    requires Sendable(p) && SmallTypes(p) && ItemOk(p, x)
  {
    match x
    case Mine(i, now, buffer) =>
      (match ReceiveData(SendData(Addressed(room, source, p, first, i), SentData(p, i)))
       case None => r
       case Some(packet) => Push(r, false, packet.head.head, packet.data, now, buffer))
    case Other(h, data, now, buffer) => Push(r, false, h, data, now, buffer)
  }

  function ArriveAll(r: Receiver, room: U64, source: U64, p: Plan, first: Seq16, xs: seq<Item>): Receiver
    requires Sendable(p) && SmallTypes(p) && forall x :: x in xs ==> ItemOk(p, x)
  {
    if xs == [] then r
    else Arrive(ArriveAll(r, room, source, p, first, xs[..|xs| - 1]), room, source, p, first, xs[|xs| - 1])
  }

  lemma ArriveProper(r: Receiver, room: U64, source: U64, p: Plan, first: Seq16, x: Item)
    requires Sendable(p) && SmallTypes(p) && ItemOk(p, x) && p.unit > 1
    ensures Arrive(r, room, source, p, first, x) ==
      if x.Mine? && !Proper(p, x.i) then r else PushItem(r, p, first, x)
  {
    hide Push, ReceiveData, SendData, Proper, Units, SentData;
    if x.Mine? {
      SentPacketReceived(room, source, p, first, x.i);
    }
  }

  /** The packets that get through the parser. */
  function Passed(p: Plan, xs: seq<Item>): (ys: seq<Item>)
    requires p.unit > 0
    ensures forall y :: y in ys ==> y in xs
  {
    if xs == [] then []
    else Passed(p, xs[..|xs| - 1])
         + if xs[|xs| - 1].Mine? && !Proper(p, xs[|xs| - 1].i) then [] else [xs[|xs| - 1]]
  }

  lemma {:induction false} ArriveAllPassed(r: Receiver, room: U64, source: U64, p: Plan, first: Seq16, xs: seq<Item>)
    requires Sendable(p) && SmallTypes(p) && (forall x :: x in xs ==> ItemOk(p, x)) && p.unit > 1
    ensures ArriveAll(r, room, source, p, first, xs) == PushItems(r, p, first, Passed(p, xs))
  {
    hide Arrive, PushItem, Proper, ItemOk;
    if xs != [] {
      var before, x := xs[..|xs| - 1], xs[|xs| - 1];
      assert x in xs;
      ArriveAllPassed(r, room, source, p, first, before);
      ArriveProper(ArriveAll(r, room, source, p, first, before), room, source, p, first, x);
      if !(x.Mine? && !Proper(p, x.i)) {
        assert Passed(p, xs)[..|Passed(p, before)|] == Passed(p, before);
      } else {
        assert Passed(p, xs) == Passed(p, before);
      }
    }
  }

  lemma {:induction false} UnevenAllPass(p: Plan, xs: seq<Item>)
    requires Sendable(p) && (forall x :: x in xs ==> ItemOk(p, x)) && |p.payload| % p.unit != 0
    ensures Passed(p, xs) == xs
  {
    if xs != [] {
      UnevenAllPass(p, xs[..|xs| - 1]);
      assert xs[|xs| - 1] in xs;
      assert xs == xs[..|xs| - 1] + [xs[|xs| - 1]];
    }
  }

  /** Cut, printed, parsed and put together: in any order, with repetitions and among other frames, the
      frame is whole exactly when all its packets have come and its length is not a multiple of the
      unit, and then it holds the payload. */
  lemma WireReassembly(r: Receiver, room: U64, source: U64, p: Plan, first: Seq16, xs: seq<Item>)
    requires Sendable(p) && SmallTypes(p) && (forall x :: x in xs ==> ItemOk(p, x)) && p.unit > 1
    requires r.lastTimestamp > 0 && !Stale(p.timestamp, r.lastTimestamp) && p.timestamp !in r.frames
    ensures var frames := ArriveAll(r, room, source, p, first, xs).frames;
            var whole := p.timestamp in frames && IsWhole(frames[p.timestamp]);
            && (whole <==> |p.payload| % p.unit != 0 && Complete(p, Indices(xs)))
            && (whole ==> Holds(frames[p.timestamp], p.payload))
  {
    hide IsWhole, Complete, Holds, ItemOk, Push, Units, Arrive, PushItem, Stale;
    ArriveAllPassed(r, room, source, p, first, xs);
    Reassembly(r, p, first, Passed(p, xs));
    if |p.payload| % p.unit != 0 {
      UnevenAllPass(p, xs);
    }
  }

  /** The same for the first frame of a receiver that has seen nothing yet. */
  lemma WireFirstReassembly(room: U64, source: U64, p: Plan, first: Seq16, i: Seq16, now: U32, buffer: seq<Byte>, xs: seq<Item>)
    requires Sendable(p) && SmallTypes(p) && p.unit > 1 && p.timestamp > 1 && |p.payload| % p.unit != 0
    requires ItemOk(p, Mine(i, now, buffer)) && forall x :: x in xs ==> ItemOk(p, x)
    ensures var start := Arrive(INITIAL, room, source, p, first, Mine(i, now, buffer));
            var frames := ArriveAll(start, room, source, p, first, xs).frames;
            && p.timestamp in frames
            && (IsWhole(frames[p.timestamp]) <==> Complete(p, Indices(xs) + {i as nat}))
            && (IsWhole(frames[p.timestamp]) ==> Holds(frames[p.timestamp], p.payload))
  {
    hide IsWhole, Complete, Holds, Push, Units, Arrive, PushItems, ArriveAll, Indices;
    var mine := Mine(i, now, buffer);
    ArriveProper(INITIAL, room, source, p, first, mine);
    var start := Arrive(INITIAL, room, source, p, first, mine);
    ArriveAllPassed(start, room, source, p, first, xs);
    UnevenAllPass(p, xs);
    FirstReassembly(p, first, i, now, buffer, xs);
  }

  /** With a unit of a single byte every payload comes out even, and the frame takes the newline behind
      the last packet for its last byte. */
  lemma ByteUnitCorruptsLast(r: Receiver, room: U64, source: U64, p: Plan, first: Seq16, i: Seq16, now: U32, buffer: seq<Byte>)
    requires Sendable(p) && SmallTypes(p) && p.unit == 1 && i + 1 == |p.payload| == Units(p) < |buffer|
    requires !Stale(p.timestamp, r.lastTimestamp) && p.timestamp !in r.frames
    ensures var frames := Arrive(r, room, source, p, first, Mine(i, now, buffer)).frames;
            && p.timestamp in frames && i < |frames[p.timestamp].filled| && i < |frames[p.timestamp].payload|
            && frames[p.timestamp].filled[i] && frames[p.timestamp].payload[i] == NEWLINE
  {
    hide ReceiveData, SendData, Wrap32, SentData, ExpireTime;
    UnitsOfBytes(p);
    SentPacketReceived(room, source, p, first, i);
    ExpectedLength(p, first, i);
    assert !Proper(p, i);
  }

  lemma UnitsOfBytes(p: Plan)
    requires p.unit == 1
    ensures Units(p) == |p.payload| && |p.payload| % p.unit == 0
  {
  }
}
