/** The SOTP text parser (`ParseCgcSotp2`) on unencrypted messages, in both wire versions: 2.1 with
    one-letter items, 2.0 with keywords. Lines that carry encrypted or encoded data end the parse here. */
module SotpParse {
  import opened Wrappers
  import opened Integers
  import opened SotpNumbers

  datatype Version = V20 | V21

  /** A typed parameter value; `OtherV` stands for the types not treated here. */
  datatype PValue = IntV(n: int) | BigV(big: int) | BoolV(b: bool) | StrV(text: string) | OtherV(kind: string, raw: string)

  datatype Param = Param(name: string, value: PValue)

  datatype Attach = Attach(name: string, total: int, index: int, data: string)

  const NO_ATTACH := Attach("", 0, 0, "")

  /** What the parser collects; `parameters` in the order of insertion. */
  datatype Fields = Fields(
    hasSeq: bool, sn: Seq16, needAck: bool, sid: string, app: string, api: string,
    account: string, passwd: string, acceptEncoding: int, callId: nat, sign: nat,
    resulted: bool, resultValue: int, parameters: seq<Param>, attach: Attach)

  const BLANK := Fields(false, 0, false, "", "", "", "", "", 0, 0, 0, false, 0, [], NO_ATTACH)

  /** After a line: the fields and what is left, from the place the next newline is expected at. */
  datatype Turn = Stop | Go(f: Fields, rest: string)

  // ---- Lines ----

  /** `strstr(s, "\n")`: a newline before any NUL. */
  function NewlineAt(s: string): (k: int)
    ensures -1 <= k < |s|
    ensures k >= 0 ==> s[k] == '\n'
  {
    if s == "" || s[0] == '\0' then -1
    else if s[0] == '\n' then 0
    else var k := NewlineAt(s[1..]); if k < 0 then -1 else k + 1
  }

  /** The text of a line from `from` on, without a carriage return before the newline. */
  function LineText(s: string, from: nat, newline: nat): string
    requires newline < |s|
  {
    var end := if newline > 0 && s[newline - 1] == '\r' then newline - 1 else newline;
    if from <= end then s[from..end] else ""
  }

  // ---- The longer items ----

  /** `cgcGetValueType` and `totype` on a string value; an unknown type name means string. */
  function TypedValue(kind: string, text: string): PValue {
    if kind == "int" then IntV(Atoi(text))
    else if kind == "bigint" then BigV(Atoi64(text))
    else if kind == "boolean" then BoolV(text != "false" && text != "0" && text != "")
    else if kind in ["float", "pointer", "object", "valueinfo", "vector", "map", "buffer"] then OtherV(kind, text)
    else StrV(text)
  }

  /** A parameter: its head, then as many characters as the head says, newlines included. */
  function ReadPv(f: Fields, head: string, s: string, newline: nat): (t: Turn)
    requires newline < |s|
    ensures t.Go? ==> |t.rest| <= |s|
  {
    var pt := FindFrom(head, ";pt=", 0);
    var pl := if pt < 0 then -1 else FindFrom(head, ";pl=", pt + 4);
    if pl < 0 then Go(f, s[newline..])
    else
      var length := Atoi(head[pl + 4..]);
      if length < 0 || newline + 1 + length > |s| then Stop
      else
        var value := TypedValue(head[pt + 4..pl], s[newline + 1..newline + 1 + length]);
        Go(f.(parameters := f.parameters + [Param(head[..pt], value)]), s[newline + 1 + length..])
  }

  /** An attachment: its head, then its data. An incomplete head clears it. */
  function ReadAt(f: Fields, head: string, s: string, newline: nat): (t: Turn)
    requires newline < |s|
    ensures t.Go? ==> |t.rest| <= |s|
  {
    var at := FindFrom(head, ";at=", 0);
    var ai := if at < 0 then -1 else FindFrom(head, ";ai=", at + 4);
    var al := if ai < 0 then -1 else FindFrom(head, ";al=", ai + 4);
    if at < 0 then Go(f, s[newline..])
    else if al < 0 then Go(f.(attach := NO_ATTACH), s[newline..])
    else
      var attach := f.attach.(name := head[..at], total := Atoi64(head[at + 4..ai]), index := Atoi64(head[ai + 4..al]));
      var size := ReadId(head[al + 4..]) % 0x1_0000_0000;
      if size == 0 then Go(f.(attach := attach), s[newline..])
      else if newline + 1 + size > |s| then Stop
      else Go(f.(attach := attach.(data := s[newline + 1..newline + 1 + size])), s[newline + 1 + size..])
  }

  /** An account; the encryption of the password is not kept. */
  function ReadUa(f: Fields, head: string): Fields {
    var pwd := FindFrom(head, ";pwd=", 0);
    var enc := if pwd < 0 then -1 else FindFrom(head, ";enc=", pwd + 5);
    if pwd < 0 then f
    else if enc < 0 then f.(account := head[..pwd])
    else f.(account := head[..pwd], passwd := head[pwd + 5..enc])
  }

  // ---- Version 2.1 ----

  /** `SotpChar2Int`, with a signed character. */
  function ItemNumber(c: char): int {
    if c as int >= 128 then 0 else if c >= 'A' then 10 + (c as int - 'A' as int) else 1 + (c as int - '1' as int)
  }

  /** The items that fill one field each. */
  function Assigned21(f: Fields, item: int, text: string): Fields {
    match item
    case 1 => f.(sid := text)
    case 3 => f.(callId := ReadId(text))
    case 4 => f.(hasSeq := true, sn := Wrap16(Atoi(text)))
    case 5 => f.(needAck := text == "1")
    case 6 => f.(sign := ReadId(text))
    case 7 => f.(api := text)
    case 10 => f.(app := text)
    case 15 => f.(acceptEncoding := Atoi(text))
    case _ => f
  }

  function ParseLine21(f: Fields, s: string): (t: Turn)
    ensures t.Go? ==> |t.rest| <= |s|
  {
    var nl := NewlineAt(s);
    if nl < 0 then Stop
    else
      var text := LineText(s, 1, nl);
      match ItemNumber(s[0])
      case 8 => ReadPv(f, text, s, nl)
      case 9 => ReadAt(f, text, s, nl)
      case 12 => Go(ReadUa(f, text), s[nl..])
      case 2 => Stop
      case 11 => Stop
      case 13 => Stop
      case 14 => Stop
      case 16 => Stop
      case item => Go(Assigned21(f, item, text), s[nl..])
  }

  // ---- Version 2.0 ----

  function Blanks(s: string): (k: nat)
    ensures k <= |s|
  {
    if s != "" && (s[0] == ' ' || s[0] == '\t') then 1 + Blanks(s[1..]) else 0
  }

  /** `sotpCompare`, which skips blanks before the keyword: the place behind it, -1 if it is not there. */
  function Behind(s: string, key: string): (k: int)
    ensures -1 <= k <= |s|
  {
    var left := Blanks(s);
    if left + |key| <= |s| && s[left..left + |key|] == key then left + |key| else -1
  }

  datatype Keyword = Sid | Sd | Cid | SeqKey | NAck | Sign | Api | Pv | At | App | Ssl | Ua | Unknown

  /** The keyword a line starts with, tried in the order of the source, and the place behind it. */
  function KeywordOf(s: string): (r: (Keyword, nat))
    ensures r.1 <= |s|
  {
    if Behind(s, "Sid: ") >= 0 then (Sid, Behind(s, "Sid: "))
    else if Behind(s, "Sd: ") >= 0 then (Sd, Behind(s, "Sd: "))
    else if Behind(s, "Cid: ") >= 0 then (Cid, Behind(s, "Cid: "))
    else if Behind(s, "Seq: ") >= 0 then (SeqKey, Behind(s, "Seq: "))
    else if Behind(s, "NAck: ") >= 0 then (NAck, Behind(s, "NAck: "))
    else if Behind(s, "Sign: ") >= 0 then (Sign, Behind(s, "Sign: "))
    else if Behind(s, "Api: ") >= 0 then (Api, Behind(s, "Api: "))
    else if Behind(s, "Pv: ") >= 0 then (Pv, Behind(s, "Pv: "))
    else if Behind(s, "At: ") >= 0 then (At, Behind(s, "At: "))
    else if Behind(s, "App: ") >= 0 then (App, Behind(s, "App: "))
    else if Behind(s, "Ssl: ") >= 0 then (Ssl, Behind(s, "Ssl: "))
    else if Behind(s, "Ua: ") >= 0 then (Ua, Behind(s, "Ua: "))
    else (Unknown, 0)
  }

  function Assigned20(f: Fields, key: Keyword, text: string): Fields {
    match key
    case Sid => f.(sid := text)
    case Cid => f.(callId := ReadId(text))
    case SeqKey => f.(hasSeq := true, sn := Wrap16(Atoi(text)))
    case NAck => f.(needAck := Atoi(text) == 1)
    case Sign => f.(sign := ReadId(text))
    case Api => f.(api := text)
    case App => f.(app := text)
    case _ => f
  }

  function ParseLine20(f: Fields, s: string): (t: Turn)
    ensures t.Go? ==> |t.rest| <= |s|
  {
    var nl := NewlineAt(s);
    if nl < 0 then Stop
    else
      var (key, from) := KeywordOf(s);
      var text := LineText(s, from, nl);
      match key
      case Pv => ReadPv(f, text, s, nl)
      case At => ReadAt(f, text, s, nl)
      case Ua => Go(ReadUa(f, text), s[nl..])
      case Sd => Stop
      case Ssl => Stop
      case _ => Go(Assigned20(f, key, text), s[nl..])
  }

  // ---- A message ----

  function ParseLine(v: Version, f: Fields, s: string): (t: Turn)
    ensures t.Go? ==> |t.rest| <= |s|
  {
    if s == "" then Stop else if v == V21 then ParseLine21(f, s) else ParseLine20(f, s)
  }

  /** The loop of `parseBuffer`: each line leaves less than it was given, so it ends. */
  function ParseLines(v: Version, f: Fields, rest: string): Fields
    decreases |rest|
  {
    if rest == "" || rest[0] != '\n' then f
    else match ParseLine(v, f, rest[1..])
      case Stop => f
      case Go(g, next) => ParseLines(v, g, next)
  }

  datatype Message = Message(version: Version, protoType: int, fields: Fields)

  /** The type of a 2.0 message. */
  function Proto20(s: string): Option<int> {
    if Behind(s, "ACK") >= 0 then Some(11)
    else if Behind(s, "CALL") >= 0 then Some(10)
    else if Behind(s, "OPEN") >= 0 then Some(1)
    else if Behind(s, "CLOSE") >= 0 then Some(2)
    else if Behind(s, "ACTIVE") >= 0 then Some(3)
    else if Behind(s, "P2P") >= 0 then Some(12)
    else None
  }

  predicate IsVersion21(s: string) {
    |s| >= 10 && s[1..10] == " SOTP/2.1"
  }

  /** The rest of the first line from the protocol name on: a result code may follow, and then the
      lines. */
  function ParseFrom(v: Version, protoType: int, s: string): Option<Message> {
    var nl := NewlineAt(s);
    if nl < 0 then None
    else
      var f := if nl > 9 then BLANK.(resulted := true, resultValue := Atoi(s[9..nl])) else BLANK;
      Some(Message(v, protoType, ParseLines(v, f, s[nl..])))
  }

  /** `parseBuffer` of a fresh parser. */
  function ParseBuffer(s: string): Option<Message> {
    if IsVersion21(s) then
      var t := ItemNumber(s[0]);
      if t < 1 || t > 12 then None else ParseFrom(V21, t, s[2..])
    else
      var text := Upto(s, '\0');
      var at := FindFrom(text, "SOTP/2.0", 0);
      if at < 0 then None
      else match Proto20(s)
        case None => None
        case Some(t) => ParseFrom(V20, t, s[at..])
  }
}
