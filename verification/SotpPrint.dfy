/** The SOTP text printer (`SotpCallTable2`): application calls, their results and acknowledgements, in
    both wire versions, as sequences of items. */
module SotpPrint {
  import opened Wrappers
  import opened Integers
  import opened SotpNumbers
  import opened SotpParse

  datatype Item =
    | NAckItem
    | SeqItem(sn: Seq16)
    | AcceptItem(encoding: int)
    | SidItem(sid: string)
    | AppItem(app: string)
    | UaItem(account: string, passwd: string)
    | CidItem(cid: nat)
    | SignItem(sign: nat)
    | ApiItem(api: string)
    | PvItem(param: Param)
    | AtItem(attach: Attach)

  function ValueText(v: PValue): string {
    match v
    case IntV(n) => DecInt(n)
    case BigV(n) => DecInt(n)
    case BoolV(b) => if b then "true" else "false"
    case StrV(text) => text
    case OtherV(_, raw) => raw
  }

  function KindText(v: PValue): string {
    match v
    case IntV(_) => "int"
    case BigV(_) => "bigint"
    case BoolV(_) => "boolean"
    case StrV(_) => "string"
    case OtherV(kind, _) => kind
  }

  /** `%s` ends at a NUL. */
  function Str(s: string): string {
    Upto(s, '\0')
  }

  function Key(v: Version, item: Item): string {
    match item
    case NAckItem => if v == V21 then "5" else "NAck: "
    case SeqItem(_) => if v == V21 then "4" else "Seq: "
    case AcceptItem(_) => "F"
    case SidItem(_) => if v == V21 then "1" else "Sid: "
    case AppItem(_) => if v == V21 then "A" else "App: "
    case UaItem(_, _) => if v == V21 then "C" else "Ua: "
    case CidItem(_) => if v == V21 then "3" else "Cid: "
    case SignItem(_) => if v == V21 then "6" else "Sign: "
    case ApiItem(_) => if v == V21 then "7" else "Api: "
    case PvItem(_) => if v == V21 then "8" else "Pv: "
    case AtItem(_) => if v == V21 then "9" else "At: "
  }

  /** The rest of the item's first line. */
  function HeadText(item: Item): string {
    match item
    case NAckItem => "1"
    case SeqItem(sn) => DecInt(sn)
    case AcceptItem(encoding) => DecInt(encoding)
    case SidItem(sid) => Str(sid)
    case AppItem(app) => Str(app)
    case UaItem(account, passwd) => Str(account) + ";pwd=" + Str(passwd) + ";enc="
    case CidItem(cid) => Dec(cid)
    case SignItem(sign) => Dec(sign)
    case ApiItem(api) => Str(api)
    case PvItem(p) => Str(p.name) + ";pt=" + KindText(p.value) + ";pl=" + DecInt(|ValueText(p.value)|)
    case AtItem(a) =>
      Str(a.name) + ";at=" + DecInt(a.total) + ";ai=" + DecInt(a.index) + ";al=" + DecInt(|a.data|)
  }

  /** What follows the first line; a parameter as a whole ends at a NUL, an attachment does not. */
  function ItemText(v: Version, item: Item): string {
    var line := Key(v, item) + HeadText(item) + "\n";
    match item
    case PvItem(p) => Upto(line + ValueText(p.value) + "\n", '\0')
    case AtItem(a) => line + a.data + "\n"
    case _ => line
  }

  function ItemsText(v: Version, items: seq<Item>): string {
    if items == [] then "" else ItemText(v, items[0]) + ItemsText(v, items[1..])
  }

  // ---- Messages ----

  datatype Call = Call(needAck: bool, sn: Seq16, cid: nat, sign: nat, api: string, parameters: seq<Param>, attach: Option<Attach>)

  /** Who calls: by session, or by account as long as there is no session. */
  datatype Caller = Caller(sid: string, app: string, account: string, passwd: string, encoding: int)

  function AckItems(needAck: bool, sn: Seq16): seq<Item> {
    if needAck then [NAckItem, SeqItem(sn)] else []
  }

  function CallerItems(who: Caller): seq<Item> {
    if who.sid == "" then [AppItem(who.app), UaItem(who.account, who.passwd)] else [SidItem(who.sid)]
  }

  function PvItems(ps: seq<Param>): (items: seq<Item>)
    ensures |items| == |ps|
  {
    if ps == [] then [] else [PvItem(ps[0])] + PvItems(ps[1..])
  }

  /** An attachment without data is not printed. */
  function AtItems(a: Option<Attach>): seq<Item> {
    if a.Some? && a.value.data != "" then [AtItem(a.value)] else []
  }

  function CallHead(v: Version, who: Caller, c: Call): seq<Item> {
    AckItems(c.needAck, c.sn) + (if v == V21 then [AcceptItem(who.encoding)] else []) + CallerItems(who)
      + [CidItem(c.cid), SignItem(c.sign), ApiItem(c.api)]
  }

  function CallItems(v: Version, who: Caller, c: Call): seq<Item> {
    CallHead(v, who, c) + PvItems(c.parameters) + AtItems(c.attach)
  }

  function ResultItems(c: Call): seq<Item> {
    AckItems(c.needAck, c.sn) + [CidItem(c.cid), SignItem(c.sign)] + PvItems(c.parameters) + AtItems(c.attach)
  }

  function FirstLine(v: Version, ack: bool, code: Option<int>): string {
    (if v == V21 then (if ack then "B SOTP/2.1" else "A SOTP/2.1") else if ack then "ACK SOTP/2.0" else "CALL SOTP/2.0")
      + (if code.Some? then " " + DecInt(code.value) else "") + "\n"
  }

  /** A call with its attachment; without a name there is none. */
  function CallText(v: Version, who: Caller, c: Call): string {
    (if c.api == "" then "" else FirstLine(v, false, None) + ItemsText(v, CallHead(v, who, c) + PvItems(c.parameters)))
      + ItemsText(v, AtItems(c.attach))
  }

  function ResultText(v: Version, code: int, c: Call): string {
    FirstLine(v, false, Some(code)) + ItemsText(v, ResultItems(c))
  }

  function AckText(v: Version, sn: Seq16): string {
    FirstLine(v, true, None) + ItemsText(v, [SeqItem(sn)])
  }

  lemma {:induction false} ItemsTextConcat(v: Version, xs: seq<Item>, ys: seq<Item>)
    ensures ItemsText(v, xs + ys) == ItemsText(v, xs) + ItemsText(v, ys)
  {
    hide ItemText;
    if xs == [] {
      assert xs + ys == ys;
    } else {
      ItemsTextConcat(v, xs[1..], ys);
      var one, more, last := ItemText(v, xs[0]), ItemsText(v, xs[1..]), ItemsText(v, ys);
      assert one + (more + last) == one + more + last;
      assert (xs + ys)[0] == xs[0] && (xs + ys)[1..] == xs[1..] + ys;
    }
  }
}
