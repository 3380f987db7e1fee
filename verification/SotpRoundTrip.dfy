/** Parsing what the printer wrote: every item on its own, whole messages, and the two versions of one
    message. */
module SotpRoundTrip {
  import opened Wrappers
  import opened Integers
  import opened SotpNumbers
  import opened SotpParse
  import opened SotpPrint

  // ---- Lines ----

  /** A text that can be the rest of a line. */
  predicate OneLine(s: string) {
    '\n' !in s && '\0' !in s
  }

  /** And does not lose its end. */
  predicate LineField(s: string) {
    OneLine(s) && (s != "" ==> s[|s| - 1] != '\r')
  }

  lemma {:induction false} NewlineFound(line: string, rest: string)
    requires OneLine(line)
    ensures NewlineAt(line + "\n" + rest) == |line|
  {
    var s := line + "\n" + rest;
    if line != "" {
      assert s[0] == line[0] && line[0] in line;
      NewlineFound(line[1..], rest);
      assert s[1..] == line[1..] + "\n" + rest;
    }
  }

  /** A printed line, read again behind its key. */
  lemma LineRead(key: string, text: string, rest: string)
    requires key != "" && OneLine(key) && LineField(text) && (text == "" ==> key[|key| - 1] != '\r')
    ensures var s := key + text + "\n" + rest;
            && NewlineAt(s) == |key| + |text| && LineText(s, |key|, |key| + |text|) == text
            && s[|key| + |text|..] == "\n" + rest
  {
    var s := key + text + "\n" + rest;
    NewlineFound(key + text, rest);
    assert s == (key + text) + "\n" + rest;
    assert s[|key|..|key| + |text|] == text;
    assert s[|key| + |text| - 1] == if text == "" then key[|key| - 1] else text[|text| - 1];
  }

  lemma NumberIsLine(n: int)
    ensures LineField(DecInt(n)) && DecInt(n) != ""
  {
    var s := DecInt(n);
    assert s[|s| - 1] in s;
  }

  lemma IdIsLine(n: nat)
    ensures LineField(Dec(n)) && Dec(n) != ""
  {
    var s := Dec(n);
    assert s[|s| - 1] in s;
  }

  // ---- Keys ----

  lemma KeyFound(key: string, rest: string)
    requires key != "" && key[0] != ' ' && key[0] != '\t'
    ensures Behind(key + rest, key) == |key| && Blanks(key + rest) == 0
  {
    assert (key + rest)[..|key|] == key;
  }

  /** Another keyword is told apart by one character. */
  lemma KeyDiffers(s: string, key: string, i: nat)
    requires Blanks(s) == 0 && i < |key| && i < |s| && s[i] != key[i]
    ensures Behind(s, key) < 0
  {
    if |key| <= |s| {
      assert s[..|key|][i] == s[i];
    }
  }

  function KeywordFor(item: Item): Keyword {
    match item
    case NAckItem => NAck
    case SeqItem(_) => SeqKey
    case AcceptItem(_) => Unknown
    case SidItem(_) => Sid
    case AppItem(_) => App
    case UaItem(_, _) => Ua
    case CidItem(_) => Cid
    case SignItem(_) => Sign
    case ApiItem(_) => Api
    case PvItem(_) => Pv
    case AtItem(_) => At
  }

  /** No keyword of version 2.0 is taken for another. */
  lemma KeywordRead(item: Item, tail: string)
    requires !item.AcceptItem?
    ensures KeywordOf(Key(V20, item) + tail) == (KeywordFor(item), |Key(V20, item)|)
  {
    hide Behind, Blanks;
    var key := Key(V20, item);
    var s := key + tail;
    KeyFound(key, tail);
    assert s[0] == key[0] && s[1] == key[1] && s[2] == key[2];
    if !item.SidItem? {
      KeyDiffers(s, "Sid: ", if item.SignItem? then 2 else if item.SeqItem? then 1 else 0);
      KeyDiffers(s, "Sd: ", if item.SignItem? || item.SeqItem? then 1 else 0);
      if !item.CidItem? {
        KeyDiffers(s, "Cid: ", 0);
        if !item.SeqItem? {
          KeyDiffers(s, "Seq: ", if item.SignItem? then 1 else 0);
          if !item.NAckItem? {
            KeyDiffers(s, "NAck: ", 0);
            if !item.SignItem? {
              KeyDiffers(s, "Sign: ", 0);
              LaterKeywordRead(item, tail);
            }
          }
        }
      }
    }
  }

  lemma LaterKeywordRead(item: Item, tail: string)
    requires item.ApiItem? || item.PvItem? || item.AtItem? || item.AppItem? || item.UaItem?
    ensures var s := Key(V20, item) + tail;
            && (item.PvItem? || item.AtItem? || item.AppItem? || item.UaItem? ==> Behind(s, "Api: ") < 0)
            && (item.AtItem? || item.AppItem? || item.UaItem? ==> Behind(s, "Pv: ") < 0)
            && (item.AppItem? || item.UaItem? ==> Behind(s, "At: ") < 0)
            && (item.UaItem? ==> Behind(s, "App: ") < 0 && Behind(s, "Ssl: ") < 0)
  {
    hide Behind, Blanks;
    var key := Key(V20, item);
    var s := key + tail;
    KeyFound(key, tail);
    assert s[0] == key[0] && s[1] == key[1] && s[2] == key[2];
    if !item.ApiItem? {
      KeyDiffers(s, "Api: ", if item.AppItem? then 2 else if item.AtItem? then 1 else 0);
      if !item.PvItem? {
        KeyDiffers(s, "Pv: ", 0);
        if !item.AtItem? {
          KeyDiffers(s, "At: ", if item.AppItem? then 1 else 0);
          if !item.AppItem? {
            KeyDiffers(s, "App: ", 0);
            KeyDiffers(s, "Ssl: ", 0);
          }
        }
      }
    }
  }

  // ---- Items ----

  predicate IsInt64(n: int) {
    -MAX_INT64 - 1 <= n <= MAX_INT64
  }

  predicate ValueOk(v: PValue) {
    match v
    case IntV(_) => true
    case BigV(n) => IsInt64(n)
    case BoolV(_) => true
    case StrV(text) => '\0' !in text
    case OtherV(_, _) => false
  }

  predicate ParamOk(p: Param) {
    OneLine(p.name) && Avoids(p.name, ";pt=") && ValueOk(p.value)
  }

  predicate AttachOk(a: Attach) {
    OneLine(a.name) && Avoids(a.name, ";at=") && IsInt64(a.total) && IsInt64(a.index) && 0 < |a.data| < 0x1_0000_0000
  }

  /** What an item needs to come back. */
  predicate ItemOk(item: Item) {
    match item
    case NAckItem => true
    case SeqItem(_) => true
    case AcceptItem(_) => true
    case SidItem(sid) => LineField(sid)
    case AppItem(app) => LineField(app)
    case UaItem(account, passwd) =>
      OneLine(account) && OneLine(passwd) && Avoids(account, ";pwd=") && Avoids(passwd, ";enc=")
    case CidItem(cid) => cid <= MAX_INT64
    case SignItem(sign) => sign <= MAX_INT64
    case ApiItem(api) => LineField(api)
    case PvItem(p) => ParamOk(p)
    case AtItem(a) => AttachOk(a)
  }

  /** What an item says. */
  function Apply(f: Fields, item: Item): Fields {
    match item
    case NAckItem => f.(needAck := true)
    case SeqItem(sn) => f.(hasSeq := true, sn := sn)
    case AcceptItem(encoding) => f.(acceptEncoding := encoding)
    case SidItem(sid) => f.(sid := sid)
    case AppItem(app) => f.(app := app)
    case UaItem(account, passwd) => f.(account := account, passwd := passwd)
    case CidItem(cid) => f.(callId := cid)
    case SignItem(sign) => f.(sign := sign)
    case ApiItem(api) => f.(api := api)
    case PvItem(p) => f.(parameters := f.parameters + [p])
    case AtItem(a) => f.(attach := a)
  }

  predicate Short(item: Item) {
    !item.PvItem? && !item.AtItem? && !item.UaItem?
  }

  lemma HeadIsLine(item: Item)
    requires ItemOk(item) && Short(item)
    ensures LineField(HeadText(item)) && (HeadText(item) == "" ==> item.SidItem? || item.AppItem? || item.ApiItem?)
  {
    match item
    case NAckItem =>
    case SeqItem(sn) => NumberIsLine(sn);
    case AcceptItem(encoding) => NumberIsLine(encoding);
    case SidItem(sid) => UptoWhole(sid, '\0');
    case AppItem(app) => UptoWhole(app, '\0');
    case CidItem(cid) => IdIsLine(cid);
    case SignItem(sign) => IdIsLine(sign);
    case ApiItem(api) => UptoWhole(api, '\0');
  }

  lemma KeyIsLine(v: Version, item: Item)
    ensures var key := Key(v, item); key != "" && OneLine(key) && key[|key| - 1] != '\r'
  {
  }

  /** The value of a short item is read as it was printed. */
  lemma ShortValue(item: Item)
    requires ItemOk(item) && Short(item)
    ensures match item
      case NAckItem => HeadText(item) == "1" && Atoi(HeadText(item)) == 1
      case SeqItem(sn) => Atoi(HeadText(item)) == sn && Wrap16(sn) == sn
      case AcceptItem(encoding) => Atoi(HeadText(item)) == encoding
      case SidItem(sid) => HeadText(item) == sid
      case AppItem(app) => HeadText(item) == app
      case CidItem(cid) => ReadId(HeadText(item)) == cid
      case SignItem(sign) => ReadId(HeadText(item)) == sign
      case ApiItem(api) => HeadText(item) == api
      case _ => true
  {
    match item
    case NAckItem => AtoiOfDec(1);
      assert DecInt(1) == "1";
    case SeqItem(sn) => AtoiOfDec(sn);
    case AcceptItem(encoding) => AtoiOfDec(encoding);
    case SidItem(sid) => UptoWhole(sid, '\0');
    case AppItem(app) => UptoWhole(app, '\0');
    case CidItem(cid) => IdRoundTrip(cid);
    case SignItem(sign) => IdRoundTrip(sign);
    case ApiItem(api) => UptoWhole(api, '\0');
  }

  lemma ShortRead21(f: Fields, item: Item, rest: string)
    requires ItemOk(item) && Short(item)
    ensures ParseLine21(f, ItemText(V21, item) + rest) == Go(Apply(f, item), "\n" + rest)
  {
    hide NewlineAt, LineText, ReadId, Atoi, HeadText, Wrap16, ReadPv, ReadAt, ReadUa;
    var key, text := Key(V21, item), HeadText(item);
    HeadIsLine(item);
    KeyIsLine(V21, item);
    ShortValue(item);
    LineRead(key, text, rest);
    var s := ItemText(V21, item) + rest;
    assert s == key + text + "\n" + rest;
    assert s[0] == key[0] && |key| == 1;
  }

  lemma ShortRead20(f: Fields, item: Item, rest: string)
    requires ItemOk(item) && Short(item) && !item.AcceptItem?
    ensures ParseLine20(f, ItemText(V20, item) + rest) == Go(Apply(f, item), "\n" + rest)
  {
    hide NewlineAt, LineText, ReadId, Atoi, HeadText, Wrap16, KeywordOf, ReadPv, ReadAt, ReadUa;
    var key, text := Key(V20, item), HeadText(item);
    HeadIsLine(item);
    KeyIsLine(V20, item);
    ShortValue(item);
    LineRead(key, text, rest);
    KeywordRead(item, text + "\n" + rest);
    var s := ItemText(V20, item) + rest;
    assert s == key + text + "\n" + rest == key + (text + "\n" + rest);
  }

  // ---- Parameters, attachments, accounts ----

  /** A head line whose text is found again behind its key. */
  lemma HeadRead(v: Version, item: Item, head: string, rest: string)
    requires OneLine(head) && head != "" && head[|head| - 1] != '\r'
    ensures var key := Key(v, item); var s := key + head + "\n" + rest;
            && NewlineAt(s) == |key| + |head| && LineText(s, |key|, |key| + |head|) == head
  {
    KeyIsLine(v, item);
    LineRead(Key(v, item), head, rest);
  }

  lemma TypedValueRead(v: PValue)
    requires ValueOk(v)
    ensures TypedValue(KindText(v), ValueText(v)) == v
  {
    match v
    case IntV(n) => AtoiOfDec(n);
    case BigV(n) => BigRoundTrip(n);
    case BoolV(_) =>
    case StrV(_) =>
  }

  lemma KindIsPlain(v: PValue)
    requires ValueOk(v)
    ensures OneLine(KindText(v)) && Avoids(KindText(v), ";pl=")
  {
    var k := KindText(v);
    assert ';' !in k;
    NoSemicolon(k, ";pl=");
  }

  lemma FirstOfMatch(s: string, pat: string, k: int)
    requires pat != "" && HasAt(s, pat, k)
    ensures pat[0] in s
  {
    assert s[k..k + |pat|][0] == s[k];
  }

  lemma NoSemicolon(s: string, pat: string)
    requires ';' !in s && pat != "" && pat[0] == ';'
    ensures Avoids(s, pat)
  {
    if FindFrom(s, pat, 0) >= 0 {
      FirstOfMatch(s, pat, FindFrom(s, pat, 0));
    }
  }

  // ---- Heads with markers ----

  predicate Marker(pat: string) {
    pat != "" && pat[0] !in pat[1..]
  }

  /** One part of a head is cut out by the marker behind it. */
  lemma PartRead(before: string, part: string, pat: string, after: string, head: string)
    requires Marker(pat) && Avoids(part, pat) && head == before + part + pat + after
    ensures FindFrom(head, pat, |before|) == |before| + |part|
    ensures head[|before|..|before| + |part|] == part
    ensures head[|before| + |part| + |pat|..] == after
  {
    assert pat != "" && pat[0] !in pat[1..];
    hide *;
    FindMarker(before, part, pat, after);
  }

  lemma Regroup(a: string, b: string, c: string, d: string)
    ensures a + b + c + d == a + (b + c + d) == a + b + (c + d)
  {
  }

  lemma TwoParts(a: string, m1: string, b: string, m2: string, c: string, head: string)
    requires Marker(m1) && Marker(m2) && Avoids(a, m1) && Avoids(b, m2)
    requires head == a + m1 + b + m2 + c
    ensures FindFrom(head, m1, 0) == |a| && head[..|a|] == a
    ensures var n := |a| + |m1|;
            && FindFrom(head, m2, n) == n + |b| && head[n..n + |b|] == b && head[n + |b| + |m2|..] == c
  {
    hide *;
    var later := b + m2 + c;
    Regroup(a + m1, b, m2, c);
    assert head == a + m1 + later;
    assert "" + a == a;
    PartRead("", a, m1, later, head);
    PartRead(a + m1, b, m2, c, head);
  }

  lemma PartAt(n: nat, before: string, part: string, pat: string, after: string, head: string)
    requires Marker(pat) && Avoids(part, pat) && head == before + part + pat + after && n == |before|
    ensures FindFrom(head, pat, n) == n + |part| && head[n..n + |part|] == part && head[n + |part| + |pat|..] == after
  {
    hide *;
    PartRead(before, part, pat, after, head);
  }

  lemma OneLineBoth(a: string, b: string)
    requires OneLine(a) && OneLine(b)
    ensures OneLine(a + b)
  {
  }

  /** Ends as its last part does. */
  predicate EndsAs(s: string, end: string) {
    s != "" && end != "" && s[|s| - 1] == end[|end| - 1]
  }

  lemma JoinedEnd(a: string, b: string)
    requires b != ""
    ensures EndsAs(a + b, b)
  {
  }

  lemma NumberAvoids(n: int, pat: string)
    requires pat != "" && pat[0] == ';'
    ensures Avoids(DecInt(n), pat)
  {
    NoSemicolon(DecInt(n), pat);
  }

  lemma ValueHasNoNul(v: PValue)
    requires ValueOk(v)
    ensures '\0' !in ValueText(v)
  {
  }

  lemma Markers()
    ensures Marker(";pt=") && Marker(";pl=") && Marker(";at=") && Marker(";ai=") && Marker(";al=")
    ensures Marker(";pwd=") && Marker(";enc=")
    ensures OneLine(";pt=") && OneLine(";pl=") && OneLine(";at=") && OneLine(";ai=") && OneLine(";al=")
    ensures OneLine(";pwd=") && OneLine(";enc=")
  {
  }

  lemma Joined5(a: string, b: string, c: string, d: string, e: string)
    requires OneLine(a) && OneLine(b) && OneLine(c) && OneLine(d) && OneLine(e) && e != ""
    ensures OneLine(a + b + c + d + e) && EndsAs(a + b + c + d + e, e)
  {
    hide *;
    OneLineBoth(a, b);
    OneLineBoth(a + b, c);
    OneLineBoth(a + b + c, d);
    OneLineBoth(a + b + c + d, e);
    JoinedEnd(a + b + c + d, e);
  }

  /** The parts of a parameter's head. */
  lemma PvHead(p: Param)
    requires ParamOk(p)
    ensures var head, kind := HeadText(PvItem(p)), KindText(p.value);
            && FindFrom(head, ";pt=", 0) == |p.name| && |p.name| <= |head| && head[..|p.name|] == p.name
            && FindFrom(head, ";pl=", |p.name| + 4) == |p.name| + 4 + |kind|
            && |p.name| + 8 + |kind| <= |head|
            && head[|p.name| + 4..|p.name| + 4 + |kind|] == kind
            && head[|p.name| + 8 + |kind|..] == DecInt(|ValueText(p.value)|)
  {
    hide FindFrom, DecInt, KindText, ValueText, Marker, Avoids, OneLine, Str;
    var name, kind, number := p.name, KindText(p.value), DecInt(|ValueText(p.value)|);
    PlainStr(name);
    KindIsPlain(p.value);
    Markers();
    TwoParts(name, ";pt=", kind, ";pl=", number, HeadText(PvItem(p)));
  }

  lemma PlainStr(s: string)
    requires OneLine(s)
    ensures Str(s) == s
  {
    UptoWhole(s, '\0');
  }

  lemma PvHeadLine(p: Param)
    requires ParamOk(p)
    ensures var head := HeadText(PvItem(p)); OneLine(head) && head != "" && head[|head| - 1] != '\r'
  {
    var name, kind, number := p.name, KindText(p.value), DecInt(|ValueText(p.value)|);
    UptoWhole(name, '\0');
    KindIsPlain(p.value);
    NumberIsLine(|ValueText(p.value)|);
    Markers();
    hide DecInt, KindText, ValueText, Marker, OneLine, Upto;
    Joined5(name, ";pt=", kind, ";pl=", number);
  }

  lemma PvText(v: Version, p: Param)
    requires ParamOk(p)
    ensures ItemText(v, PvItem(p)) == Key(v, PvItem(p)) + HeadText(PvItem(p)) + "\n" + ValueText(p.value) + "\n"
  {
    hide HeadText, Key, ValueText;
    var key, head, value := Key(v, PvItem(p)), HeadText(PvItem(p)), ValueText(p.value);
    PvHeadLine(p);
    KeyIsLine(v, PvItem(p));
    ValueHasNoNul(p.value);
    var all := key + head + "\n" + value + "\n";
    forall c | c in all ensures c != '\0' {
      assert c in key || c in head || c in "\n" || c in value;
    }
    UptoWhole(all, '\0');
  }

  lemma PvRead(f: Fields, key: string, p: Param, rest: string)
    requires ParamOk(p)
    ensures var head, value := HeadText(PvItem(p)), ValueText(p.value);
            ReadPv(f, head, key + head + "\n" + value + "\n" + rest, |key| + |head|) == Go(Apply(f, PvItem(p)), "\n" + rest)
  {
    hide FindFrom, HeadText, TypedValue, Atoi, DecInt, KindText, ValueText;
    var head, value := HeadText(PvItem(p)), ValueText(p.value);
    var s, nl := key + head + "\n" + value + "\n" + rest, |key| + |head|;
    PvHead(p);
    AtoiOfDec(|value|);
    TypedValueRead(p.value);
    assert s[nl + 1..nl + 1 + |value|] == value;
    assert s[nl + 1 + |value|..] == "\n" + rest;
  }

  /** The parts of an attachment's head. */
  predicate AtParts(head: string, name: string, total: string, index: string, number: string) {
    var n := |name|;
    && n + 12 + |total| + |index| <= |head|
    && FindFrom(head, ";at=", 0) == n && head[..n] == name
    && FindFrom(head, ";ai=", n + 4) == n + 4 + |total| && head[n + 4..n + 4 + |total|] == total
    && FindFrom(head, ";al=", n + 8 + |total|) == n + 8 + |total| + |index|
    && head[n + 8 + |total|..n + 8 + |total| + |index|] == index
    && head[n + 12 + |total| + |index|..] == number
  }

  lemma AtPartsOf(name: string, total: string, index: string, number: string, head: string)
    requires Avoids(name, ";at=") && Avoids(total, ";ai=") && Avoids(index, ";al=")
    requires head == name + ";at=" + total + ";ai=" + index + ";al=" + number
    ensures AtParts(head, name, total, index, number)
  {
    Markers();
    hide FindFrom, Marker, Avoids, OneLine;
    AtFirstParts(name, total, index, number, head);
    PartAt(|name| + 8 + |total|, name + ";at=" + total + ";ai=", index, ";al=", number, head);
  }

  lemma AtFirstParts(name: string, total: string, index: string, number: string, head: string)
    requires Avoids(name, ";at=") && Avoids(total, ";ai=")
    requires head == name + ";at=" + total + ";ai=" + index + ";al=" + number
    ensures var n := |name|;
            && n + 8 + |total| <= |head|
            && FindFrom(head, ";at=", 0) == n && head[..n] == name
            && FindFrom(head, ";ai=", n + 4) == n + 4 + |total| && head[n + 4..n + 4 + |total|] == total
  {
    Markers();
    hide FindFrom, Marker, Avoids, OneLine;
    var later := index + ";al=" + number;
    Regroup(name + ";at=" + total + ";ai=", index, ";al=", number);
    TwoParts(name, ";at=", total, ";ai=", later, head);
  }

  lemma AtHead(a: Attach)
    requires AttachOk(a)
    ensures AtParts(HeadText(AtItem(a)), a.name, DecInt(a.total), DecInt(a.index), DecInt(|a.data|))
  {
    NumberAvoids(a.total, ";ai=");
    NumberAvoids(a.index, ";al=");
    PlainStr(a.name);
    hide AtParts, DecInt, Avoids, OneLine, Str;
    AtPartsOf(a.name, DecInt(a.total), DecInt(a.index), DecInt(|a.data|), HeadText(AtItem(a)));
  }

  lemma AtHeadLine(a: Attach)
    requires AttachOk(a)
    ensures var head := HeadText(AtItem(a)); OneLine(head) && head != "" && head[|head| - 1] != '\r'
  {
    PlainStr(a.name);
    NumberIsLine(a.total);
    NumberIsLine(a.index);
    NumberIsLine(|a.data|);
    AtLine(a.name, DecInt(a.total), DecInt(a.index), DecInt(|a.data|));
  }

  lemma AtLine(name: string, total: string, index: string, number: string)
    requires OneLine(name) && LineField(total) && LineField(index) && LineField(number) && number != ""
    ensures var head := name + ";at=" + total + ";ai=" + index + ";al=" + number;
            OneLine(head) && head != "" && head[|head| - 1] != '\r'
  {
    Markers();
    hide Marker, OneLine;
    OneLineBoth(name, ";at=");
    OneLineBoth(name + ";at=", total);
    OneLineBoth(name + ";at=" + total, ";ai=");
    OneLineBoth(name + ";at=" + total + ";ai=", index);
    OneLineBoth(name + ";at=" + total + ";ai=" + index, ";al=");
    OneLineBoth(name + ";at=" + total + ";ai=" + index + ";al=", number);
    JoinedEnd(name + ";at=" + total + ";ai=" + index + ";al=", number);
  }

  lemma AtRead(f: Fields, key: string, a: Attach, rest: string)
    requires AttachOk(a)
    ensures var head := HeadText(AtItem(a));
            ReadAt(f, head, key + head + "\n" + a.data + "\n" + rest, |key| + |head|) == Go(Apply(f, AtItem(a)), "\n" + rest)
  {
    hide FindFrom, HeadText, Atoi64, ReadId, DecInt;
    var head := HeadText(AtItem(a));
    var s, nl := key + head + "\n" + a.data + "\n" + rest, |key| + |head|;
    AtHead(a);
    BigRoundTrip(a.total);
    BigRoundTrip(a.index);
    SizeRead(|a.data|);
    assert s[nl + 1..nl + 1 + |a.data|] == a.data;
    assert s[nl + 1 + |a.data|..] == "\n" + rest;
  }

  lemma SizeRead(n: nat)
    requires n < 0x1_0000_0000
    ensures ReadId(DecInt(n)) % 0x1_0000_0000 == n
  {
    IdRoundTrip(n);
  }

  lemma UaHead(account: string, passwd: string)
    requires ItemOk(UaItem(account, passwd))
    ensures var head := HeadText(UaItem(account, passwd));
            && |account| + 10 + |passwd| <= |head|
            && FindFrom(head, ";pwd=", 0) == |account| && head[..|account|] == account
            && FindFrom(head, ";enc=", |account| + 5) == |account| + 5 + |passwd|
            && head[|account| + 5..|account| + 5 + |passwd|] == passwd
  {
    UptoWhole(account, '\0');
    UptoWhole(passwd, '\0');
    Markers();
    hide FindFrom, Marker, Avoids, OneLine, Upto;
    var head := HeadText(UaItem(account, passwd));
    assert head == account + ";pwd=" + passwd + ";enc=" + "";
    TwoParts(account, ";pwd=", passwd, ";enc=", "", head);
  }

  lemma UaHeadLine(account: string, passwd: string)
    requires ItemOk(UaItem(account, passwd))
    ensures var head := HeadText(UaItem(account, passwd)); OneLine(head) && head != "" && head[|head| - 1] != '\r'
  {
    UptoWhole(account, '\0');
    UptoWhole(passwd, '\0');
    Markers();
    hide Marker, OneLine, Upto;
    Joined5(account, ";pwd=", passwd, "", ";enc=") by { assert OneLine(""); }
    assert account + ";pwd=" + passwd + "" + ";enc=" == HeadText(UaItem(account, passwd));
  }

  lemma UaRead(f: Fields, account: string, passwd: string)
    requires ItemOk(UaItem(account, passwd))
    ensures ReadUa(f, HeadText(UaItem(account, passwd))) == Apply(f, UaItem(account, passwd))
  {
    hide FindFrom, HeadText;
    UaHead(account, passwd);
  }

  /** The items that go on behind their first line. */
  function Tail(item: Item): string {
    match item
    case PvItem(p) => ValueText(p.value) + "\n"
    case AtItem(a) => a.data + "\n"
    case _ => ""
  }

  lemma LongHeadLine(item: Item)
    requires ItemOk(item) && !Short(item)
    ensures var head := HeadText(item); OneLine(head) && head != "" && head[|head| - 1] != '\r'
  {
    hide HeadText, OneLine;
    match item
    case PvItem(p) => PvHeadLine(p);
    case AtItem(a) => AtHeadLine(a);
    case UaItem(account, passwd) => UaHeadLine(account, passwd);
  }

  lemma LongText(v: Version, item: Item)
    requires ItemOk(item) && !Short(item)
    ensures ItemText(v, item) == Key(v, item) + HeadText(item) + "\n" + Tail(item)
  {
    hide HeadText, Key, OneLine, ValueText;
    if item.PvItem? {
      PvText(v, item.param);
    }
  }

  /** A long item, from its first line on. */
  lemma LongStart(v: Version, item: Item, rest: string)
    requires ItemOk(item) && !Short(item)
    ensures var key, head := Key(v, item), HeadText(item);
            var s := ItemText(v, item) + rest;
            && s == key + head + "\n" + Tail(item) + rest
            && NewlineAt(s) == |key| + |head| && LineText(s, |key|, |key| + |head|) == head
  {
    var key, head := Key(v, item), HeadText(item);
    LongHeadLine(item);
    LongText(v, item);
    HeadRead(v, item, head, Tail(item) + rest);
    hide *;
    Regroup(key + head, "\n", Tail(item), rest);
  }

  /** What the reader of a long item makes of it. */
  lemma LongRead(f: Fields, key: string, item: Item, rest: string)
    requires ItemOk(item) && !Short(item)
    ensures var head := HeadText(item);
            var s, nl := key + head + "\n" + Tail(item) + rest, |key| + |head|;
            && nl < |s|
            && match item
               case PvItem(_) => ReadPv(f, head, s, nl) == Go(Apply(f, item), "\n" + rest)
               case AtItem(_) => ReadAt(f, head, s, nl) == Go(Apply(f, item), "\n" + rest)
               case _ => ReadUa(f, head) == Apply(f, item) && s[nl..] == "\n" + rest
  {
    hide HeadText, ReadPv, ReadAt, ReadUa, ValueText, Apply;
    var head := HeadText(item);
    match item
    case PvItem(p) =>
      PvRead(f, key, p, rest);
      assert key + head + "\n" + Tail(item) + rest == key + head + "\n" + ValueText(p.value) + "\n" + rest;
    case AtItem(a) =>
      AtRead(f, key, a, rest);
      assert key + head + "\n" + Tail(item) + rest == key + head + "\n" + a.data + "\n" + rest;
    case UaItem(account, passwd) => UaRead(f, account, passwd);
  }

  lemma LongRead21(f: Fields, item: Item, rest: string)
    requires ItemOk(item) && !Short(item)
    ensures ParseLine21(f, ItemText(V21, item) + rest) == Go(Apply(f, item), "\n" + rest)
  {
    hide NewlineAt, LineText, HeadText, ReadPv, ReadAt, ReadUa, Apply, ItemOk, ItemText, Tail, Assigned21;
    LongStart(V21, item, rest);
    LongRead(f, Key(V21, item), item, rest);
    var s := ItemText(V21, item) + rest;
    assert s[0] == Key(V21, item)[0];
  }

  lemma LongRead20(f: Fields, item: Item, rest: string)
    requires ItemOk(item) && !Short(item)
    ensures ParseLine20(f, ItemText(V20, item) + rest) == Go(Apply(f, item), "\n" + rest)
  {
    hide NewlineAt, LineText, HeadText, ReadPv, ReadAt, ReadUa, Apply, ItemOk, ItemText, Tail, KeywordOf, Key, Assigned20;
    LongStart(V20, item, rest);
    LongRead(f, Key(V20, item), item, rest);
    var head := HeadText(item);
    KeywordRead(item, head + ("\n" + Tail(item) + rest));
    Regroup(Key(V20, item) + head, "\n", Tail(item), rest);
    assert Key(V20, item) + head + ("\n" + Tail(item) + rest) == Key(V20, item) + (head + ("\n" + Tail(item) + rest));
  }
}
