/** Whole SOTP messages: parsing a printed call, result or acknowledgement recovers every field, and the
    two versions of one call say the same. */
module SotpMessages {
  import opened Wrappers
  import opened Integers
  import opened SotpNumbers
  import opened SotpParse
  import opened SotpPrint
  import opened SotpRoundTrip

  // ---- Rows of items ----

  predicate ItemFits(v: Version, item: Item) {
    ItemOk(item) && (v == V20 ==> !item.AcceptItem?)
  }

  lemma ItemRead(v: Version, f: Fields, item: Item, rest: string)
    requires ItemFits(v, item)
    ensures ParseLine(v, f, ItemText(v, item) + rest) == Go(Apply(f, item), "\n" + rest)
  {
    hide ParseLine21, ParseLine20, Apply, ItemOk;
    ItemTextNotEmpty(v, item);
    if v == V21 {
      if Short(item) { ShortRead21(f, item, rest); } else { LongRead21(f, item, rest); }
    } else {
      if Short(item) { ShortRead20(f, item, rest); } else { LongRead20(f, item, rest); }
    }
  }

  lemma ItemTextNotEmpty(v: Version, item: Item)
    requires ItemOk(item)
    ensures ItemText(v, item) != ""
  {
    hide HeadText, ValueText;
    KeyIsLine(v, item);
    if !Short(item) {
      LongText(v, item);
    }
  }

  function ApplyAll(f: Fields, items: seq<Item>): Fields
    decreases |items|
  {
    if items == [] then f else ApplyAll(Apply(f, items[0]), items[1..])
  }

  lemma {:induction false} ItemsRead(v: Version, f: Fields, items: seq<Item>)
    requires forall item :: item in items ==> ItemFits(v, item)
    ensures ParseLines(v, f, "\n" + ItemsText(v, items)) == ApplyAll(f, items)
    decreases |items|
  {
    hide ItemFits, ItemText, Apply, ParseLine;
    if items == [] {
      EmptyLineStops(v, f);
    } else {
      var item, more := items[0], ItemsText(v, items[1..]);
      ItemRead(v, f, item, more);
      assert ("\n" + (ItemText(v, item) + more))[1..] == ItemText(v, item) + more;
      ItemsRead(v, Apply(f, item), items[1..]);
    }
  }

  lemma EmptyLineStops(v: Version, f: Fields)
    ensures ParseLines(v, f, "\n" + "") == f
  {
    assert ("\n" + "")[1..] == "";
  }

  lemma {:induction false} ApplyBoth(f: Fields, xs: seq<Item>, ys: seq<Item>)
    ensures ApplyAll(f, xs + ys) == ApplyAll(ApplyAll(f, xs), ys)
    decreases |xs|
  {
    hide Apply;
    if xs == [] {
      assert xs + ys == ys;
    } else {
      assert (xs + ys)[0] == xs[0] && (xs + ys)[1..] == xs[1..] + ys;
      ApplyBoth(Apply(f, xs[0]), xs[1..], ys);
    }
  }

  lemma ApplyOne(f: Fields, item: Item, items: seq<Item>)
    ensures ApplyAll(f, [item] + items) == ApplyAll(Apply(f, item), items)
  {
    assert ([item] + items)[1..] == items;
  }

  lemma {:induction false} ApplyParameters(f: Fields, ps: seq<Param>)
    ensures ApplyAll(f, PvItems(ps)) == f.(parameters := f.parameters + ps)
    decreases |ps|
  {
    if ps == [] {
      assert f.parameters + [] == f.parameters;
    } else {
      var before, p, more := f.parameters, ps[0], ps[1..];
      var g := f.(parameters := before + [p]);
      ApplyParameters(g, more);
      ApplyOne(f, PvItem(p), PvItems(more));
      assert Apply(f, PvItem(p)) == g;
      hide *;
      assert ps == [p] + more;
      assert before + [p] + more == before + ([p] + more);
    }
  }

  // ---- First lines ----

  lemma {:induction false} UntilNulBehind(a: string, b: string)
    requires '\0' !in a
    ensures Upto(a + b, '\0') == a + Upto(b, '\0')
  {
    if a == "" {
      assert a + b == b;
    } else {
      assert (a + b)[1..] == a[1..] + b;
      UntilNulBehind(a[1..], b);
    }
  }

  function Code(code: Option<int>): (s: string)
    ensures OneLine(s)
  {
    if code.Some? then CodeIsLine(code.value); " " + DecInt(code.value) else ""
  }

  lemma CodeIsLine(n: int)
    ensures OneLine(" " + DecInt(n))
  {
    NumberIsLine(n);
  }

  function FirstFields(code: Option<int>): Fields {
    if code.Some? then BLANK.(resulted := true, resultValue := code.value) else BLANK
  }

  /** From the protocol name on. */
  lemma NameRead(v: Version, protoType: int, name: string, code: Option<int>, rest: string)
    requires |name| == 8 && OneLine(name)
    ensures ParseFrom(v, protoType, name + Code(code) + "\n" + rest) ==
      Some(Message(v, protoType, ParseLines(v, FirstFields(code), "\n" + rest)))
  {
    hide ParseLines, NewlineAt, OneLine, DecInt, Atoi;
    var line := name + Code(code);
    var s := line + "\n" + rest;
    OneLineBoth(name, Code(code));
    NewlineFound(line, rest);
    assert s[|line|..] == "\n" + rest;
    if code.Some? {
      AtoiOfDec(code.value);
      NumberNotEmpty(code.value);
      assert s[9..|line|] == DecInt(code.value);
    }
  }

  lemma NumberNotEmpty(n: int)
    ensures |DecInt(n)| >= 1
  {
  }

  function ProtoOf(ack: bool): int {
    if ack then 11 else 10
  }

  /** A message from its type, name and the rest. */
  lemma FirstParts(v: Version, ack: bool, code: Option<int>, rest: string)
    ensures var kind := if v == V21 then (if ack then "B" else "A") else if ack then "ACK" else "CALL";
            var name := if v == V21 then "SOTP/2.1" else "SOTP/2.0";
            FirstLine(v, ack, code) + rest == kind + " " + name + (Code(code) + "\n" + rest)
  {
    hide DecInt;
    assert "A SOTP/2.1" == "A" + " " + "SOTP/2.1";
    assert "B SOTP/2.1" == "B" + " " + "SOTP/2.1";
    assert "ACK SOTP/2.0" == "ACK" + " " + "SOTP/2.0";
    assert "CALL SOTP/2.0" == "CALL" + " " + "SOTP/2.0";
    var kind := if v == V21 then (if ack then "B" else "A") else if ack then "ACK" else "CALL";
    var name := if v == V21 then "SOTP/2.1" else "SOTP/2.0";
    Regroup(kind + " " + name, Code(code), "\n", rest);
  }

  lemma Cut(kind: string, name: string, later: string)
    ensures var s := kind + " " + name + later;
            && s[|kind| + 1..] == name + later
            && s[|kind|..|kind| + 1 + |name|] == " " + name
  {
  }

  lemma First21(ack: bool, code: Option<int>, rest: string)
    ensures ParseBuffer(FirstLine(V21, ack, code) + rest) == ParseFrom(V21, ProtoOf(ack), "SOTP/2.1" + Code(code) + "\n" + rest)
  {
    hide ParseFrom, DecInt, FindFrom, Upto, FirstLine, Code;
    var kind := if ack then "B" else "A";
    var s, later := FirstLine(V21, ack, code) + rest, Code(code) + "\n" + rest;
    FirstParts(V21, ack, code, rest);
    Cut(kind, "SOTP/2.1", later);
    Regroup("SOTP/2.1", Code(code), "\n", rest);
    assert s[0] == kind[0];
    assert " " + "SOTP/2.1" == " SOTP/2.1";
  }

  /** The types of version 2.0 and their numbers. */
  const TYPES20: seq<(string, int)> := [("OPEN", 1), ("CLOSE", 2), ("ACTIVE", 3), ("CALL", 10), ("ACK", 11), ("P2P", 12)]

  lemma NotVersion21(k: nat, later: string)
    requires k < 6
    ensures !IsVersion21(TYPES20[k].0 + later)
  {
    var s := TYPES20[k].0 + later;
    assert s[1] == TYPES20[k].0[1];
    if |s| >= 10 {
      assert s[1..10][0] == s[1];
    }
  }

  lemma TypeRead(k: nat, later: string)
    requires k < 6
    ensures Proto20(TYPES20[k].0 + later) == Some(TYPES20[k].1)
  {
    hide Behind, Blanks;
    var kind := TYPES20[k].0;
    var s := kind + later;
    KeyFound(kind, later);
    assert s[0] == kind[0] && s[1] == kind[1];
    if k != 4 { KeyDiffers(s, "ACK", if k == 2 then 2 else 0) by { assert s[2] == kind[2]; } }
    if k < 3 || k == 5 { KeyDiffers(s, "CALL", if k == 1 then 1 else 0); }
    if 0 < k < 3 || k == 5 { KeyDiffers(s, "OPEN", 0); }
    if k == 2 || k == 5 { KeyDiffers(s, "CLOSE", 0); }
    if k == 5 { KeyDiffers(s, "ACTIVE", 0); }
  }

  /** Each type of version 2.0 is read as its number. */
  lemma Types20(k: nat, later: string)
    requires k < 6
    ensures ParseBuffer(TYPES20[k].0 + " " + "SOTP/2.0" + later) == ParseFrom(V20, TYPES20[k].1, "SOTP/2.0" + later)
  {
    hide ParseFrom, FindFrom, Upto, Proto20, IsVersion21;
    var kind := TYPES20[k].0;
    var s := kind + " " + "SOTP/2.0" + later;
    assert s == kind + (" " + "SOTP/2.0" + later);
    NotVersion21(k, " " + "SOTP/2.0" + later);
    TypeRead(k, " " + "SOTP/2.0" + later);
    NameFound(k, later);
    Cut(kind, "SOTP/2.0", later);
  }

  /** The characters that version 2.1 takes for a type, and the numbers it reads: '1' to '9' are 1 to 9 and 'A' to
      'C' are 10 to 12, and so are the three characters behind '9'. */
  lemma Types21(c: char, later: string)
    ensures ParseBuffer([c] + " SOTP/2.1" + later) ==
      if '1' <= c <= '<' then ParseFrom(V21, c as int - 48, "SOTP/2.1" + later)
      else if 'A' <= c <= 'C' then ParseFrom(V21, c as int - 55, "SOTP/2.1" + later)
      else None
  {
    hide ParseFrom;
    var s := [c] + " SOTP/2.1" + later;
    assert s[1..10] == " SOTP/2.1";
    assert s[2..] == "SOTP/2.1" + later;
  }

  /** A boolean value is false for the texts "", "0" and "false" and true for any other. */
  lemma BooleanRead(text: string)
    ensures TypedValue("boolean", text) == BoolV(!(text == "" || text == ['0'] || text == ['f', 'a', 'l', 's', 'e']))
  {
  }

  lemma First20(ack: bool, code: Option<int>, rest: string)
    ensures ParseBuffer(FirstLine(V20, ack, code) + rest) == ParseFrom(V20, ProtoOf(ack), "SOTP/2.0" + Code(code) + "\n" + rest)
  {
    hide ParseFrom, DecInt, ParseBuffer, FirstLine, Code;
    var later := Code(code) + "\n" + rest;
    FirstParts(V20, ack, code, rest);
    Types20(if ack then 4 else 3, later);
    Regroup("SOTP/2.0", Code(code), "\n", rest);
  }

  lemma NameFound(k: nat, later: string)
    requires k < 6
    ensures FindFrom(Upto(TYPES20[k].0 + " " + "SOTP/2.0" + later, '\0'), "SOTP/2.0", 0) == |TYPES20[k].0| + 1
  {
    var name := TYPES20[k].0 + " ";
    TooShort(name, "SOTP/2.0");
    assert Marker("SOTP/2.0") && '\0' !in "SOTP/2.0" && '\0' !in name;
    FoundBehind(name, "SOTP/2.0", later);
  }

  lemma TooShort(name: string, pat: string)
    requires |name| < |pat|
    ensures Avoids(name, pat)
  {
  }

  lemma FoundBehind(name: string, pat: string, later: string)
    requires Marker(pat) && Avoids(name, pat) && '\0' !in name && '\0' !in pat
    ensures FindFrom(Upto(name + pat + later, '\0'), pat, 0) == |name|
  {
    hide FindFrom, Avoids, Upto;
    UntilNulBehind(name + pat, later);
    assert "" + name == name;
    PartRead("", name, pat, Upto(later, '\0'), name + pat + Upto(later, '\0'));
  }

  lemma MessageRead(v: Version, ack: bool, code: Option<int>, items: seq<Item>)
    requires forall item :: item in items ==> ItemFits(v, item)
    ensures ParseBuffer(FirstLine(v, ack, code) + ItemsText(v, items)) ==
      Some(Message(v, ProtoOf(ack), ApplyAll(FirstFields(code), items)))
  {
    hide ParseBuffer, FirstLine, ParseFrom, ItemFits, ParseLines, ApplyAll, ItemsText;
    var rest := ItemsText(v, items);
    if v == V21 {
      First21(ack, code, rest);
      NameRead(v, ProtoOf(ack), "SOTP/2.1", code, rest);
    } else {
      First20(ack, code, rest);
      NameRead(v, ProtoOf(ack), "SOTP/2.0", code, rest);
    }
    ItemsRead(v, FirstFields(code), items);
  }

  // ---- Calls ----

  /** What a call needs to come back as it was. */
  predicate CallOk(c: Call) {
    && c.cid <= MAX_INT64 && c.sign <= MAX_INT64 && LineField(c.api)
    && (forall p :: p in c.parameters ==> ParamOk(p))
    && (c.attach.Some? && c.attach.value.data != "" ==> AttachOk(c.attach.value))
  }

  predicate CallerOk(who: Caller) {
    if who.sid == "" then LineField(who.app) && ItemOk(UaItem(who.account, who.passwd)) else LineField(who.sid)
  }

  function SentAttach(a: Option<Attach>): Attach {
    if a.Some? && a.value.data != "" then a.value else NO_ATTACH
  }

  /** The fields of a call that do not depend on who calls. */
  function CommonFields(f: Fields, c: Call): Fields {
    f.(hasSeq := c.needAck, sn := if c.needAck then c.sn else 0, needAck := c.needAck,
       callId := c.cid, sign := c.sign, parameters := c.parameters, attach := SentAttach(c.attach))
  }

  function CallFields(v: Version, who: Caller, c: Call): Fields {
    var f := CommonFields(BLANK, c).(api := c.api, acceptEncoding := if v == V21 then who.encoding else 0);
    if who.sid == "" then f.(app := who.app, account := who.account, passwd := who.passwd) else f.(sid := who.sid)
  }

  function ResultFields(code: int, c: Call): Fields {
    CommonFields(BLANK, c).(resulted := true, resultValue := code)
  }

  lemma {:induction false} PvItemsOk(v: Version, ps: seq<Param>)
    requires forall p :: p in ps ==> ParamOk(p)
    ensures forall item :: item in PvItems(ps) ==> ItemFits(v, item)
  {
    if ps != [] {
      assert ps[0] in ps;
      PvItemsOk(v, ps[1..]);
    }
  }

  lemma TailApplied(f: Fields, c: Call)
    requires f.parameters == [] && f.attach == NO_ATTACH
    ensures ApplyAll(f, PvItems(c.parameters) + AtItems(c.attach)) == f.(parameters := c.parameters, attach := SentAttach(c.attach))
  {
    ApplyBoth(f, PvItems(c.parameters), AtItems(c.attach));
    ApplyParameters(f, c.parameters);
    assert [] + c.parameters == c.parameters;
    var g := f.(parameters := c.parameters);
    var at := AtItems(c.attach);
    if at != [] {
      assert at[1..] == [];
      assert ApplyAll(g, at) == Apply(g, at[0]);
    }
  }

  lemma TailFits(v: Version, c: Call)
    requires CallOk(c)
    ensures forall item :: item in PvItems(c.parameters) + AtItems(c.attach) ==> ItemFits(v, item)
  {
    PvItemsOk(v, c.parameters);
  }

  lemma AckApplied(f: Fields, needAck: bool, sn: Seq16)
    requires !f.needAck && !f.hasSeq && f.sn == 0
    ensures ApplyAll(f, AckItems(needAck, sn)) == f.(hasSeq := needAck, sn := if needAck then sn else 0, needAck := needAck)
  {
    if needAck {
      assert AckItems(needAck, sn)[1..] == [SeqItem(sn)];
      assert [SeqItem(sn)][1..] == [];
      ApplyOne(f, NAckItem, [SeqItem(sn)]);
      ApplyOne(Apply(f, NAckItem), SeqItem(sn), []);
    }
  }

  lemma CallerApplied(f: Fields, who: Caller)
    ensures ApplyAll(f, CallerItems(who)) ==
      if who.sid == "" then f.(app := who.app, account := who.account, passwd := who.passwd) else f.(sid := who.sid)
  {
    if who.sid == "" {
      ApplyOne(f, AppItem(who.app), [UaItem(who.account, who.passwd)]);
      ApplyOne(Apply(f, AppItem(who.app)), UaItem(who.account, who.passwd), []);
      assert CallerItems(who) == [AppItem(who.app)] + [UaItem(who.account, who.passwd)];
      assert [UaItem(who.account, who.passwd)] + [] == [UaItem(who.account, who.passwd)];
    } else {
      ApplyOne(f, SidItem(who.sid), []);
      assert CallerItems(who) == [SidItem(who.sid)] + [];
    }
  }

  lemma IdsApplied(f: Fields, cid: nat, sign: nat)
    ensures ApplyAll(f, [CidItem(cid), SignItem(sign)]) == f.(callId := cid, sign := sign)
  {
    ApplyOne(f, CidItem(cid), [SignItem(sign)]);
    ApplyOne(Apply(f, CidItem(cid)), SignItem(sign), []);
    assert [CidItem(cid), SignItem(sign)] == [CidItem(cid)] + [SignItem(sign)];
    assert [SignItem(sign)] + [] == [SignItem(sign)];
  }

  function AcceptItems(v: Version, who: Caller): seq<Item> {
    if v == V21 then [AcceptItem(who.encoding)] else []
  }

  lemma AcceptApplied(v: Version, f: Fields, who: Caller)
    requires f.acceptEncoding == 0
    ensures ApplyAll(f, AcceptItems(v, who)) == f.(acceptEncoding := if v == V21 then who.encoding else 0)
  {
    if v == V21 {
      ApplyOne(f, AcceptItem(who.encoding), []);
      assert AcceptItems(v, who) == [AcceptItem(who.encoding)] + [];
    }
  }

  /** The items of a call in five rows. */
  lemma CallRows(v: Version, who: Caller, c: Call)
    ensures CallItems(v, who, c) ==
      AckItems(c.needAck, c.sn) + (AcceptItems(v, who) + (CallerItems(who) + ([CidItem(c.cid), SignItem(c.sign)]
        + ([ApiItem(c.api)] + (PvItems(c.parameters) + AtItems(c.attach))))))
  {
    hide AckItems, CallerItems, PvItems, AtItems;
    assert [CidItem(c.cid), SignItem(c.sign), ApiItem(c.api)] == [CidItem(c.cid), SignItem(c.sign)] + [ApiItem(c.api)];
  }

  lemma CallApplied(v: Version, who: Caller, c: Call)
    ensures ApplyAll(BLANK, CallItems(v, who, c)) == CallFields(v, who, c)
  {
    hide Apply, ApplyAll, AckItems, AcceptItems, CallerItems, PvItems, AtItems, CallItems;
    CallRows(v, who, c);
    var tail := PvItems(c.parameters) + AtItems(c.attach);
    var api := [ApiItem(c.api)] + tail;
    var ids := [CidItem(c.cid), SignItem(c.sign)] + api;
    var caller := CallerItems(who) + ids;
    var accept := AcceptItems(v, who) + caller;
    var f1 := BLANK.(hasSeq := c.needAck, sn := if c.needAck then c.sn else 0, needAck := c.needAck);
    AckApplied(BLANK, c.needAck, c.sn);
    ApplyBoth(BLANK, AckItems(c.needAck, c.sn), accept);
    var f2 := f1.(acceptEncoding := if v == V21 then who.encoding else 0);
    AcceptApplied(v, f1, who);
    ApplyBoth(f1, AcceptItems(v, who), caller);
    var f3 := if who.sid == "" then f2.(app := who.app, account := who.account, passwd := who.passwd) else f2.(sid := who.sid);
    CallerApplied(f2, who);
    ApplyBoth(f2, CallerItems(who), ids);
    var f4 := f3.(callId := c.cid, sign := c.sign);
    IdsApplied(f3, c.cid, c.sign);
    ApplyBoth(f3, [CidItem(c.cid), SignItem(c.sign)], api);
    ApplyOne(f4, ApiItem(c.api), tail);
    ApiApplied(f4, c.api);
    TailApplied(f4.(api := c.api), c);
  }

  lemma ApiApplied(f: Fields, api: string)
    ensures Apply(f, ApiItem(api)) == f.(api := api)
  {
  }

  lemma CallFits(v: Version, who: Caller, c: Call)
    requires CallOk(c) && CallerOk(who)
    ensures forall item :: item in CallItems(v, who, c) ==> ItemFits(v, item)
  {
    hide PvItems, AtItems, ParamOk, AttachOk, LineField;
    TailFits(v, c);
    forall item | item in CallItems(v, who, c) ensures ItemFits(v, item) {
      if item in PvItems(c.parameters) || item in AtItems(c.attach) {
        assert item in PvItems(c.parameters) + AtItems(c.attach);
      } else {
        assert item in CallHead(v, who, c);
      }
    }
  }

  /** Parsing a printed call recovers every field, in either version: number and acknowledgement,
      session or account, ids, name, parameters in order, attachment. */
  lemma CallRoundTrip(v: Version, who: Caller, c: Call)
    requires CallOk(c) && CallerOk(who) && c.api != ""
    ensures ParseBuffer(CallText(v, who, c)) == Some(Message(v, 10, CallFields(v, who, c)))
  {
    hide CallOk, CallerOk, ItemFits, ParseBuffer, ApplyAll, FirstLine, ItemsText, CallHead, PvItems, AtItems, CallFields;
    CallFits(v, who, c);
    CallApplied(v, who, c);
    MessageRead(v, false, None, CallItems(v, who, c));
    var head := CallHead(v, who, c) + PvItems(c.parameters);
    ItemsTextConcat(v, head, AtItems(c.attach));
    var first, a, b := FirstLine(v, false, None), ItemsText(v, head), ItemsText(v, AtItems(c.attach));
    assert first + a + b == first + (a + b);
  }

  /** The two versions of one call say the same, but for the accepted encoding, which only the newer
      has. */
  lemma VersionsAgree(who: Caller, c: Call)
    requires CallOk(c) && CallerOk(who) && c.api != ""
    ensures var old20, new21 := ParseBuffer(CallText(V20, who, c)), ParseBuffer(CallText(V21, who, c));
            old20.Some? && new21.Some? && old20.value.fields == new21.value.fields.(acceptEncoding := 0)
  {
    hide CallText, ParseBuffer, CallOk, CallerOk;
    CallRoundTrip(V20, who, c);
    CallRoundTrip(V21, who, c);
  }

  lemma ResultApplied(code: int, c: Call)
    ensures ApplyAll(FirstFields(Some(code)), ResultItems(c)) == ResultFields(code, c)
  {
    hide Apply, ApplyAll, AckItems, PvItems, AtItems;
    var f0 := FirstFields(Some(code));
    var tail := PvItems(c.parameters) + AtItems(c.attach);
    var ids := [CidItem(c.cid), SignItem(c.sign)] + tail;
    assert ResultItems(c) == AckItems(c.needAck, c.sn) + ids;
    var f1 := f0.(hasSeq := c.needAck, sn := if c.needAck then c.sn else 0, needAck := c.needAck);
    AckApplied(f0, c.needAck, c.sn);
    ApplyBoth(f0, AckItems(c.needAck, c.sn), ids);
    IdsApplied(f1, c.cid, c.sign);
    ApplyBoth(f1, [CidItem(c.cid), SignItem(c.sign)], tail);
    TailApplied(f1.(callId := c.cid, sign := c.sign), c);
  }

  lemma ResultFits(v: Version, c: Call)
    requires CallOk(c)
    ensures forall item :: item in ResultItems(c) ==> ItemFits(v, item)
  {
    hide PvItems, AtItems, ParamOk, AttachOk, LineField;
    TailFits(v, c);
    forall item | item in ResultItems(c) ensures ItemFits(v, item) {
      if item in PvItems(c.parameters) || item in AtItems(c.attach) {
        assert item in PvItems(c.parameters) + AtItems(c.attach);
      }
    }
  }

  /** And so for the result of a call, with its code. */
  lemma ResultRoundTrip(v: Version, code: int, c: Call)
    requires CallOk(c)
    ensures ParseBuffer(ResultText(v, code, c)) == Some(Message(v, 10, ResultFields(code, c)))
  {
    hide CallOk, ItemFits, ParseBuffer, ApplyAll, FirstLine, ItemsText, ResultItems, ResultFields;
    ResultFits(v, c);
    ResultApplied(code, c);
    MessageRead(v, false, Some(code), ResultItems(c));
  }

  lemma AckRoundTrip(v: Version, sn: Seq16)
    ensures ParseBuffer(AckText(v, sn)) == Some(Message(v, 11, BLANK.(hasSeq := true, sn := sn)))
  {
    hide ParseBuffer, FirstLine, ItemsText;
    MessageRead(v, true, None, [SeqItem(sn)]);
    ApplyOne(BLANK, SeqItem(sn), []);
    assert [SeqItem(sn)] + [] == [SeqItem(sn)];
  }

  /** A session id that ends in a carriage return loses it; every other one-line session id comes back. */
  lemma SidExactly(f: Fields, sid: string, rest: string)
    requires OneLine(sid)
    ensures ParseLine(V21, f, ItemText(V21, SidItem(sid)) + rest) == Go(f.(sid := sid), "\n" + rest) <==> LineField(sid)
  {
    if LineField(sid) {
      ShortRead21(f, SidItem(sid), rest);
    } else {
      PlainStr(sid);
      var s := "1" + sid + "\n" + rest;
      assert ItemText(V21, SidItem(sid)) + rest == s;
      NewlineFound("1" + sid, rest);
      assert s[|sid|] == sid[|sid| - 1];
      assert LineText(s, 1, |sid| + 1) == sid[..|sid| - 1];
      hide NewlineAt, LineText;
      assert ParseLine(V21, f, s) == Go(f.(sid := sid[..|sid| - 1]), s[|sid| + 1..]);
    }
  }
}
