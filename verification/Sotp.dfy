/** The parser and the printer with their fields changed in place, proved against the functions whose
    round trip is proved beside them. */
module Sotp {
  import opened Wrappers
  import opened Integers
  import opened SotpNumbers
  import opened SotpParse
  import opened SotpPrint
  import opened SotpMessages

  class ParseCgcSotp2 {
    var sotpVersion: Version
    var protoType: int
    var hasSeq: bool
    var sn: Seq16
    var needAck: bool
    var sid: string
    var app: string
    var api: string
    var account: string
    var passwd: string
    var acceptEncoding: int
    var callId: nat
    var sign: nat
    var resulted: bool
    var resultValue: int
    var parameters: seq<Param>
    var attach: Attach

    ghost function View(): Fields
      reads this
    {
      Fields(hasSeq, sn, needAck, sid, app, api, account, passwd, acceptEncoding, callId, sign,
             resulted, resultValue, parameters, attach)
    }

    constructor ()
      ensures View() == BLANK
    {
      sotpVersion, protoType := V20, 0;
      hasSeq, sn, needAck, sid, app, api := false, 0, false, "", "", "";
      account, passwd, acceptEncoding, callId, sign := "", "", 0, 0, 0;
      resulted, resultValue, parameters, attach := false, 0, [], NO_ATTACH;
    }

    /** What is left after a line; none stands for the null pointer. */
    twostate predicate Took(t: Turn, new rest: Option<string>)
      reads this
    {
      && sotpVersion == old(sotpVersion) && protoType == old(protoType)
      && match t
         case Stop => rest.None? && View() == old(View())
         case Go(f, next) => rest == Some(next) && View() == f
    }

    method ParseOneLine(line: string) returns (rest: Option<string>)
      modifies this
      ensures Took(ParseLine(sotpVersion, old(View()), line), rest)
    {
      hide ParseLine21, ParseLine20;
      if line == "" { return None; }
      if sotpVersion == V21 {
        rest := ParseOneLine21(line);
      } else {
        rest := ParseOneLine20(line);
      }
    }

    method ParseOneLine21(line: string) returns (rest: Option<string>)
      requires line != ""
      modifies this
      ensures Took(ParseLine21(old(View()), line), rest)
    {
      hide LineText, NewlineAt, ReadPv, ReadAt, ReadUa, ReadId, Atoi, Wrap16, Assigned21, View;
      var nextLine := NewlineAt(line);
      if nextLine < 0 { return None; }
      var text := LineText(line, 1, nextLine);
      rest := Some(line[nextLine..]);
      var item := ItemNumber(line[0]);
      if item == 8 {
        rest := ParseParameter(text, line, nextLine);
      } else if item == 9 {
        rest := ParseAttach(text, line, nextLine);
      } else if item == 12 {
        ParseAccount(text);
      } else if item == 2 || item == 11 || item == 13 || item == 14 || item == 16 {
        rest := None;
      } else {
        Assign21(item, text);
      }
    }

    method Assign21(item: int, text: string)
      modifies this
      ensures View() == Assigned21(old(View()), item, text)
      ensures sotpVersion == old(sotpVersion) && protoType == old(protoType)
    {
      hide ReadId, Atoi, Wrap16;
      if item == 1 {
        sid := text;
      } else if item == 3 {
        callId := ReadId(text);
      } else if item == 4 {
        hasSeq, sn := true, Wrap16(Atoi(text));
      } else if item == 5 {
        needAck := text == "1";
      } else if item == 6 {
        sign := ReadId(text);
      } else if item == 7 {
        api := text;
      } else if item == 10 {
        app := text;
      } else if item == 15 {
        acceptEncoding := Atoi(text);
      }
    }

    method ParseOneLine20(line: string) returns (rest: Option<string>)
      requires line != ""
      modifies this
      ensures Took(ParseLine20(old(View()), line), rest)
    {
      hide LineText, NewlineAt, ReadPv, ReadAt, ReadUa, KeywordOf, Assigned20, View;
      var nextLine := NewlineAt(line);
      if nextLine < 0 { return None; }
      var (key, leftIndex) := KeywordOf(line);
      var text := LineText(line, leftIndex, nextLine);
      rest := Some(line[nextLine..]);
      match key
      case Pv => rest := ParseParameter(text, line, nextLine);
      case At => rest := ParseAttach(text, line, nextLine);
      case Ua => ParseAccount(text);
      case Sd => rest := None;
      case Ssl => rest := None;
      case _ => Assign20(key, text);
    }

    method Assign20(key: Keyword, text: string)
      modifies this
      ensures View() == Assigned20(old(View()), key, text)
      ensures sotpVersion == old(sotpVersion) && protoType == old(protoType)
    {
      hide ReadId, Atoi, Wrap16;
      match key
      case Sid => sid := text;
      case Cid => callId := ReadId(text);
      case SeqKey => hasSeq, sn := true, Wrap16(Atoi(text));
      case NAck => needAck := Atoi(text) == 1;
      case Sign => sign := ReadId(text);
      case Api => api := text;
      case App => app := text;
      case _ =>
    }

    method ParseParameter(head: string, line: string, nextLine: nat) returns (rest: Option<string>)
      requires nextLine < |line|
      modifies this`parameters
      ensures Took(ReadPv(old(View()), head, line, nextLine), rest)
    {
      hide FindFrom, Atoi, TypedValue;
      var findPT := FindFrom(head, ";pt=", 0);
      if findPT < 0 { return Some(line[nextLine..]); }
      var parameterName := head[..findPT];
      var findPL := FindFrom(head, ";pl=", findPT + 4);
      if findPL < 0 { return Some(line[nextLine..]); }
      var parameterType := head[findPT + 4..findPL];
      var length := Atoi(head[findPL + 4..]);
      if length < 0 || nextLine + 1 + length > |line| { return None; }
      var value := TypedValue(parameterType, line[nextLine + 1..nextLine + 1 + length]);
      parameters := parameters + [Param(parameterName, value)];
      rest := Some(line[nextLine + 1 + length..]);
    }

    method ParseAttach(head: string, line: string, nextLine: nat) returns (rest: Option<string>)
      requires nextLine < |line|
      modifies this`attach
      ensures Took(ReadAt(old(View()), head, line, nextLine), rest)
    {
      hide FindFrom, Atoi64, ReadId;
      var was := attach;
      var findAT := FindFrom(head, ";at=", 0);
      if findAT < 0 { return Some(line[nextLine..]); }
      attach := attach.(name := head[..findAT]);
      var findAI := FindFrom(head, ";ai=", findAT + 4);
      if findAI < 0 {
        attach := NO_ATTACH;
        return Some(line[nextLine..]);
      }
      attach := attach.(total := Atoi64(head[findAT + 4..findAI]));
      var findAL := FindFrom(head, ";al=", findAI + 4);
      if findAL < 0 {
        attach := NO_ATTACH;
        return Some(line[nextLine..]);
      }
      attach := attach.(index := Atoi64(head[findAI + 4..findAL]));
      var attachSize := ReadId(head[findAL + 4..]) % 0x1_0000_0000;
      if attachSize == 0 { return Some(line[nextLine..]); }
      if nextLine + 1 + attachSize > |line| {
        attach := was;
        return None;
      }
      attach := attach.(data := line[nextLine + 1..nextLine + 1 + attachSize]);
      rest := Some(line[nextLine + 1 + attachSize..]);
    }

    method ParseAccount(head: string)
      modifies this`account, this`passwd
      ensures View() == ReadUa(old(View()), head)
    {
      hide FindFrom;
      var findPwd := FindFrom(head, ";pwd=", 0);
      if findPwd < 0 { return; }
      account := head[..findPwd];
      var findEnc := FindFrom(head, ";enc=", findPwd + 5);
      if findEnc < 0 { return; }
      passwd := head[findPwd + 5..findEnc];
    }

    /** The loop of `parseBuffer`, from the first newline on. */
    method ParseAllLines(buffer: string)
      modifies this
      ensures View() == ParseLines(sotpVersion, old(View()), buffer)
      ensures sotpVersion == old(sotpVersion) && protoType == old(protoType)
    {
      hide ParseLine;
      var next := Some(buffer);
      while next.Some? && next.value != "" && next.value[0] == '\n'
        invariant sotpVersion == old(sotpVersion) && protoType == old(protoType)
        invariant (if next.Some? then ParseLines(sotpVersion, View(), next.value) else View())
               == ParseLines(sotpVersion, old(View()), buffer)
        decreases if next.Some? then |next.value| + 1 else 0
      {
        next := ParseOneLine(next.value[1..]);
      }
    }

    /** `parseBuffer` of a fresh parser. */
    method ParseBuffer(buffer: string) returns (ok: bool)
      requires View() == BLANK
      modifies this
      ensures match SotpParse.ParseBuffer(buffer)
        case None => !ok
        case Some(m) => ok && View() == m.fields && sotpVersion == m.version && protoType == m.protoType
    {
      hide ParseLines, Proto20, FindFrom, Atoi;
      var name := 2;
      if IsVersion21(buffer) {
        sotpVersion := V21;
        var t := ItemNumber(buffer[0]);
        if t < 1 || t > 12 { return false; }
        protoType := t;
      } else {
        var at := FindFrom(Upto(buffer, '\0'), "SOTP/2.0", 0);
        if at < 0 { return false; }
        sotpVersion := V20;
        name := at;
        var t := Proto20(buffer);
        if t.None? { return false; }
        protoType := t.value;
      }
      var s := buffer[name..];
      var nextLine := NewlineAt(s);
      if nextLine < 0 { return false; }
      if nextLine > 9 {
        resulted, resultValue := true, Atoi(s[9..nextLine]);
      }
      ParseAllLines(s[nextLine..]);
      ok := true;
    }
  }

  class SotpCallTable2 {
    var sessionId: string
    var appName: string
    var account: string
    var passwd: string
    var setAcceptEncoding: int
    var parameters: seq<Param>
    var currentCallId: nat
    var currentSeq: Seq16

    ghost function Who(): Caller
      reads this
    {
      Caller(sessionId, appName, account, passwd, setAcceptEncoding)
    }

    method GetParametersString(v: Version) returns (result: string)
      ensures result == ItemsText(v, PvItems(parameters))
    {
      hide ItemText;
      result := "";
      var i := 0;
      assert parameters[0..] == parameters;
      while i < |parameters|
        invariant 0 <= i <= |parameters|
        invariant result + ItemsText(v, PvItems(parameters[i..])) == ItemsText(v, PvItems(parameters))
      {
        var more := parameters[i + 1..];
        assert parameters[i..] == [parameters[i]] + more;
        PvItemsFirst(parameters[i], more);
        var param := ItemText(v, PvItem(parameters[i]));
        assert result + (param + ItemsText(v, PvItems(more))) == result + param + ItemsText(v, PvItems(more));
        result := result + param;
        i := i + 1;
      }
      assert parameters[i..] == [];
      assert result + "" == result;
    }

    lemma PvItemsFirst(p: Param, ps: seq<Param>)
      ensures PvItems([p] + ps) == [PvItem(p)] + PvItems(ps)
      ensures forall v :: ItemsText(v, PvItems([p] + ps)) == ItemText(v, PvItem(p)) + ItemsText(v, PvItems(ps))
    {
      assert ([p] + ps)[1..] == ps;
      assert ([PvItem(p)] + PvItems(ps))[1..] == PvItems(ps);
    }

    /** The parameters set so far go into the call and are cleared; a call without a name is not made. */
    method ToAppCallString(v: Version, cid: nat, sign: nat, api: string, sn: Seq16, needAck: bool) returns (result: string)
      modifies this`parameters
      ensures result == CallText(v, Who(), Call(needAck, sn, cid, sign, api, old(parameters), None))
      ensures parameters == if api == "" then old(parameters) else []
    {
      hide ItemText, FirstLine, CallHead;
      if api == "" { return ""; }
      var ps := GetParametersString(v);
      ghost var c := Call(needAck, sn, cid, sign, api, parameters, None);
      parameters := [];
      var head := HeadString(v, needAck, sn, cid, sign, api);
      ItemsTextConcat(v, CallHead(v, Who(), c), PvItems(c.parameters));
      result := FirstLine(v, false, None) + head + ps;
      assert result + "" == result;
    }

    /** What stands between the first line and the parameters of a call. */
    method HeadString(v: Version, needAck: bool, sn: Seq16, cid: nat, sign: nat, api: string) returns (result: string)
      ensures forall ps, a :: result == ItemsText(v, CallHead(v, Who(), Call(needAck, sn, cid, sign, api, ps, a)))
    {
      hide ItemText;
      var ack := if needAck then ItemText(v, NAckItem) + ItemText(v, SeqItem(sn)) else "";
      var encoding := if v == V21 then ItemText(v, AcceptItem(setAcceptEncoding)) else "";
      var who := if sessionId == "" then ItemText(v, AppItem(appName)) + ItemText(v, UaItem(account, passwd))
                 else ItemText(v, SidItem(sessionId));
      var ids := ItemText(v, CidItem(cid)) + ItemText(v, SignItem(sign)) + ItemText(v, ApiItem(api));
      result := ack + encoding + who + ids;
      AckString(v, needAck, sn);
      CallerString(v, Who());
      ThreeItems(v, CidItem(cid), SignItem(sign), ApiItem(api));
      var xs, ys, zs := AckItems(needAck, sn), AcceptItems(v, Who()), CallerItems(Who());
      var ws := [CidItem(cid), SignItem(sign), ApiItem(api)];
      ItemsTextConcat(v, xs, ys);
      ItemsTextConcat(v, xs + ys, zs);
      ItemsTextConcat(v, xs + ys + zs, ws);
      OneItem(v, AcceptItem(setAcceptEncoding));
    }

    /** The result of a call, with the parameters set so far, which are cleared. */
    method ToAppCallResult(v: Version, cid: nat, sign: nat, retCode: int, sn: Seq16, needAck: bool) returns (result: string)
      modifies this`parameters
      ensures parameters == []
      ensures result == ResultText(v, retCode, Call(needAck, sn, cid, sign, "", old(parameters), None))
    {
      hide ItemText, FirstLine;
      var ack := if needAck then ItemText(v, NAckItem) + ItemText(v, SeqItem(sn)) else "";
      var responseValues := GetParametersString(v);
      ghost var ps := parameters;
      parameters := [];
      var ids := ItemText(v, CidItem(cid)) + ItemText(v, SignItem(sign));
      result := FirstLine(v, false, Some(retCode)) + (ack + ids + responseValues);
      AckString(v, needAck, sn);
      TwoItems(v, CidItem(cid), SignItem(sign));
      var xs, ys := AckItems(needAck, sn), [CidItem(cid), SignItem(sign)];
      ItemsTextConcat(v, xs, ys);
      ItemsTextConcat(v, xs + ys, PvItems(ps));
      assert xs + ys + PvItems(ps) + [] == xs + ys + PvItems(ps);
    }

    method ToAttachString(v: Version, attach: Attach) returns (result: string)
      ensures result == ItemsText(v, AtItems(Some(attach)))
    {
      if attach.data == "" { return ""; }
      OneItem(v, AtItem(attach));
      var fields := Str(attach.name) + ";at=" + DecInt(attach.total) + ";ai=" + DecInt(attach.index) + ";al=" + DecInt(|attach.data|);
      if v == V21 {
        result := "9" + fields + "\n";
      } else {
        result := "At: " + fields + "\n";
      }
      result := result + attach.data + "\n";
    }

    method ToAckString(v: Version, sn: Seq16) returns (result: string)
      ensures result == AckText(v, sn)
    {
      OneItem(v, SeqItem(sn));
      if v == V21 {
        result := "B SOTP/2.1\n4" + DecInt(sn) + "\n";
        assert result == "B SOTP/2.1\n" + ("4" + DecInt(sn) + "\n");
      } else {
        result := "ACK SOTP/2.0\nSeq: " + DecInt(sn) + "\n";
        assert result == "ACK SOTP/2.0\n" + ("Seq: " + DecInt(sn) + "\n");
      }
    }

    /** Call ids are 64 bits wide and never 0, for 1 is handed out in its place, twice. */
    method GetNextCallId() returns (id: nat)
      requires currentCallId < TWO64
      modifies this`currentCallId
      ensures currentCallId == (old(currentCallId) + 1) % TWO64
      ensures id == if currentCallId == 0 then 1 else currentCallId
    {
      currentCallId := (currentCallId + 1) % TWO64;
      id := if currentCallId == 0 then 1 else currentCallId;
    }

    method GetNextSeq() returns (sn: Seq16)
      modifies this`currentSeq
      ensures sn == currentSeq == Wrap16(old(currentSeq) + 1)
    {
      currentSeq := Wrap16(currentSeq + 1);
      sn := currentSeq;
    }
  }

  lemma OneItem(v: Version, item: Item)
    ensures ItemsText(v, [item]) == ItemText(v, item)
  {
    hide ItemText;
    assert [item][1..] == [];
    assert ItemText(v, item) + "" == ItemText(v, item);
  }

  lemma TwoItems(v: Version, a: Item, b: Item)
    ensures ItemsText(v, [a, b]) == ItemText(v, a) + ItemText(v, b)
  {
    hide ItemText, ItemsText;
    ItemsTextConcat(v, [a], [b]);
    OneItem(v, a);
    OneItem(v, b);
    assert [a] + [b] == [a, b];
  }

  lemma ThreeItems(v: Version, a: Item, b: Item, c: Item)
    ensures ItemsText(v, [a, b, c]) == ItemText(v, a) + ItemText(v, b) + ItemText(v, c)
  {
    hide ItemText, ItemsText;
    ItemsTextConcat(v, [a, b], [c]);
    TwoItems(v, a, b);
    OneItem(v, c);
    assert [a, b] + [c] == [a, b, c];
  }

  lemma AckString(v: Version, needAck: bool, sn: Seq16)
    ensures ItemsText(v, AckItems(needAck, sn)) == if needAck then ItemText(v, NAckItem) + ItemText(v, SeqItem(sn)) else ""
  {
    hide ItemText;
    TwoItems(v, NAckItem, SeqItem(sn));
  }

  lemma CallerString(v: Version, who: Caller)
    ensures ItemsText(v, CallerItems(who)) ==
      if who.sid == "" then ItemText(v, AppItem(who.app)) + ItemText(v, UaItem(who.account, who.passwd))
      else ItemText(v, SidItem(who.sid))
  {
    hide ItemText;
    TwoItems(v, AppItem(who.app), UaItem(who.account, who.passwd));
    OneItem(v, SidItem(who.sid));
  }
}
