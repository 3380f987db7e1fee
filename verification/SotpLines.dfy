/** What the parser makes of lines that the printer does not write: blanks before keywords, heads that are
    incomplete or announce more than there is, unknown items, and results. */
module SotpLines {
  import opened Wrappers
  import opened SotpNumbers
  import opened SotpParse
  import opened SotpRoundTrip

  // ---- Heads with any fields ----

  /** A parameter takes as many characters as its head says, whatever stands in them, and without any more
      behind them; with fewer the parse ends. */
  lemma PvReadAny(f: Fields, name: string, kind: string, number: string, head: string, s: string, newline: nat)
    requires Avoids(name, ";pt=") && Avoids(kind, ";pl=") && head == name + ";pt=" + kind + ";pl=" + number
    requires newline < |s|
    ensures var n, left := Atoi(number), s[newline + 1..];
            ReadPv(f, head, s, newline) ==
              if n < 0 || n > |left| then Stop
              else Go(f.(parameters := f.parameters + [Param(name, TypedValue(kind, left[..n]))]), left[n..])
  {
    hide FindFrom, Atoi, TypedValue, Avoids;
    Markers();
    TwoParts(name, ";pt=", kind, ";pl=", number, head);
    var n, left := Atoi(number), s[newline + 1..];
    if 0 <= n <= |left| {
      assert s[newline + 1..newline + 1 + n] == left[..n] && s[newline + 1 + n..] == left[n..];
    }
  }

  /** A head without both marks is passed over. */
  lemma PvIncomplete(f: Fields, head: string, s: string, newline: nat)
    requires newline < |s| && (Avoids(head, ";pt=") || Avoids(head, ";pl="))
    ensures ReadPv(f, head, s, newline) == Go(f, s[newline..])
  {
  }

  /** The same of an attachment. One without data keeps the fields of its head. */
  lemma AtReadAny(f: Fields, name: string, total: string, index: string, number: string, head: string, s: string, newline: nat)
    requires Avoids(name, ";at=") && Avoids(total, ";ai=") && Avoids(index, ";al=")
    requires head == name + ";at=" + total + ";ai=" + index + ";al=" + number && newline < |s|
    ensures var n, left := ReadId(number) % 0x1_0000_0000, s[newline + 1..];
            var attach := Attach(name, Atoi64(total), Atoi64(index), f.attach.data);
            ReadAt(f, head, s, newline) ==
              if n == 0 then Go(f.(attach := attach), s[newline..])
              else if n > |left| then Stop
              else Go(f.(attach := attach.(data := left[..n])), left[n..])
  {
    hide FindFrom, Atoi64, ReadId, Avoids;
    AtPartsOf(name, total, index, number, head);
    var n, left := ReadId(number) % 0x1_0000_0000, s[newline + 1..];
    if n <= |left| {
      assert s[newline + 1..newline + 1 + n] == left[..n] && s[newline + 1 + n..] == left[n..];
    }
  }

  /** A head without its first mark is passed over; without another one it empties the attachment. */
  lemma AtIncomplete(f: Fields, head: string, s: string, newline: nat)
    requires newline < |s|
    ensures Avoids(head, ";at=") ==> ReadAt(f, head, s, newline) == Go(f, s[newline..])
    ensures !Avoids(head, ";at=") && (Avoids(head, ";ai=") || Avoids(head, ";al=")) ==>
      ReadAt(f, head, s, newline) == Go(f.(attach := Attach("", 0, 0, "")), s[newline..])
  {
  }

  /** An account: with both marks name and password are taken, with the first only the name, and without it
      nothing. */
  lemma UaReadAny(f: Fields, account: string, passwd: string, kind: string, head: string)
    requires Avoids(account, ";pwd=") && Avoids(passwd, ";enc=") && head == account + ";pwd=" + passwd + ";enc=" + kind
    ensures ReadUa(f, head) == f.(account := account, passwd := passwd)
  {
    hide FindFrom, Avoids;
    Markers();
    TwoParts(account, ";pwd=", passwd, ";enc=", kind, head);
  }

  lemma UaIncomplete(f: Fields, account: string, later: string, head: string)
    requires Avoids(account, ";pwd=") && head == account + ";pwd=" + later && Avoids(head, ";enc=")
    ensures ReadUa(f, head) == f.(account := account)
  {
    Markers();
    assert "" + account == account;
    hide Avoids, Marker;
    PartRead("", account, ";pwd=", later, head);
  }

  lemma UaWithout(f: Fields, head: string)
    requires Avoids(head, ";pwd=")
    ensures ReadUa(f, head) == f
  {
  }

  // ---- Blanks before a keyword ----

  predicate AllBlank(b: string) {
    forall c :: c in b ==> c == ' ' || c == '\t'
  }

  lemma {:induction false} BlanksAdd(b: string, s: string)
    requires AllBlank(b)
    ensures Blanks(b + s) == |b| + Blanks(s)
  {
    if b == "" {
      assert b + s == s;
    } else {
      assert b[0] in b && (b + s)[1..] == b[1..] + s;
      forall c | c in b[1..] ensures c in b {
      }
      BlanksAdd(b[1..], s);
    }
  }

  lemma BehindShifts(b: string, s: string, key: string)
    requires AllBlank(b)
    ensures Behind(b + s, key) == if Behind(s, key) < 0 then -1 else |b| + Behind(s, key)
  {
    hide Blanks;
    BlanksAdd(b, s);
    var left := Blanks(s);
    if left + |key| <= |s| {
      assert (b + s)[|b| + left..|b| + left + |key|] == s[left..left + |key|];
    }
  }

  lemma KeywordShifts(b: string, s: string)
    requires AllBlank(b)
    ensures var (key, from), (shifted, later) := KeywordOf(s), KeywordOf(b + s);
            shifted == key && (key != Unknown ==> later == |b| + from)
  {
    BehindShifts(b, s, "Sid: ");
    BehindShifts(b, s, "Sd: ");
    BehindShifts(b, s, "Cid: ");
    BehindShifts(b, s, "Seq: ");
    BehindShifts(b, s, "NAck: ");
    BehindShifts(b, s, "Sign: ");
    BehindShifts(b, s, "Api: ");
    BehindShifts(b, s, "Pv: ");
    BehindShifts(b, s, "At: ");
    BehindShifts(b, s, "App: ");
    BehindShifts(b, s, "Ssl: ");
    BehindShifts(b, s, "Ua: ");
    hide Behind;
  }

  lemma {:induction false} NewlineShifts(b: string, s: string)
    requires AllBlank(b)
    ensures NewlineAt(b + s) == if NewlineAt(s) < 0 then -1 else |b| + NewlineAt(s)
  {
    if b == "" {
      assert b + s == s;
    } else {
      assert b[0] in b && (b + s)[1..] == b[1..] + s;
      forall c | c in b[1..] ensures c in b {
      }
      NewlineShifts(b[1..], s);
    }
  }

  lemma TextShifts(b: string, s: string, from: nat, newline: nat)
    requires AllBlank(b) && newline < |s|
    ensures LineText(b + s, |b| + from, |b| + newline) == LineText(s, from, newline)
  {
    var t := b + s;
    assert newline > 0 ==> t[|b| + newline - 1] == s[newline - 1];
    assert newline == 0 && |b| > 0 ==> t[|b| - 1] == b[|b| - 1] && b[|b| - 1] in b;
    var end := if newline > 0 && s[newline - 1] == '\r' then newline - 1 else newline;
    if from <= end {
      assert t[|b| + from..|b| + end] == s[from..end];
    }
  }

  lemma SliceShifts(b: string, s: string, from: int, end: int)
    ensures 0 <= from <= end <= |s| ==> (b + s)[|b| + from..|b| + end] == s[from..end]
  {
  }

  lemma LongShifts(f: Fields, head: string, b: string, s: string, newline: nat)
    requires newline < |s|
    ensures ReadPv(f, head, b + s, |b| + newline) == ReadPv(f, head, s, newline)
    ensures ReadAt(f, head, b + s, |b| + newline) == ReadAt(f, head, s, newline)
  {
    hide FindFrom, Atoi, Atoi64, ReadId, TypedValue;
    var t := b + s;
    assert forall k :: newline <= k <= |s| ==> t[|b| + k..] == s[k..];
    var pt := FindFrom(head, ";pt=", 0);
    var pl := if pt < 0 then -1 else FindFrom(head, ";pl=", pt + 4);
    if pl >= 0 {
      SliceShifts(b, s, newline + 1, newline + 1 + Atoi(head[pl + 4..]));
    }
    var at := FindFrom(head, ";at=", 0);
    var ai := if at < 0 then -1 else FindFrom(head, ";ai=", at + 4);
    var al := if ai < 0 then -1 else FindFrom(head, ";al=", ai + 4);
    if al >= 0 {
      SliceShifts(b, s, newline + 1, newline + 1 + ReadId(head[al + 4..]) % 0x1_0000_0000);
    }
  }

  /** In version 2.0 blanks and tabs before a keyword mean nothing. */
  lemma BlanksMeanNothing(f: Fields, b: string, s: string)
    requires AllBlank(b)
    ensures ParseLine20(f, b + s) == ParseLine20(f, s)
  {
    hide KeywordOf, NewlineAt, LineText, ReadPv, ReadAt, ReadUa, AllBlank;
    var newline := NewlineAt(s);
    NewlineShifts(b, s);
    KeywordShifts(b, s);
    if newline >= 0 {
      var (key, from) := KeywordOf(s);
      TextShifts(b, s, from, newline);
      LongShifts(f, LineText(s, from, newline), b, s, newline);
      assert (b + s)[|b| + newline..] == s[newline..];
    }
  }

  // ---- Items of version 2.1 ----

  /** Items of RTP end the parse of a text message, and unknown ones are passed over. At encrypted and encoded
      ones the model ends. */
  lemma OtherItems(f: Fields, s: string)
    requires s != "" && NewlineAt(s) >= 0
    ensures s[0] in ['2', 'B', 'D', 'E', 'G'] ==> ParseLine21(f, s) == Stop
    ensures s[0] > 'G' || s[0] < '1' ==> ParseLine21(f, s) == Go(f, s[NewlineAt(s)..])
  {
    hide NewlineAt, LineText, ReadPv, ReadAt, ReadUa;
  }

  /** A line ends at its newline, unless a NUL comes first. */
  lemma {:induction false} NulHidesNewline(a: string, b: string)
    requires '\n' !in a
    ensures NewlineAt(a + ['\0'] + b) == -1
  {
    var s := a + ['\0'] + b;
    if a != "" {
      assert s[1..] == a[1..] + ['\0'] + b;
      assert a[0] in a;
      forall c | c in a[1..] ensures c in a {
      }
      NulHidesNewline(a[1..], b);
    }
  }

  /** The parse ends where no newline follows what an item has taken. */
  lemma EndsWithoutNewline(v: Version, f: Fields, rest: string)
    requires rest == "" || rest[0] != '\n'
    ensures ParseLines(v, f, rest) == f
  {
  }

  // ---- The first line ----

  /** What follows the protocol name and one more character is the result, if it is not empty. */
  lemma ResultRead(v: Version, t: int, name: string, c: char, code: string, rest: string)
    requires |name| == 8 && OneLine(name) && OneLine([c]) && OneLine(code)
    ensures ParseFrom(v, t, name + [c] + code + "\n" + rest) ==
      Some(Message(v, t, ParseLines(v, BLANK.(resulted := code != "", resultValue := if code == "" then 0 else Atoi(code)), "\n" + rest)))
  {
    hide Atoi, ParseLines, NewlineAt;
    var line := name + [c] + code;
    var s := line + "\n" + rest;
    assert OneLine(line);
    NewlineFound(line, rest);
    assert s[9..|line|] == code && s[|line|..] == "\n" + rest;
  }

  /** A message without items leaves everything at its start. */
  lemma NothingRead()
    ensures ParseBuffer("B SOTP/2.1\n") ==
      Some(Message(V21, 11, Fields(false, 0, false, "", "", "", "", "", 0, 0, 0, false, 0, [], Attach("", 0, 0, ""))))
  {
    var s := "B SOTP/2.1\n";
    assert s[1..10] == " SOTP/2.1";
    var t := s[2..];
    assert t == "SOTP/2.1" + "\n" + "";
    assert OneLine("SOTP/2.1");
    NewlineFound("SOTP/2.1", "");
    assert t[8..] == "\n";
    assert ParseLines(V21, BLANK, "\n") == BLANK;
  }
}
