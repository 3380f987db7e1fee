/** The sender's table of unanswered messages (`addSeqInfo`, `checkSeqTimeout`, acknowledgements): each
    message is sent a bounded number of times, with pauses, and has one outcome. The clock is an input,
    read anew for every message. */
module CallTable {
  import opened Wrappers
  import opened Integers

  /** `cgcSeqInfo` */
  datatype Entry = Entry(
    cid: nat, sign: nat, data: seq<Byte>, timeoutResends: nat, timeoutSeconds: nat, sendTime: int, resends: nat)

  type Table = map<Seq16, Entry>

  /** What a caller asks to be tracked; the limits are those of the client. */
  datatype Call = Call(sn: Seq16, cid: nat, sign: nat, data: seq<Byte>, timeoutResends: nat, timeoutSeconds: nat)

  predicate Tracked(c: Call) {
    c.timeoutResends > 0 && c.timeoutSeconds > 0 && c.data != []
  }

  /** `addSeqInfo`: a number still in the table keeps its call id and the resends it has used up. */
  function Add(t: Table, c: Call, now: int): Table {
    if !Tracked(c) then t
    else if c.sn in t then
      t[c.sn := t[c.sn].(sign := c.sign, data := c.data, timeoutResends := c.timeoutResends,
                         timeoutSeconds := c.timeoutSeconds, sendTime := now)]
    else t[c.sn := Entry(c.cid, c.sign, c.data, c.timeoutResends, c.timeoutSeconds, now, 0)]
  }

  /** `isTimeout`: a send time that is not in the past starts over. */
  function Look(e: Entry, now: int): (r: (bool, Entry)) {
    if e.timeoutSeconds == 0 then (false, e)
    else if now <= e.sendTime || e.sendTime == 0 then (false, e.(sendTime := now))
    else (now - e.sendTime >= 3, e)
  }

  predicate Due(e: Entry, now: int) {
    Look(e, now).0
  }

  /** A pass: the table after it, the messages it sends again, and the one it gives up. */
  datatype Pass = Pass(table: Table, sent: seq<Seq16>, gaveUp: Option<Seq16>)

  const MAX_RESENDS_BEFORE_STOP: nat := 10

  /** What the clock shows when a message is looked at, and when it is sent again. */
  datatype Readings = Readings(look: int, send: int)

  type Clock = Seq16 -> Readings

  function Resent(e: Entry, now: int): Entry {
    e.(resends := e.resends + 1, sendTime := now)
  }

  /** `checkSeqTimeout` from number `k` on, with `n` messages sent so far. */
  function Scan(t: Table, k: nat, clock: Clock, n: nat): Pass
    requires k <= 65536
    decreases 65536 - k
  {
    if k == 65536 then Pass(t, [], None)
    else if k !in t then Scan(t, k + 1, clock, n)
    else
      var looked := Look(t[k], clock(k).look);
      if !looked.0 then Scan(t[k := looked.1], k + 1, clock, n)
      else if looked.1.resends < looked.1.timeoutResends then
        var next := t[k := Resent(looked.1, clock(k).send)];
        if n >= MAX_RESENDS_BEFORE_STOP then Pass(next, [k], None)
        else
          var rest := Scan(next, k + 1, clock, n + 1);
          rest.(sent := [k] + rest.sent)
      else Pass(t - {k}, [], Some(k))
  }

  function Check(t: Table, clock: Clock): Pass {
    Scan(t, 0, clock, 0)
  }

  // ---- One pass ----

  /** At most eleven messages, by increasing number. */
  lemma {:induction false} ScanBounded(t: Table, k: nat, clock: Clock, n: nat)
    requires k <= 65536 && n <= MAX_RESENDS_BEFORE_STOP
    ensures var p := Scan(t, k, clock, n);
            && n + |p.sent| <= 11
            && (forall i :: 0 <= i < |p.sent| ==> k <= p.sent[i])
            && (forall i, j :: 0 <= i < j < |p.sent| ==> p.sent[i] < p.sent[j])
    decreases 65536 - k
  {
    if k < 65536 {
      if k !in t {
        ScanBounded(t, k + 1, clock, n);
      } else {
        var looked := Look(t[k], clock(k).look);
        if !looked.0 {
          ScanBounded(t[k := looked.1], k + 1, clock, n);
        } else if looked.1.resends < looked.1.timeoutResends && n < MAX_RESENDS_BEFORE_STOP {
          ScanBounded(t[k := Resent(looked.1, clock(k).send)], k + 1, clock, n + 1);
        }
      }
    }
  }

  lemma PassBounded(t: Table, clock: Clock)
    ensures var p := Check(t, clock);
            |p.sent| <= 11 && forall i, j :: 0 <= i < j < |p.sent| ==> p.sent[i] < p.sent[j]
  {
    ScanBounded(t, 0, clock, 0);
  }

  predicate Resends(e: Entry, now: int) {
    Due(e, now) && e.resends < e.timeoutResends
  }

  predicate Exhausted(e: Entry, now: int) {
    Due(e, now) && e.resends >= e.timeoutResends
  }

  /** The pass got past number `x`: it neither gave up a smaller one nor stopped there. */
  predicate GotTo(p: Pass, x: Seq16, n: nat) {
    && (p.gaveUp.Some? ==> x <= p.gaveUp.value)
    && (n + |p.sent| > MAX_RESENDS_BEFORE_STOP ==> p.sent != [] && x <= p.sent[|p.sent| - 1])
  }

  /** What the pass makes of one entry, if it gets to it. */
  function Entered(e: Entry, now: Readings): Option<Entry> {
    if Resends(e, now.look) then Some(Resent(Look(e, now.look).1, now.send))
    else if Exhausted(e, now.look) then None
    else Some(Look(e, now.look).1)
  }

  ghost predicate EntryAfter(t: Table, p: Pass, x: Seq16, now: Readings, n: nat) {
    && (x in p.sent <==> x in t && GotTo(p, x, n) && Resends(t[x], now.look))
    && (p.gaveUp == Some(x) <==> x in t && GotTo(p, x, n) && Exhausted(t[x], now.look))
    && (x in p.table <==> x in t && p.gaveUp != Some(x))
    && (x in p.table ==> p.table[x] == if GotTo(p, x, n) then Entered(t[x], now).value else t[x])
  }

  lemma {:induction false} ScanEntry(t: Table, k: nat, clock: Clock, n: nat, x: Seq16)
    requires k <= 65536 && n <= MAX_RESENDS_BEFORE_STOP
    ensures var p := Scan(t, k, clock, n);
            x < k ==> x !in p.sent && p.gaveUp != Some(x) && (x in p.table <==> x in t) && (x in t ==> p.table[x] == t[x])
    ensures x >= k ==> EntryAfter(t, Scan(t, k, clock, n), x, clock(x), n)
    ensures Scan(t, k, clock, n).gaveUp.Some? ==> Scan(t, k, clock, n).gaveUp.value >= k && n + |Scan(t, k, clock, n).sent| <= MAX_RESENDS_BEFORE_STOP
    decreases 65536 - k
  {
    ScanBounded(t, k, clock, n);
    if k < 65536 {
      if k !in t {
        ScanEntry(t, k + 1, clock, n, x);
      } else {
        var looked := Look(t[k], clock(k).look);
        if !looked.0 {
          ScanEntry(t[k := looked.1], k + 1, clock, n, x);
        } else if looked.1.resends < looked.1.timeoutResends && n < MAX_RESENDS_BEFORE_STOP {
          ScanEntry(t[k := Resent(looked.1, clock(k).send)], k + 1, clock, n + 1, x);
        }
      }
    }
  }

  /** Exactly what one pass does: it goes through the numbers in order, sends every due message again that
      has resends left, and stops behind the eleventh or at the first that has none left, which it
      gives up. */
  lemma PassExact(t: Table, clock: Clock, x: Seq16)
    ensures EntryAfter(t, Check(t, clock), x, clock(x), 0)
  {
    ScanEntry(t, 0, clock, 0, x);
  }

  // ---- Runs ----

  datatype Event =
    | Added(call: Call, addTime: int)
    | Acked(sn: Seq16)
    | Checked(clock: Clock)
    | Cleared

  function Step(t: Table, e: Event): Table {
    match e
    case Added(c, now) => Add(t, c, now)
    case Acked(sn) => t - {sn}
    case Checked(clock) => Check(t, clock).table
    case Cleared => map[]
  }

  function After(es: seq<Event>): Table {
    if es == [] then map[] else Step(After(es[..|es| - 1]), es[|es| - 1])
  }

  /** Event `e` sends message `x` again. */
  predicate ResendsIn(t: Table, e: Event, x: Seq16) {
    e.Checked? && x in Check(t, e.clock).sent
  }

  predicate GivesUp(t: Table, e: Event, x: Seq16) {
    e.Checked? && Check(t, e.clock).gaveUp == Some(x)
  }

  /** From event `i`, which starts to track message `x`, until before event `j` the message stays in the
      table and its number is not used again. */
  ghost predicate Lives(es: seq<Event>, i: nat, j: nat, x: Seq16) {
    && i < j <= |es|
    && es[i].Added? && es[i].call.sn == x && Tracked(es[i].call) && x !in After(es[..i])
    && (forall k :: i < k <= j ==> x in After(es[..k]))
    && (forall k :: i < k < j ==> !(es[k].Added? && es[k].call.sn == x))
  }

  /** How often it is sent again between events `i` and `j`. */
  ghost function ResendCount(es: seq<Event>, i: nat, j: nat, x: Seq16): nat
    requires i < j <= |es|
    decreases j - i
  {
    if j == i + 1 then 0
    else ResendCount(es, i, j - 1, x) + if ResendsIn(After(es[..j - 1]), es[j - 1], x) then 1 else 0
  }

  /** What one event does to a message that stays in the table. */
  lemma StepEntry(t: Table, e: Event, x: Seq16)
    requires x in t && x in Step(t, e) && !(e.Added? && e.call.sn == x)
    ensures var a, b := t[x], Step(t, e)[x];
            && b.(sendTime := a.sendTime, resends := a.resends) == a
            && b.resends == a.resends + (if ResendsIn(t, e, x) then 1 else 0)
            && (ResendsIn(t, e, x) ==>
                 && a.resends < a.timeoutResends
                 && e.clock(x).look - a.sendTime >= 3 && b.sendTime == e.clock(x).send)
            && (!ResendsIn(t, e, x) ==>
                 || b.sendTime == a.sendTime
                 || (e.Checked? && b.sendTime == e.clock(x).look && (e.clock(x).look <= a.sendTime || a.sendTime == 0)))
  {
    if e.Checked? {
      hide Check;
      PassExact(t, e.clock, x);
    }
  }

  lemma LivesBefore(es: seq<Event>, i: nat, j: nat, x: Seq16)
    requires Lives(es, i, j, x) && i + 1 < j
    ensures Lives(es, i, j - 1, x) && After(es[..j]) == Step(After(es[..j - 1]), es[j - 1])
    ensures x in After(es[..j]) && !(es[j - 1].Added? && es[j - 1].call.sn == x)
  {
    assert es[..j][..j - 1] == es[..j - 1] && es[..j][j - 1] == es[j - 1];
  }

  lemma LifeBegins(es: seq<Event>, i: nat, x: Seq16)
    requires Lives(es, i, i + 1, x)
    ensures var c := es[i].call;
            After(es[..i + 1])[x] == Entry(c.cid, c.sign, c.data, c.timeoutResends, c.timeoutSeconds, es[i].addTime, 0)
  {
    assert es[..i + 1][..i] == es[..i] && es[..i + 1][i] == es[i];
  }

  /** As long as it lives, the entry holds the message as it was given, counts its resends, and they stay
      within the limit. */
  lemma {:induction false} LifeCounts(es: seq<Event>, i: nat, j: nat, x: Seq16)
    requires Lives(es, i, j, x)
    ensures x in After(es[..j])
    ensures var e, c := After(es[..j])[x], es[i].call;
            && e.cid == c.cid && e.sign == c.sign && e.data == c.data
            && e.timeoutResends == c.timeoutResends && e.timeoutSeconds == c.timeoutSeconds
            && e.resends == ResendCount(es, i, j, x) <= c.timeoutResends
    decreases j - i
  {
    if j == i + 1 {
      LifeBegins(es, i, x);
    } else {
      LivesBefore(es, i, j, x);
      LifeCounts(es, i, j - 1, x);
      hide After, Step, Lives, ResendsIn;
      StepEntry(After(es[..j - 1]), es[j - 1], x);
    }
  }

  /** A message is given up only when it has been sent once and as often again as it may. */
  lemma GivenUpAfterAll(es: seq<Event>, i: nat, j: nat, x: Seq16)
    requires Lives(es, i, j, x) && j < |es| && GivesUp(After(es[..j]), es[j], x)
    ensures ResendCount(es, i, j, x) == es[i].call.timeoutResends
  {
    LifeCounts(es, i, j, x);
    PassExact(After(es[..j]), es[j].clock, x);
  }

  /** A message that lives on is sent at most once and `timeoutResends` times again, the event at its end
      included. */
  lemma BoundedSends(es: seq<Event>, i: nat, j: nat, x: Seq16)
    requires Lives(es, i, j, x) && j < |es|
    ensures ResendCount(es, i, j, x) + (if ResendsIn(After(es[..j]), es[j], x) then 1 else 0) <= es[i].call.timeoutResends
  {
    LifeCounts(es, i, j, x);
    if ResendsIn(After(es[..j]), es[j], x) {
      PassExact(After(es[..j]), es[j].clock, x);
    }
  }

  predicate Ends(t: Table, e: Event, x: Seq16) {
    x in t && x !in Step(t, e)
  }

  /** A message leaves the table in exactly one of three ways: acknowledged, given up, cleared. */
  lemma OneOutcome(t: Table, e: Event, x: Seq16)
    requires x in t
    ensures Once(e == Acked(x)) + Once(GivesUp(t, e, x)) + Once(e.Cleared?) == Once(Ends(t, e, x))
  {
    if e.Checked? {
      hide Check;
      PassExact(t, e.clock, x);
    }
  }

  // ---- Pauses ----

  /** What the clock shows at an event, first and last, as far as message `x` goes. */
  function ReadingsOf(e: Event, x: Seq16): Option<Readings> {
    match e
    case Added(_, now) => Some(Readings(now, now))
    case Checked(clock) => Some(clock(x))
    case _ => None
  }

  /** A clock that never goes back. */
  ghost predicate Monotone(es: seq<Event>, x: Seq16) {
    && (forall a :: 0 <= a < |es| && ReadingsOf(es[a], x).Some? ==>
          0 < ReadingsOf(es[a], x).value.look <= ReadingsOf(es[a], x).value.send)
    && (forall a, b :: 0 <= a < b < |es| && ReadingsOf(es[a], x).Some? && ReadingsOf(es[b], x).Some? ==>
          ReadingsOf(es[a], x).value.send <= ReadingsOf(es[b], x).value.look)
  }

  /** When the message was last sent. */
  ghost function LastSent(es: seq<Event>, i: nat, j: nat, x: Seq16): int
    requires i < j <= |es| && es[i].Added?
    decreases j - i
  {
    if j == i + 1 then es[i].addTime
    else if ResendsIn(After(es[..j - 1]), es[j - 1], x) then es[j - 1].clock(x).send
    else LastSent(es, i, j - 1, x)
  }

  lemma {:induction false} LastSentEarlier(es: seq<Event>, i: nat, j: nat, x: Seq16, m: nat)
    requires Monotone(es, x) && i < j <= m < |es| && es[i].Added? && ReadingsOf(es[m], x).Some?
    ensures 0 < LastSent(es, i, j, x) <= ReadingsOf(es[m], x).value.look
    decreases j - i
  {
    if j == i + 1 {
      assert ReadingsOf(es[i], x).Some?;
    } else if ResendsIn(After(es[..j - 1]), es[j - 1], x) {
      assert ReadingsOf(es[j - 1], x).Some?;
    } else {
      LastSentEarlier(es, i, j - 1, x, m);
    }
  }

  lemma {:induction false} SendTimeIsLastSent(es: seq<Event>, i: nat, j: nat, x: Seq16)
    requires Monotone(es, x) && Lives(es, i, j, x)
    ensures x in After(es[..j]) && After(es[..j])[x].sendTime == LastSent(es, i, j, x)
    decreases j - i
  {
    if j == i + 1 {
      LifeBegins(es, i, x);
    } else {
      LivesBefore(es, i, j, x);
      SendTimeIsLastSent(es, i, j - 1, x);
      if es[j - 1].Checked? {
        LastSentEarlier(es, i, j - 1, x, j - 1);
      }
      hide After, Step, Lives, ResendsIn;
      StepEntry(After(es[..j - 1]), es[j - 1], x);
    }
  }

  /** With a clock that never goes back every resend, and giving up, comes at least three seconds after
      the last time the message was sent. */
  lemma Pauses(es: seq<Event>, i: nat, j: nat, x: Seq16)
    requires Monotone(es, x) && Lives(es, i, j, x) && j < |es|
    requires ResendsIn(After(es[..j]), es[j], x) || GivesUp(After(es[..j]), es[j], x)
    ensures es[j].clock(x).look - LastSent(es, i, j, x) >= 3
  {
    SendTimeIsLastSent(es, i, j, x);
    PassExact(After(es[..j]), es[j].clock, x);
  }

  // ---- Numbers in use ----

  /** What tracking a message makes of every entry: nothing without data or a limit; a new entry has used
      no resends; one whose number is still in the table takes over the new data, limits and time but keeps
      its call id and the resends it has used. */
  lemma AddExactly(t: Table, c: Call, now: int, x: Seq16)
    ensures var next, tracks := Add(t, c, now), c.timeoutResends > 0 && c.timeoutSeconds > 0 && c.data != [];
            && (x in next <==> x in t || (tracks && x == c.sn))
            && (x in next && !(tracks && x == c.sn) ==> next[x] == t[x])
            && (tracks && x == c.sn ==>
                 var e := next[x];
                 && e.data == c.data && e.sign == c.sign && e.sendTime == now
                 && e.timeoutResends == c.timeoutResends && e.timeoutSeconds == c.timeoutSeconds
                 && e.cid == (if x in t then t[x].cid else c.cid)
                 && e.resends == (if x in t then t[x].resends else 0))
  {
  }

  /** So a message that takes the number of one that has used up its resends is given up when it is due,
      without having been sent again. */
  lemma ReusedNumberGivenUp(t: Table, c: Call, now: int, clock: Clock)
    requires Tracked(c) && c.sn in t && t[c.sn].resends >= c.timeoutResends
    requires now > 0 && clock(c.sn).look - now >= 3
    ensures var next := Add(t, c, now);
            var p := Check(next, clock);
            c.sn !in p.sent && (GotTo(p, c.sn, 0) ==> p.gaveUp == Some(c.sn))
  {
    hide Check;
    PassExact(Add(t, c, now), clock, c.sn);
  }

  // ---- The table in place ----

  /** What is to come of a pass that has got to number `k` and sent `sent`. */
  ghost predicate Leads(t: Table, k: nat, clock: Clock, sent: seq<Seq16>, total: Pass) {
    && k <= 65536
    && var rest := Scan(t, k, clock, |sent|);
       Pass(rest.table, sent + rest.sent, rest.gaveUp) == total
  }

  lemma LeadsBegin(t: Table, clock: Clock)
    ensures Leads(t, 0, clock, [], Check(t, clock))
  {
    var rest := Scan(t, 0, clock, 0);
    assert [] + rest.sent == rest.sent;
  }

  lemma LeadsEnd(t: Table, clock: Clock, sent: seq<Seq16>, total: Pass)
    requires Leads(t, 65536, clock, sent, total)
    ensures total == Pass(t, sent, None)
  {
    assert sent + [] == sent;
  }

  lemma LeadsPast(t: Table, k: Seq16, clock: Clock, sent: seq<Seq16>, total: Pass)
    requires Leads(t, k, clock, sent, total) && (k in t ==> !Due(t[k], clock(k).look))
    ensures Leads(if k in t then t[k := Look(t[k], clock(k).look).1] else t, k + 1, clock, sent, total)
  {
    hide Look;
  }

  lemma LeadsResent(t: Table, k: Seq16, clock: Clock, sent: seq<Seq16>, total: Pass)
    requires Leads(t, k, clock, sent, total) && k in t && Resends(t[k], clock(k).look)
    ensures var next := t[k := Resent(Look(t[k], clock(k).look).1, clock(k).send)];
            if |sent| >= 10 then total == Pass(next, sent + [k], None) else Leads(next, k + 1, clock, sent + [k], total)
  {
    hide Resent;
    var next := t[k := Resent(Look(t[k], clock(k).look).1, clock(k).send)];
    if |sent| < 10 {
      var rest := Scan(next, k + 1, clock, |sent| + 1);
      assert sent + ([k] + rest.sent) == sent + [k] + rest.sent;
    }
  }

  lemma LeadsGaveUp(t: Table, k: Seq16, clock: Clock, sent: seq<Seq16>, total: Pass)
    requires Leads(t, k, clock, sent, total) && k in t && Exhausted(t[k], clock(k).look)
    ensures total == Pass(t - {k}, sent, Some(k))
  {
    assert sent + [] == sent;
  }

  class SeqInfoTable {
    var mapSeqInfo: Table

    method AddSeqInfo(c: Call, now: int)
      modifies this
      ensures mapSeqInfo == Add(old(mapSeqInfo), c, now)
    {
      if c.timeoutResends == 0 || c.timeoutSeconds == 0 || c.data == [] { return; }
      if c.sn in mapSeqInfo {
        var e := mapSeqInfo[c.sn];
        e := e.(data := c.data);
        e := e.(timeoutResends := c.timeoutResends);
        e := e.(timeoutSeconds := c.timeoutSeconds);
        e := e.(sign := c.sign);
        e := e.(sendTime := now);
        mapSeqInfo := mapSeqInfo[c.sn := e];
      } else {
        mapSeqInfo := mapSeqInfo[c.sn := Entry(c.cid, c.sign, c.data, c.timeoutResends, c.timeoutSeconds, now, 0)];
      }
    }

    method CheckSeqTimeout(clock: Clock) returns (sent: seq<Seq16>, gaveUp: Option<Seq16>, more: bool)
      modifies this
      ensures Pass(mapSeqInfo, sent, gaveUp) == Check(old(mapSeqInfo), clock)
      ensures more <==> |sent| == 11 || (gaveUp.Some? && mapSeqInfo != map[])
    {
      hide Check, Leads, Look;
      ghost var total := Check(mapSeqInfo, clock);
      LeadsBegin(mapSeqInfo, clock);
      sent, gaveUp := [], None;
      var resendCount := 0;
      var k: int := 0;
      while k < 65536
        invariant 0 <= k <= 65536 && resendCount == |sent| <= 10 && Leads(mapSeqInfo, k, clock, sent, total)
      {
        if k in mapSeqInfo {
          var due, e := IsTimeout(mapSeqInfo[k], clock(k).look);
          LookMeans(mapSeqInfo[k], clock(k).look);
          if due {
            if e.resends < e.timeoutResends {
              LeadsResent(mapSeqInfo, k, clock, sent, total);
              mapSeqInfo := mapSeqInfo[k := e.(resends := e.resends + 1, sendTime := clock(k).send)];
              sent := sent + [k];
              resendCount := resendCount + 1;
              if resendCount > 10 {
                return sent, None, true;
              }
            } else {
              LeadsGaveUp(mapSeqInfo, k, clock, sent, total);
              mapSeqInfo := mapSeqInfo - {k};
              return sent, Some(k), mapSeqInfo != map[];
            }
          } else {
            LeadsPast(mapSeqInfo, k, clock, sent, total);
            mapSeqInfo := mapSeqInfo[k := e];
          }
        } else {
          LeadsPast(mapSeqInfo, k, clock, sent, total);
        }
        k := k + 1;
      }
      LeadsEnd(mapSeqInfo, clock, sent, total);
      more := false;
    }

    method Remove(sn: Seq16)
      modifies this
      ensures mapSeqInfo == old(mapSeqInfo) - {sn}
    {
      mapSeqInfo := mapSeqInfo - {sn};
    }
  }

  /** A message is due three seconds after it was last sent; a send time that is 0 or not in the past
      starts over. */
  lemma LookMeans(e: Entry, now: int)
    ensures Look(e, now).0 <==> e.timeoutSeconds != 0 && e.sendTime != 0 && now - e.sendTime >= 3
    ensures Look(e, now).1 == e.(sendTime := Look(e, now).1.sendTime)
    ensures Look(e, now).1.sendTime ==
      if e.timeoutSeconds != 0 && (e.sendTime == 0 || now <= e.sendTime) then now else e.sendTime
  {
  }

  method IsTimeout(e: Entry, now: int) returns (due: bool, after: Entry)
    ensures due <==> e.timeoutSeconds != 0 && e.sendTime != 0 && now - e.sendTime >= 3
    ensures after == e.(sendTime := if e.timeoutSeconds != 0 && (e.sendTime == 0 || now <= e.sendTime) then now else e.sendTime)
  {
    after := e;
    if e.timeoutSeconds == 0 { return false, after; }
    if now <= e.sendTime || e.sendTime == 0 {
      after := e.(sendTime := now);
      return false, after;
    }
    due := now - e.sendTime >= 3;
  }
}
