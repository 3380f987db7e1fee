/** The server's rooms over histories of commands and packets: who gets a packet, when a packet is sent
    on a second time, and who can change what a source receives. The clock and the answers of the
    application's callback are inputs. */
module RtpSession {
  import opened Wrappers
  import opened Integers
  import opened RtpRing

  /** A registered source. The last callback time is 0 until the callback has been asked for it. */
  datatype Member = Member(
    remote: Option<nat>, param: int, lastTime: int, callbackTime: int, sinks: set<Id>, ring: Ring<()>)

  type Members = map<Id, Member>
  type Rooms = map<Id, Members>

  /** Whether there is a callback, and what it answers if asked. */
  datatype Ask = Ask(callback: bool, approves: bool)

  datatype Event =
    | RegisterSource(room: Id, source: Id, param: int, remote: Option<nat>, ask: Ask, stale: bool, now: int)
    | UnRegisterSource(room: Id, source: Id, param: int)
    | RegisterSink(room: Id, source: Id, dest: Id, remote: Option<nat>, ask: Ask)
    | UnRegisterSink(room: Id, source: Id, dest: Id, remote: Option<nat>)
    | UnRegisterAllSink(room: Id, source: Id, remote: Option<nat>)
    | Data(room: Id, source: Id, sn: Seq16, timestamp: nat)
    | CheckLive(now: int, seconds: int)

  /** What the session returns; for a packet, whether it was sent on, and to whom. */
  datatype Result = Result(rooms: Rooms, ok: bool, broadcast: bool, sentTo: set<Id>)

  function Refused(rooms: Rooms): Result {
    Result(rooms, false, false, {})
  }

  function Done(rooms: Rooms): Result {
    Result(rooms, true, false, {})
  }

  function RemoteId(m: Member): nat {
    if m.remote.Some? then m.remote.value else 0
  }

  // ---- A room ----

  function NewMember(remote: Option<nat>, param: int, ask: Ask, now: int): Member {
    Member(remote, param, now, if ask.callback then now else 0, {}, EmptyRing())
  }

  /** `RegisterSource` for a source that is known: another remote, or more than ten minutes since the
      last question, needs the callback's consent. */
  function Again(m: Member, e: Event, ask: Ask): Option<Member>
    requires e.RegisterSource?
  {
    var asked := m.(param := e.param, lastTime := e.now);
    if !ask.callback then Some(asked)
    else if e.remote.None? then None
    else if RemoteId(m) != e.remote.value || m.callbackTime + 600 < e.now then
      if !ask.approves then None
      else Some(asked.(callbackTime := e.now, remote := if RemoteId(m) != e.remote.value then e.remote else m.remote))
    else if m.remote.None? || e.stale then Some(asked.(remote := e.remote))
    else Some(asked)
  }

  function Admit(ms: Members, e: Event, ask: Ask): Option<Members>
    requires e.RegisterSource?
  {
    if e.source == 0 then None
    else if e.source !in ms then
      if ask.callback && !ask.approves then None
      else Some(ms[e.source := NewMember(e.remote, e.param, ask, e.now)])
    else match Again(ms[e.source], e, ask)
      case None => None
      case Some(m) => Some(ms[e.source := m])
  }

  predicate FromRemote(m: Member, remote: Option<nat>) {
    remote.Some? && RemoteId(m) == remote.value
  }

  /** The new sinks of the source, if the command is accepted. */
  function Sinks(m: Member, e: Event): Option<set<Id>>
    requires e.RegisterSink? || e.UnRegisterSink? || e.UnRegisterAllSink?
  {
    if !FromRemote(m, e.remote) then None
    else match e
      case RegisterSink(_, _, dest, _, ask) =>
        if ask.callback && dest !in m.sinks && !ask.approves then None else Some(m.sinks + {dest})
      case UnRegisterSink(_, _, dest, _) => Some(m.sinks - {dest})
      case UnRegisterAllSink(_, _, _) => Some({})
  }

  function Alive(ms: Members, now: int, seconds: int): (r: Members)
    ensures r.Keys <= ms.Keys
  {
    map x | x in ms && now - ms[x].lastTime <= seconds :: ms[x]
  }

  /** `BroadcastRtpData`: the other sources that have a remote and the sender among their sinks. */
  function Recipients(ms: Members, sender: Id): set<Id> {
    set x | x in ms && x != sender && sender in ms[x].sinks && ms[x].remote.Some?
  }

  function MessageOf(e: Event): Msg<()>
    requires e.Data?
  {
    Msg(e.sn, e.timestamp, ())
  }

  // ---- The session ----

  /** In a room that does not exist yet the callback is asked before the room is made, and not again. */
  function DoRegisterSource(rooms: Rooms, e: Event): Result
    requires e.RegisterSource?
  {
    if e.room !in rooms && e.ask.callback && !e.ask.approves then Refused(rooms)
    else
      var known := e.room in rooms;
      var ms := if known then rooms[e.room] else map[];
      match Admit(ms, e, if known then e.ask else e.ask.(callback := false))
      case None => Refused(rooms[e.room := ms])
      case Some(next) => Done(rooms[e.room := next])
  }

  function DoUnRegisterSource(rooms: Rooms, e: Event): Result
    requires e.UnRegisterSource?
  {
    if e.room !in rooms || e.source !in rooms[e.room] || rooms[e.room][e.source].param != e.param then Refused(rooms)
    else
      var next := rooms[e.room] - {e.source};
      Done(if next == map[] then rooms - {e.room} else rooms[e.room := next])
  }

  function DoSink(rooms: Rooms, e: Event): Result
    requires e.RegisterSink? || e.UnRegisterSink? || e.UnRegisterAllSink?
  {
    if e.room !in rooms then Refused(rooms)
    else if e.source !in rooms[e.room] then if e.RegisterSink? then Refused(rooms) else Done(rooms)
    else match Sinks(rooms[e.room][e.source], e)
      case None => if e.UnRegisterAllSink? then Done(rooms) else Refused(rooms)
      case Some(sinks) => Done(rooms[e.room := rooms[e.room][e.source := rooms[e.room][e.source].(sinks := sinks)]])
  }

  function DoData(rooms: Rooms, e: Event): Result
    requires e.Data?
  {
    if e.room !in rooms || e.source !in rooms[e.room] then Refused(rooms)
    else
      var ms := rooms[e.room];
      var m := ms[e.source];
      var again := Repeats(m.ring, MessageOf(e));
      Result(rooms[e.room := ms[e.source := m.(ring := Put(m.ring, MessageOf(e)))]], true, !again,
             if again then {} else Recipients(ms, e.source))
  }

  function DoCheckLive(rooms: Rooms, e: Event): Result
    requires e.CheckLive?
  {
    Done(map r | r in rooms && Alive(rooms[r], e.now, e.seconds) != map[] :: Alive(rooms[r], e.now, e.seconds))
  }

  function Do(rooms: Rooms, e: Event): Result {
    match e
    case RegisterSource(_, _, _, _, _, _, _) => DoRegisterSource(rooms, e)
    case UnRegisterSource(_, _, _) => DoUnRegisterSource(rooms, e)
    case RegisterSink(_, _, _, _, _) => DoSink(rooms, e)
    case UnRegisterSink(_, _, _, _) => DoSink(rooms, e)
    case UnRegisterAllSink(_, _, _) => DoSink(rooms, e)
    case Data(_, _, _, _) => DoData(rooms, e)
    case CheckLive(_, _) => DoCheckLive(rooms, e)
  }

  function After(es: seq<Event>): Rooms {
    if es == [] then map[] else Do(After(es[..|es| - 1]), es[|es| - 1]).rooms
  }

  /** The result of event `i` of a history. */
  function At(es: seq<Event>, i: nat): Result
    requires i < |es|
  {
    Do(After(es[..i]), es[i])
  }

  predicate Registered(rooms: Rooms, room: Id, x: Id) {
    room in rooms && x in rooms[room]
  }

  predicate IsSink(rooms: Rooms, room: Id, x: Id, sender: Id) {
    Registered(rooms, room, x) && sender in rooms[room][x].sinks
  }

  // ---- One event and one source ----

  /** The command is about this source and comes from its own remote. */
  predicate Speaks(rooms: Rooms, e: Event, room: Id, x: Id) {
    && (e.RegisterSink? || e.UnRegisterSink? || e.UnRegisterAllSink?)
    && e.room == room && e.source == x && Registered(rooms, room, x)
    && var m := rooms[room][x]; e.remote.Some? && e.remote.value == if m.remote.Some? then m.remote.value else 0
  }

  /** The command makes `sender` a sink of `x`. */
  predicate Adds(rooms: Rooms, e: Event, room: Id, x: Id, sender: Id) {
    && e.RegisterSink? && e.dest == sender && Speaks(rooms, e, room, x)
    && (e.ask.callback ==> sender in rooms[room][x].sinks || e.ask.approves)
  }

  predicate Drops(rooms: Rooms, e: Event, room: Id, x: Id, sender: Id) {
    Speaks(rooms, e, room, x) && (e.UnRegisterAllSink? || (e.UnRegisterSink? && e.dest == sender))
  }

  lemma CheckLiveMember(rooms: Rooms, e: Event, room: Id, x: Id)
    requires e.CheckLive?
    ensures var next := Do(rooms, e).rooms;
            && (Registered(next, room, x) <==> Registered(rooms, room, x) && e.now - rooms[room][x].lastTime <= e.seconds)
            && (Registered(next, room, x) ==> next[room][x] == rooms[room][x])
  {
    if room in rooms && x in Alive(rooms[room], e.now, e.seconds) {
      assert Alive(rooms[room], e.now, e.seconds) != map[];
    }
  }

  lemma UnRegisterMember(rooms: Rooms, e: Event, room: Id, x: Id)
    requires e.UnRegisterSource?
    ensures var next := Do(rooms, e).rooms;
            && (Registered(next, room, x) <==>
                  Registered(rooms, room, x) && !(e.room == room && e.source == x && rooms[room][x].param == e.param))
            && (Registered(next, room, x) ==> next[room][x] == rooms[room][x])
  {
    if e.room == room && e.room in rooms && x in rooms[room] - {e.source} {
      assert rooms[room] - {e.source} != map[];
    }
  }

  /** What one event does to the sinks and the ring of one source: everything else leaves them alone. */
  lemma MemberAfter(rooms: Rooms, e: Event, room: Id, x: Id)
    requires Registered(Do(rooms, e).rooms, room, x)
    ensures var m := Do(rooms, e).rooms[room][x];
            if !Registered(rooms, room, x)
            then e.RegisterSource? && e.room == room && e.source == x && m.sinks == {} && m.ring == EmptyRing()
            else (forall s :: s in m.sinks <==>
                    Adds(rooms, e, room, x, s) || (s in rooms[room][x].sinks && !Drops(rooms, e, room, x, s)))
                 && m.ring == (if e.Data? && e.room == room && e.source == x
                               then Put(rooms[room][x].ring, MessageOf(e)) else rooms[room][x].ring)
  {
    hide Put, EmptyRing;
    match e
    case RegisterSource(_, _, _, _, _, _, _) => RegisterAfter(rooms, e, room, x);
    case UnRegisterSource(_, _, _) => UnRegisterMember(rooms, e, room, x);
    case CheckLive(_, _) => CheckLiveMember(rooms, e, room, x);
    case RegisterSink(_, _, _, _, _) =>
    case UnRegisterSink(_, _, _, _) =>
    case UnRegisterAllSink(_, _, _) =>
    case Data(_, _, _, _) =>
  }

  lemma RegisterAfter(rooms: Rooms, e: Event, room: Id, x: Id)
    requires e.RegisterSource? && Registered(Do(rooms, e).rooms, room, x)
    ensures var m := Do(rooms, e).rooms[room][x];
            if !Registered(rooms, room, x)
            then e.room == room && e.source == x && m.sinks == {} && m.ring == EmptyRing()
            else m.sinks == rooms[room][x].sinks && m.ring == rooms[room][x].ring
  {
    hide EmptyRing;
  }

  // ---- Sinks over histories ----

  /** Event `i` makes `sender` a sink of `x`, and since then nothing took it back: no command of `x` to
      drop it, and `x` has stayed registered. */
  ghost predicate LastWord(es: seq<Event>, room: Id, x: Id, sender: Id, i: nat) {
    && i < |es| && Adds(After(es[..i]), es[i], room, x, sender)
    && (forall j :: i < j < |es| ==> !Drops(After(es[..j]), es[j], room, x, sender))
    && (forall j :: i < j <= |es| ==> Registered(After(es[..j]), room, x))
  }

  /** A history and one event more agree on every earlier moment. */
  lemma Prefixes(es: seq<Event>, e: Event, j: nat)
    requires j <= |es|
    ensures (es + [e])[..j] == es[..j] && (j < |es| ==> (es + [e])[j] == es[j])
  {
  }

  lemma LastWordShorter(es: seq<Event>, e: Event, room: Id, x: Id, sender: Id, i: nat)
    requires i < |es| && LastWord(es + [e], room, x, sender, i)
    ensures LastWord(es, room, x, sender, i)
    ensures !Drops(After(es), e, room, x, sender) && Registered(After(es + [e]), room, x)
  {
    hide After, Drops, Adds, Registered;
    var fs, n := es + [e], |es|;
    Prefixes(es, e, i);
    Prefixes(es, e, n);
    assert es[..n] == es && fs[..n + 1] == fs && fs[n] == e;
    forall j | i < j < n ensures !Drops(After(es[..j]), es[j], room, x, sender) {
      Prefixes(es, e, j);
      assert !Drops(After(fs[..j]), fs[j], room, x, sender);
    }
    forall j | i < j <= n ensures Registered(After(es[..j]), room, x) {
      Prefixes(es, e, j);
      assert Registered(After(fs[..j]), room, x);
    }
    assert !Drops(After(fs[..n]), fs[n], room, x, sender);
    assert Registered(After(fs[..n + 1]), room, x);
  }

  lemma LastWordLonger(es: seq<Event>, e: Event, room: Id, x: Id, sender: Id, i: nat)
    requires LastWord(es, room, x, sender, i)
    requires !Drops(After(es), e, room, x, sender) && Registered(After(es + [e]), room, x)
    ensures LastWord(es + [e], room, x, sender, i)
  {
    hide After, Drops, Adds, Registered;
    var fs, n := es + [e], |es|;
    Prefixes(es, e, i);
    assert es[..n] == es && fs[..n] == es && fs[..n + 1] == fs && fs[n] == e;
    forall j | i < j < n + 1 ensures !Drops(After(fs[..j]), fs[j], room, x, sender) {
      if j < n { Prefixes(es, e, j); }
    }
    forall j | i < j <= n + 1 ensures Registered(After(fs[..j]), room, x) {
      if j <= n { Prefixes(es, e, j); }
    }
  }

  lemma LastWordGoesOn(es: seq<Event>, e: Event, room: Id, x: Id, sender: Id, i: nat)
    requires i < |es|
    ensures LastWord(es + [e], room, x, sender, i) <==>
      && LastWord(es, room, x, sender, i)
      && !Drops(After(es), e, room, x, sender) && Registered(After(es + [e]), room, x)
  {
    hide *;
    if LastWord(es + [e], room, x, sender, i) {
      LastWordShorter(es, e, room, x, sender, i);
    } else if LastWord(es, room, x, sender, i) && !Drops(After(es), e, room, x, sender) && Registered(After(es + [e]), room, x) {
      LastWordLonger(es, e, room, x, sender, i);
    }
  }

  lemma AddsMakes(rooms: Rooms, e: Event, room: Id, x: Id, sender: Id)
    requires Adds(rooms, e, room, x, sender)
    ensures IsSink(Do(rooms, e).rooms, room, x, sender)
  {
  }

  /** After any history a source receives a sender exactly if the last word of that source about it, since
      the source was last registered, was to register it. */
  lemma {:induction false} SinksExactly(es: seq<Event>, room: Id, x: Id, sender: Id)
    ensures IsSink(After(es), room, x, sender) <==> exists i :: LastWord(es, room, x, sender, i)
  {
    if es != [] {
      var n := |es| - 1;
      var before, e := es[..n], es[n];
      SinksExactly(before, room, x, sender);
      assert es == before + [e];
      SinksStep(before, e, room, x, sender);
    }
  }

  lemma NotRegistered(es: seq<Event>, room: Id, x: Id, sender: Id, i: nat)
    requires !Registered(After(es), room, x)
    ensures !LastWord(es, room, x, sender, i)
  {
    assert es[..|es|] == es;
  }

  lemma SinksStep(es: seq<Event>, e: Event, room: Id, x: Id, sender: Id)
    requires IsSink(After(es), room, x, sender) <==> exists i :: LastWord(es, room, x, sender, i)
    ensures IsSink(After(es + [e]), room, x, sender) <==> exists i :: LastWord(es + [e], room, x, sender, i)
  {
    var fs, n := es + [e], |es|;
    assert fs[..n] == es && fs[n] == e;
    var rooms, next := After(es), After(fs);
    assert next == Do(rooms, e).rooms;
    hide After, Do;
    forall i | 0 <= i < n ensures LastWord(fs, room, x, sender, i) <==>
      LastWord(es, room, x, sender, i) && !Drops(rooms, e, room, x, sender) && Registered(next, room, x)
    {
      LastWordGoesOn(es, e, room, x, sender, i);
    }
    if Registered(next, room, x) {
      MemberAfter(rooms, e, room, x);
      assert fs[..n + 1] == fs;
      assert Adds(rooms, e, room, x, sender) ==> LastWord(fs, room, x, sender, n);
    } else {
      forall i ensures !LastWord(fs, room, x, sender, i) {
        NotRegistered(fs, room, x, sender, i);
      }
    }
    if i :| LastWord(fs, room, x, sender, i) && i == n {
      assert Adds(rooms, e, room, x, sender);
      AddsMakes(rooms, e, room, x, sender);
    }
  }

  /** Each packet that is sent on goes to exactly the other registered sources that have a remote and
      whose last word about the sender was to register it. */
  lemma FanOut(es: seq<Event>, i: nat, x: Id)
    requires i < |es| && es[i].Data? && At(es, i).broadcast
    ensures var rooms, room, sender := After(es[..i]), es[i].room, es[i].source;
            x in At(es, i).sentTo <==>
              && x != sender && Registered(rooms, room, x) && rooms[room][x].remote.Some?
              && exists k :: LastWord(es[..i], room, x, sender, k)
  {
    hide After;
    SinksExactly(es[..i], es[i].room, x, es[i].source);
  }

  // ---- Repetitions over histories ----

  predicate SamePacket(a: Event, b: Event) {
    a.Data? && b.Data? && a.room == b.room && a.source == b.source && a.sn == b.sn && a.timestamp == b.timestamp
  }

  /** A different packet of the same source takes the slot. */
  predicate TakesSlot(e: Event, a: Event) {
    && a.Data? && e.Data? && e.room == a.room && e.source == a.source
    && SlotOf(e.sn) == SlotOf(a.sn) && !SamePacket(e, a)
  }

  /** From event `i` on up to `j` the source of the packet stays registered and its slot is not taken. */
  ghost predicate Undisturbed(es: seq<Event>, i: nat, j: nat) {
    && i < j <= |es| && es[i].Data?
    && forall k :: i < k < j ==> !TakesSlot(es[k], es[i]) && Registered(After(es[..k + 1]), es[i].room, es[i].source)
  }

  /** The packet is the one in its slot. */
  predicate InSlot(rooms: Rooms, a: Event)
    requires a.Data?
  {
    Registered(rooms, a.room, a.source) && rooms[a.room][a.source].ring[SlotOf(a.sn)] == Some(MessageOf(a))
  }

  lemma DataFillsSlot(rooms: Rooms, a: Event)
    requires a.Data? && Registered(rooms, a.room, a.source)
    ensures var next := Do(rooms, a).rooms;
            InSlot(next, a)
  {
    hide SlotOf;
  }

  /** An event that does not take the slot leaves the packet in it. */
  lemma SlotStays(rooms: Rooms, e: Event, a: Event)
    requires a.Data? && !TakesSlot(e, a) && InSlot(rooms, a)
    requires Registered(Do(rooms, e).rooms, a.room, a.source)
    ensures InSlot(Do(rooms, e).rooms, a)
  {
    MemberAfter(rooms, e, a.room, a.source);
    hide Do, SlotOf;
  }

  lemma UndisturbedBefore(es: seq<Event>, i: nat, j: nat)
    requires Undisturbed(es, i, j) && i + 1 < j
    ensures Undisturbed(es, i, j - 1)
    ensures !TakesSlot(es[j - 1], es[i]) && Registered(After(es[..j]), es[i].room, es[i].source)
  {
    assert !TakesSlot(es[j - 1], es[i]) && Registered(After(es[..j - 1 + 1]), es[i].room, es[i].source);
  }

  lemma LastStep(es: seq<Event>, j: nat)
    requires 0 < j <= |es|
    ensures After(es[..j]) == Do(After(es[..j - 1]), es[j - 1]).rooms
  {
    assert es[..j][..j - 1] == es[..j - 1] && es[..j][j - 1] == es[j - 1];
  }

  lemma SlotKeptStep(es: seq<Event>, i: nat, j: nat)
    requires Undisturbed(es, i, j) && i + 1 < j && InSlot(After(es[..j - 1]), es[i])
    ensures InSlot(After(es[..j]), es[i])
  {
    LastStep(es, j);
    UndisturbedBefore(es, i, j);
    hide *;
    SlotStays(After(es[..j - 1]), es[j - 1], es[i]);
  }

  lemma {:induction false} SlotKept(es: seq<Event>, i: nat, j: nat)
    requires Undisturbed(es, i, j) && Registered(After(es[..i]), es[i].room, es[i].source)
    ensures InSlot(After(es[..j]), es[i])
    decreases j - i
  {
    hide After, Do, TakesSlot, InSlot;
    if j == i + 1 {
      LastStep(es, j);
      DataFillsSlot(After(es[..i]), es[i]);
    } else {
      UndisturbedBefore(es, i, j);
      SlotKept(es, i, j - 1);
      SlotKeptStep(es, i, j);
    }
  }

  /** A packet is sent on a second time only if in between a different packet took its slot or its source
      was unregistered. */
  lemma SentTwice(es: seq<Event>, i: nat, j: nat)
    requires i < j < |es| && SamePacket(es[i], es[j]) && At(es, i).broadcast && At(es, j).broadcast
    ensures !Undisturbed(es, i, j)
  {
    if Undisturbed(es, i, j) {
      SlotKept(es, i, j);
    }
  }

  /** And an undisturbed repetition goes to nobody. */
  lemma RepetitionSilent(es: seq<Event>, i: nat, j: nat)
    requires i < j < |es| && SamePacket(es[i], es[j]) && At(es, i).ok && Undisturbed(es, i, j)
    ensures At(es, j).ok && !At(es, j).broadcast && At(es, j).sentTo == {}
  {
    SlotKept(es, i, j);
  }

  /** A packet in its slot came there by an event of the history, and nothing disturbed it since. */
  ghost predicate CameFrom(es: seq<Event>, a: Event, k: nat) {
    k < |es| && SamePacket(es[k], a) && At(es, k).ok && Undisturbed(es, k, |es|)
  }

  lemma AtOf(es: seq<Event>, e: Event, k: nat)
    requires k <= |es|
    ensures (es + [e])[..k] == es[..k]
    ensures At(es + [e], k) == if k < |es| then At(es, k) else Do(After(es), e)
  {
    assert es[..|es|] == es;
  }

  lemma CameFromLonger(es: seq<Event>, e: Event, a: Event, k: nat)
    requires CameFrom(es, a, k) && !TakesSlot(e, a) && Registered(After(es + [e]), a.room, a.source)
    ensures CameFrom(es + [e], a, k)
  {
    hide After, TakesSlot, Registered, At;
    var fs, n := es + [e], |es|;
    AtOf(es, e, k);
    assert fs[..n + 1] == fs;
    SameSlotTaken(e, es[k], a);
    assert fs[k] == es[k] && es[k].room == a.room && es[k].source == a.source;
    forall j | k < j < |fs|
      ensures !TakesSlot(fs[j], fs[k]) && Registered(After(fs[..j + 1]), fs[k].room, fs[k].source)
    {
      if j < n {
        Prefixes(es, e, j + 1);
        assert !TakesSlot(es[j], es[k]) && Registered(After(es[..j + 1]), es[k].room, es[k].source);
      } else {
        assert fs[j] == e;
      }
    }
    assert Undisturbed(fs, k, |fs|);
  }

  lemma SameSlotTaken(e: Event, a: Event, b: Event)
    requires SamePacket(a, b)
    ensures TakesSlot(e, a) <==> TakesSlot(e, b)
  {
  }

  lemma {:induction false} SlotHistory(es: seq<Event>, a: Event)
    requires a.Data? && InSlot(After(es), a)
    ensures exists k: nat :: CameFrom(es, a, k)
  {
    assert es != [];
    var n := |es| - 1;
    var before, e := es[..n], es[n];
    assert es == before + [e];
    AtOf(before, e, n);
    InSlotRegistered(After(es), a);
    SlotStep(After(before), e, a);
    hide After, Do, InSlot, CameFrom, TakesSlot, Registered, SamePacket;
    if SamePacket(e, a) && At(es, n).ok {
      CameLast(es, a);
    } else {
      SlotHistory(before, a);
      var k: nat :| CameFrom(before, a, k);
      CameFromLonger(before, e, a, k);
    }
  }

  lemma CameLast(es: seq<Event>, a: Event)
    requires es != [] && SamePacket(es[|es| - 1], a) && At(es, |es| - 1).ok
    ensures CameFrom(es, a, |es| - 1)
  {
    hide At;
  }

  lemma InSlotRegistered(rooms: Rooms, a: Event)
    requires a.Data? && InSlot(rooms, a)
    ensures Registered(rooms, a.room, a.source)
  {
  }

  /** A packet that is in its slot after an event is the event's, or was there before. */
  lemma SlotStep(rooms: Rooms, e: Event, a: Event)
    requires a.Data? && InSlot(Do(rooms, e).rooms, a)
    ensures (SamePacket(e, a) && Do(rooms, e).ok) || (InSlot(rooms, a) && !TakesSlot(e, a))
  {
    hide SlotOf, Put;
    MemberAfter(rooms, e, a.room, a.source);
    if e.Data? && e.room == a.room && e.source == a.source && Registered(rooms, a.room, a.source) {
      PutAt(rooms[a.room][a.source].ring, MessageOf(e), SlotOf(a.sn));
    }
  }

  lemma PutAt(ring: Ring<()>, m: Msg<()>, slot: nat)
    requires slot < 256
    ensures Put(ring, m)[slot] == if SlotOf(m.sn) == slot then Some(m) else ring[slot]
  {
  }

  lemma CameFromWithin(es: seq<Event>, i: nat, k: nat)
    requires i < |es| && CameFrom(es[..i], es[i], k)
    ensures k < i && SamePacket(es[k], es[i]) && At(es, k).ok && Undisturbed(es, k, i)
  {
    hide After, TakesSlot, Registered, Do;
    var before := es[..i];
    assert before[..k] == es[..k] && before[k] == es[k];
    forall j | k < j < i ensures !TakesSlot(es[j], es[k]) && Registered(After(es[..j + 1]), es[k].room, es[k].source) {
      assert before[j] == es[j] && before[..j + 1] == es[..j + 1];
      assert !TakesSlot(before[j], before[k]) && Registered(After(before[..j + 1]), before[k].room, before[k].source);
    }
  }

  /** A packet of a registered source is held back exactly if the same packet has come before and nothing
      has disturbed it since. */
  lemma HeldBackExactly(es: seq<Event>, i: nat)
    requires i < |es| && es[i].Data? && At(es, i).ok
    ensures !At(es, i).broadcast <==> exists k: nat :: CameFrom(es[..i], es[i], k)
  {
    hide After, Do, CameFrom, InSlot, Undisturbed;
    if !At(es, i).broadcast {
      HeldIsSame(After(es[..i]), es[i]);
      SlotHistory(es[..i], es[i]);
    }
    if k: nat :| CameFrom(es[..i], es[i], k) {
      CameFromWithin(es, i, k);
      RepetitionSilent(es, k, i);
    }
  }

  lemma HeldIsSame(rooms: Rooms, a: Event)
    requires a.Data? && Do(rooms, a).ok && !Do(rooms, a).broadcast
    ensures InSlot(rooms, a)
  {
    var held := rooms[a.room][a.source].ring[SlotOf(a.sn)];
    assert held.Some? && held.value.sn == a.sn && held.value.timestamp == a.timestamp;
    assert held.value.data == ();
    assert held.value == MessageOf(a);
  }

  // ---- Who can change what ----

  /** What a source receives changes only by a command from its own remote, as long as it stays
      registered. */
  lemma OwnRemoteOnly(rooms: Rooms, e: Event, room: Id, x: Id)
    requires Registered(rooms, room, x) && Registered(Do(rooms, e).rooms, room, x)
    requires Do(rooms, e).rooms[room][x].sinks != rooms[room][x].sinks
    ensures Speaks(rooms, e, room, x)
  {
    hide Do;
    MemberAfter(rooms, e, room, x);
  }

  /** With a callback the remote of a known source changes only if the callback consents, or if the old
      remote is gone. */
  lemma RemoteChangesByConsent(rooms: Rooms, e: Event, room: Id, x: Id)
    requires Registered(rooms, room, x) && Registered(Do(rooms, e).rooms, room, x)
    requires Do(rooms, e).rooms[room][x].remote != rooms[room][x].remote
    ensures e.RegisterSource? && e.room == room && e.source == x && e.ask.callback
    ensures e.ask.approves || rooms[room][x].remote.None? || e.stale
  {
    hide Put, EmptyRing;
    if e.UnRegisterSource? {
      UnRegisterMember(rooms, e, room, x);
    } else if e.CheckLive? {
      CheckLiveMember(rooms, e, room, x);
    }
  }

  // ---- Who is registered, and as what ----

  /** The event takes the source out: its own parameter is named, or it has not been heard of in time. */
  predicate Removes(rooms: Rooms, e: Event, room: Id, x: Id)
    requires Registered(rooms, room, x)
  {
    || (e.UnRegisterSource? && e.room == room && e.source == x && e.param == rooms[room][x].param)
    || (e.CheckLive? && e.now - rooms[room][x].lastTime > e.seconds)
  }

  /** The event brings a source in: its id is not 0, and if there is a callback it approves. */
  predicate Admits(e: Event, room: Id, x: Id) {
    e.RegisterSource? && e.room == room && e.source == x && x != 0 && (!e.ask.callback || e.ask.approves)
  }

  lemma RegisteredExactly(rooms: Rooms, e: Event, room: Id, x: Id)
    ensures Registered(Do(rooms, e).rooms, room, x) <==>
      if Registered(rooms, room, x) then !Removes(rooms, e, room, x) else Admits(e, room, x)
  {
    hide Put, EmptyRing;
    match e
    case RegisterSource(_, _, _, _, _, _, _) =>
    case UnRegisterSource(_, _, _) => UnRegisterMember(rooms, e, room, x);
    case CheckLive(_, _) => CheckLiveMember(rooms, e, room, x);
    case RegisterSink(_, _, _, _, _) =>
    case UnRegisterSink(_, _, _, _) =>
    case UnRegisterAllSink(_, _, _) =>
    case Data(_, _, _, _) =>
  }

  /** What a new source starts with. The callback was asked for it, and the time noted, unless its room is
      new too. */
  lemma NewMemberExactly(rooms: Rooms, e: Event, room: Id, x: Id)
    requires !Registered(rooms, room, x) && Admits(e, room, x)
    ensures Do(rooms, e).ok && Registered(Do(rooms, e).rooms, room, x)
    ensures var m := Do(rooms, e).rooms[room][x];
            && m.remote == e.remote && m.param == e.param && m.lastTime == e.now
            && m.callbackTime == (if e.ask.callback && room in rooms then e.now else 0)
            && m.sinks == {} && forall k :: 0 <= k < 256 ==> m.ring[k].None?
  {
  }

  /** The remote that speaks is not the one the source is known by, or the callback was last asked more
      than ten minutes ago. */
  predicate AsksAgain(m: Member, e: Event)
    requires e.RegisterSource? && e.remote.Some?
  {
    (if m.remote.Some? then m.remote.value else 0) != e.remote.value || e.now - m.callbackTime > 600
  }

  /** A known source registers again: without a callback always, and with one from some remote only and by
      consent where it is asked. Then parameter and last time are renewed, and what else changes depends
      on whether the callback was asked; a refusal changes nothing. */
  lemma AgainExactly(rooms: Rooms, e: Event, room: Id, x: Id)
    requires Registered(rooms, room, x) && e.RegisterSource? && e.room == room && e.source == x && x != 0
    ensures var m, next, ok := rooms[room][x], Do(rooms, e).rooms, Do(rooms, e).ok;
            && (ok <==> !e.ask.callback || (e.remote.Some? && (AsksAgain(m, e) ==> e.ask.approves)))
            && Registered(next, room, x)
            && (!ok ==> next == rooms)
            && (ok ==>
                 var n, asked := next[room][x], e.ask.callback && AsksAgain(m, e);
                 && n.param == e.param && n.lastTime == e.now && n.sinks == m.sinks && n.ring == m.ring
                 && n.callbackTime == (if asked then e.now else m.callbackTime)
                 && n.remote ==
                      if !e.ask.callback then m.remote
                      else if asked then if (if m.remote.Some? then m.remote.value else 0) != e.remote.value then e.remote else m.remote
                      else if m.remote.None? || e.stale then e.remote
                      else m.remote)
  {
    hide EmptyRing;
    assert rooms[room := rooms[room]] == rooms;
  }

  /** No other event touches who a source is. */
  lemma IdentityKept(rooms: Rooms, e: Event, room: Id, x: Id)
    requires Registered(rooms, room, x) && Registered(Do(rooms, e).rooms, room, x)
    requires !(e.RegisterSource? && e.room == room && e.source == x)
    ensures var m, n := rooms[room][x], Do(rooms, e).rooms[room][x];
            n.remote == m.remote && n.param == m.param && n.lastTime == m.lastTime && n.callbackTime == m.callbackTime
  {
    hide Put, EmptyRing;
    match e
    case RegisterSource(_, _, _, _, _, _, _) =>
    case UnRegisterSource(_, _, _) => UnRegisterMember(rooms, e, room, x);
    case CheckLive(_, _) => CheckLiveMember(rooms, e, room, x);
    case RegisterSink(_, _, _, _, _) =>
    case UnRegisterSink(_, _, _, _) =>
    case UnRegisterAllSink(_, _, _) =>
    case Data(_, _, _, _) =>
  }

  /** What the session answers. */
  lemma AnswersExactly(rooms: Rooms, e: Event)
    ensures var known := !e.CheckLive? && Registered(rooms, e.room, e.source);
            match e
            case RegisterSource(room, x, _, _, _, _, _) => !known ==> (Do(rooms, e).ok <==> Admits(e, room, x))
            case UnRegisterSource(room, x, param) => Do(rooms, e).ok <==> known && param == rooms[room][x].param
            case RegisterSink(room, x, dest, _, _) => Do(rooms, e).ok <==> Adds(rooms, e, room, x, dest)
            case UnRegisterSink(room, x, _, _) => Do(rooms, e).ok <==> room in rooms && (known ==> Speaks(rooms, e, room, x))
            case UnRegisterAllSink(room, _, _) => Do(rooms, e).ok <==> room in rooms
            case Data(_, _, _, _) => Do(rooms, e).ok <==> known
            case CheckLive(_, _) => Do(rooms, e).ok
    ensures (!e.Data? || !Do(rooms, e).ok ==> !Do(rooms, e).broadcast) && (!Do(rooms, e).broadcast ==> Do(rooms, e).sentTo == {})
  {
    hide Put, EmptyRing;
  }

  /** Which rooms there are: one is made for a source the callback does not refuse, even if the source is
      refused for its id, and one goes with its last source. */
  lemma RoomsExactly(rooms: Rooms, e: Event, room: Id)
    ensures room in Do(rooms, e).rooms <==>
      if room in rooms then
        && !(e.CheckLive? && forall x :: x in rooms[room] ==> Removes(rooms, e, room, x))
        && !(e.UnRegisterSource? && e.room == room && Do(rooms, e).ok && rooms[room].Keys == {e.source})
      else e.RegisterSource? && e.room == room && (!e.ask.callback || e.ask.approves)
  {
    hide Put, EmptyRing;
    if room in rooms {
      if e.CheckLive? {
        var alive := Alive(rooms[room], e.now, e.seconds);
        if alive == map[] {
          forall x | x in rooms[room] ensures Removes(rooms, e, room, x) {
            assert x !in alive;
          }
        } else {
          var x :| x in alive;
          assert x in rooms[room] && !Removes(rooms, e, room, x);
        }
      } else if e.UnRegisterSource? && e.room == room && Do(rooms, e).ok {
        var next := rooms[room] - {e.source};
        assert next.Keys == rooms[room].Keys - {e.source};
        assert next == map[] <==> next.Keys == {};
        assert next.Keys == {} <==> rooms[room].Keys == {e.source};
      }
    }
  }

  // ---- The session in place ----

  function Changed(ms: Members, x: Id, m: Member): Members {
    ms[x := m]
  }

  class SotpRtpSession {
    var rooms: Rooms

    /** The session after `e`, and what it returned, as the function says. */
    twostate predicate Did(e: Event, ok: bool)
      reads this
    {
      rooms == Do(old(rooms), e).rooms && ok == Do(old(rooms), e).ok
    }

    method RegisterSource(e: Event) returns (ok: bool)
      requires e.RegisterSource?
      modifies this
      ensures Did(e, ok)
    {
      var ask := e.ask;
      if e.room !in rooms {
        if ask.callback {
          if !ask.approves { return false; }
          ask := ask.(callback := false);
        }
        rooms := rooms[e.room := map[]];
      }
      ok := RoomRegisterSource(e, ask);
    }

    method RoomRegisterSource(e: Event, ask: Ask) returns (ok: bool)
      requires e.RegisterSource? && e.room in rooms
      modifies this
      ensures match Admit(old(rooms)[e.room], e, ask)
        case None => !ok && rooms == old(rooms)
        case Some(next) => ok && rooms == old(rooms)[e.room := next]
    {
      hide EmptyRing;
      var ms := rooms[e.room];
      if e.source == 0 { return false; }
      if e.source !in ms {
        if ask.callback && !ask.approves { return false; }
        rooms := rooms[e.room := Changed(ms, e.source, NewMember(e.remote, e.param, ask, e.now))];
      } else {
        var m := ms[e.source];
        if ask.callback {
          if e.remote.None? { return false; }
          if RemoteId(m) != e.remote.value || m.callbackTime + 600 < e.now {
            if !ask.approves { return false; }
            if RemoteId(m) != e.remote.value {
              m := m.(remote := e.remote);
            }
            m := m.(callbackTime := e.now);
          } else if m.remote.None? || e.stale {
            m := m.(remote := e.remote);
          }
        }
        m := m.(param := e.param, lastTime := e.now);
        rooms := rooms[e.room := Changed(ms, e.source, m)];
      }
      ok := true;
    }

    method UnRegisterSource2(e: Event) returns (ok: bool)
      requires e.UnRegisterSource?
      modifies this
      ensures Did(e, ok)
    {
      if e.room !in rooms || e.source !in rooms[e.room] || rooms[e.room][e.source].param != e.param { return false; }
      var next := rooms[e.room] - {e.source};
      if next == map[] {
        rooms := rooms - {e.room};
      } else {
        rooms := rooms[e.room := next];
      }
      ok := true;
    }

    method RegisterSink(e: Event) returns (ok: bool)
      requires e.RegisterSink?
      modifies this
      ensures Did(e, ok)
    {
      if e.room !in rooms || e.source !in rooms[e.room] { return false; }
      var m := rooms[e.room][e.source];
      if e.remote.None? || RemoteId(m) != e.remote.value { return false; }
      if e.ask.callback {
        if e.dest in m.sinks {
          SameSinks(e);
          return true;
        }
        if !e.ask.approves { return false; }
      }
      rooms := rooms[e.room := Changed(rooms[e.room], e.source, m.(sinks := m.sinks + {e.dest}))];
      ok := true;
    }

    lemma SameSinks(e: Event)
      requires e.RegisterSink? && IsSink(rooms, e.room, e.source, e.dest)
      ensures var m := rooms[e.room][e.source];
              rooms[e.room := Changed(rooms[e.room], e.source, m.(sinks := m.sinks + {e.dest}))] == rooms
    {
      var m := rooms[e.room][e.source];
      assert m.sinks + {e.dest} == m.sinks;
      assert rooms[e.room][e.source := m] == rooms[e.room];
    }

    method UnRegisterSink(e: Event) returns (ok: bool)
      requires e.UnRegisterSink?
      modifies this
      ensures Did(e, ok)
    {
      if e.room !in rooms { return false; }
      if e.source in rooms[e.room] {
        var m := rooms[e.room][e.source];
        if e.remote.None? || RemoteId(m) != e.remote.value { return false; }
        rooms := rooms[e.room := Changed(rooms[e.room], e.source, m.(sinks := m.sinks - {e.dest}))];
      }
      ok := true;
    }

    method UnRegisterAllSink(e: Event) returns (ok: bool)
      requires e.UnRegisterAllSink?
      modifies this
      ensures Did(e, ok)
    {
      if e.room !in rooms { return false; }
      if e.source in rooms[e.room] {
        var m := rooms[e.room][e.source];
        if e.remote.Some? && RemoteId(m) == e.remote.value {
          rooms := rooms[e.room := Changed(rooms[e.room], e.source, m.(sinks := {}))];
        }
      }
      ok := true;
    }

    /** A packet with data; `sent` are the sources it goes to, in the order of their numbers. */
    method DoRtpData(e: Event) returns (ok: bool, sent: seq<Id>)
      requires e.Data?
      modifies this
      ensures Did(e, ok) && Ascending(sent)
      ensures forall x :: x in sent <==> x in Do(old(rooms), e).sentTo
    {
      hide Put, Repeats, Recipients;
      sent := [];
      if e.room !in rooms || e.source !in rooms[e.room] { return false, []; }
      var m := rooms[e.room][e.source];
      var exist := Repeats(m.ring, MessageOf(e));
      var ms := rooms[e.room];
      rooms := rooms[e.room := Changed(ms, e.source, m.(ring := Put(m.ring, MessageOf(e))))];
      if !exist {
        sent := BroadcastRtpData(rooms[e.room], e.source);
        SameRecipients(ms, e.source, rooms[e.room]);
      }
      ok := true;
    }
  }

  /** What is stored for the sender does not matter for who receives. */
  lemma SameRecipients(ms: Members, sender: Id, next: Members)
    requires sender in ms && sender in next && next == ms[sender := next[sender]]
    ensures Recipients(next, sender) == Recipients(ms, sender)
  {
  }

  ghost predicate Ascending(s: seq<Id>) {
    forall i, j :: 0 <= i < j < |s| ==> s[i] < s[j]
  }

  lemma GoesOnAscending(s: seq<Id>, x: Id)
    requires Ascending(s) && forall y :: y in s ==> y < x
    ensures Ascending(s + [x])
  {
    forall i, j | 0 <= i < j < |s + [x]| ensures (s + [x])[i] < (s + [x])[j] {
      assert s[i] in s;
    }
  }

  method Least(s: set<Id>) returns (x: Id)
    requires s != {}
    ensures x in s && forall y :: y in s ==> x <= y
  {
    assert |s| != 0;
    x :| x in s;
    var rest := s - {x};
    while rest != {}
      invariant rest <= s && x in s
      invariant forall y :: y in s && y !in rest ==> x <= y
      decreases rest
    {
      assert |rest| != 0;
      var y :| y in rest;
      if y < x { x := y; }
      rest := rest - {y};
    }
  }

  method BroadcastRtpData(ms: Members, sender: Id) returns (sent: seq<Id>)
    ensures Ascending(sent) && forall x :: x in sent <==> x in Recipients(ms, sender)
  {
    sent := [];
    var rest := ms.Keys;
    while rest != {}
      invariant rest <= ms.Keys && Ascending(sent)
      invariant forall x, y :: x in ms && x !in rest && y in rest ==> x < y
      invariant forall x :: x in sent <==> x in Recipients(ms, sender) && x !in rest
      decreases rest
    {
      var x := Least(rest);
      if x != sender && sender in ms[x].sinks && ms[x].remote.Some? {
        GoesOnAscending(sent, x);
        sent := sent + [x];
      }
      rest := rest - {x};
    }
  }

  /** `CheckRegisterSourceLive` of a room. */
  method CheckRoom(ms: Members, now: int, seconds: int) returns (r: Members)
    ensures r == Alive(ms, now, seconds)
  {
    r := ms;
    var rest := ms.Keys;
    while rest != {}
      invariant rest <= ms.Keys
      invariant forall x :: x in r <==> x in ms && (x in rest || now - ms[x].lastTime <= seconds)
      invariant forall x :: x in r ==> r[x] == ms[x]
      decreases rest
    {
      var x := Least(rest);
      if now - ms[x].lastTime > seconds {
        r := r - {x};
      }
      rest := rest - {x};
    }
    SameMembers(r, Alive(ms, now, seconds));
  }

  lemma SameMembers<T>(a: map<Id, T>, b: map<Id, T>)
    requires forall x :: x in a <==> x in b
    requires forall x :: x in a && x in b ==> a[x] == b[x]
    ensures a == b
  {
    assert forall x :: x in a.Keys <==> x in b.Keys;
  }

  /** `CheckRegisterSourceLive` of the session: rooms left without a source go too. */
  method CheckRegisterSourceLive(rooms: Rooms, e: Event) returns (r: Rooms)
    requires e.CheckLive?
    ensures r == Do(rooms, e).rooms
  {
    r := rooms;
    var rest := rooms.Keys;
    while rest != {}
      invariant rest <= rooms.Keys
      invariant forall x :: x in r <==> x in rooms && (x in rest || Alive(rooms[x], e.now, e.seconds) != map[])
      invariant forall x :: x in r ==> r[x] == if x in rest then rooms[x] else Alive(rooms[x], e.now, e.seconds)
      decreases rest
    {
      var x := Least(rest);
      var left := CheckRoom(rooms[x], e.now, e.seconds);
      if left == map[] {
        r := r - {x};
      } else {
        r := r[x := left];
      }
      rest := rest - {x};
    }
    SameMembers(r, Do(rooms, e).rooms);
  }
}
