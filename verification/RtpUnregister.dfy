/** The client's recursive unregistration (`UnRegisterSource1`, `UnRegisterAllSink`): it ends exactly
    when no walk through the sink lists goes on for ever, and then removes exactly what can be
    reached. */
module RtpUnregister {
  import opened Wrappers
  import opened Integers

  /** Each registered source with its sinks, in the order the list is walked. */
  type Sources = map<Id, seq<Id>>

  /** `UnRegisterSource1`, as deep as `fuel` allows; without an answer it is still running. Clearing the
      sinks of a source that is then removed leaves no trace. */
  function Unregister(g: Sources, x: Id, fuel: nat): Option<Sources>
    decreases fuel, 0
  {
    if x !in g then Some(g)
    else if fuel == 0 then None
    else match UnregisterEach(g, g[x], fuel - 1)
      case None => None
      case Some(rest) => Some(rest - {x})
  }

  /** The loop of `UnRegisterAllSink`. */
  function UnregisterEach(g: Sources, sinks: seq<Id>, fuel: nat): Option<Sources>
    decreases fuel, |sinks| + 1
  {
    if sinks == [] then Some(g)
    else match Unregister(g, sinks[0], fuel)
      case None => None
      case Some(rest) => UnregisterEach(rest, sinks[1..], fuel)
  }

  // ---- What can be reached ----

  ghost predicate Walk(g: Sources, p: seq<Id>) {
    && p != []
    && (forall i :: 0 <= i < |p| ==> p[i] in g)
    && (forall i :: 0 <= i < |p| - 1 ==> p[i + 1] in g[p[i]])
  }

  ghost predicate WalkFrom(g: Sources, p: seq<Id>, x: Id, y: Id) {
    Walk(g, p) && p[0] == x && p[|p| - 1] == y
  }

  ghost predicate Reaches(g: Sources, x: Id, y: Id) {
    exists p :: WalkFrom(g, p, x, y)
  }

  ghost function ReachedFrom(g: Sources, xs: seq<Id>): set<Id> {
    set y | y in g && exists x :: x in xs && Reaches(g, x, y)
  }

  /** What is left of the sources once everything reached from `xs` is gone. */
  ghost function Without(g: Sources, xs: seq<Id>): Sources {
    g - ReachedFrom(g, xs)
  }

  lemma ReachesItself(g: Sources, x: Id)
    requires x in g
    ensures Reaches(g, x, x)
  {
    assert WalkFrom(g, [x], x, x);
  }

  lemma ReachesOn(g: Sources, x: Id, d: Id, y: Id)
    requires x in g && d in g[x] && Reaches(g, d, y)
    ensures Reaches(g, x, y)
  {
    var p :| WalkFrom(g, p, d, y);
    assert WalkFrom(g, [x] + p, x, y);
  }

  lemma ReachesByStep(g: Sources, x: Id, y: Id)
    requires Reaches(g, x, y)
    ensures x in g && y in g
    ensures x == y || exists d :: d in g[x] && Reaches(g, d, y)
  {
    var p :| WalkFrom(g, p, x, y);
    if |p| > 1 {
      assert WalkFrom(g, p[1..], p[1], y);
    }
  }

  lemma {:induction false} ReachesTransitive(g: Sources, x: Id, y: Id, z: Id)
    requires Reaches(g, x, y) && Reaches(g, y, z)
    ensures Reaches(g, x, z)
  {
    var p :| WalkFrom(g, p, x, y);
    var q :| WalkFrom(g, q, y, z);
    var r := p + q[1..];
    assert forall i :: 0 <= i < |q| ==> r[|p| - 1 + i] == q[i];
    forall i | 0 <= i < |r| - 1 ensures r[i + 1] in g[r[i]] {
      if i >= |p| - 1 {
        assert r[i] == q[i - (|p| - 1)] && r[i + 1] == q[i + 1 - (|p| - 1)];
      }
    }
    assert WalkFrom(g, r, x, z);
  }

  /** Taking away a set that is closed under the sink lists changes nothing for the rest. */
  ghost predicate Closed(g: Sources, gone: set<Id>) {
    forall x, y :: x in gone && x in g && Reaches(g, x, y) ==> y in gone
  }

  lemma ReachedIsClosed(g: Sources, xs: seq<Id>)
    ensures Closed(g, ReachedFrom(g, xs))
  {
    forall x, y | x in ReachedFrom(g, xs) && x in g && Reaches(g, x, y) ensures y in ReachedFrom(g, xs) {
      var z :| z in xs && Reaches(g, z, x);
      ReachesTransitive(g, z, x, y);
      ReachesByStep(g, z, y);
    }
  }

  lemma ReachesWithout(g: Sources, gone: set<Id>, x: Id, y: Id)
    requires Closed(g, gone)
    ensures Reaches(g - gone, x, y) <==> Reaches(g, x, y) && y !in gone
  {
    if Reaches(g - gone, x, y) {
      var p :| WalkFrom(g - gone, p, x, y);
      assert WalkFrom(g, p, x, y);
      assert p[|p| - 1] in g - gone;
    }
    if Reaches(g, x, y) && y !in gone {
      var p :| WalkFrom(g, p, x, y);
      forall i | 0 <= i < |p| ensures p[i] in g - gone {
        assert WalkFrom(g, p[i..], p[i], y);
        assert Reaches(g, p[i], y);
      }
      assert WalkFrom(g - gone, p, x, y);
    }
  }

  lemma WithoutBoth(g: Sources, x: Id, xs: seq<Id>)
    ensures Without(Without(g, [x]), xs) == Without(g, [x] + xs)
  {
    var gone := ReachedFrom(g, [x]);
    ReachedIsClosed(g, [x]);
    forall y | y in g ensures y in ReachedFrom(g, [x] + xs) <==> y in gone || y in ReachedFrom(g - gone, xs) {
      forall z | z in xs ensures Reaches(g - gone, z, y) <==> Reaches(g, z, y) && y !in gone {
        ReachesWithout(g, gone, z, y);
      }
      if y in ReachedFrom(g, [x] + xs) && y !in gone {
        var z :| z in [x] + xs && Reaches(g, z, y);
        assert z in [x] || z in xs;
        assert z in xs;
      }
      if y in gone {
        assert x in [x] + xs;
      }
      if y in ReachedFrom(g - gone, xs) {
        var z :| z in xs && Reaches(g - gone, z, y);
        assert z in [x] + xs;
      }
    }
  }

  lemma WithoutSource(g: Sources, x: Id)
    requires x in g
    ensures Without(g, g[x]) - {x} == Without(g, [x])
  {
    forall y | y in g ensures y in ReachedFrom(g, [x]) <==> y == x || y in ReachedFrom(g, g[x]) {
      ReachesItself(g, x);
      if y in ReachedFrom(g, [x]) {
        assert Reaches(g, x, y);
        ReachesByStep(g, x, y);
      }
      if y in ReachedFrom(g, g[x]) {
        var d :| d in g[x] && Reaches(g, d, y);
        ReachesOn(g, x, d, y);
        assert x in [x];
      }
      assert x in [x];
    }
  }

  lemma WithoutUnknown(g: Sources, x: Id)
    requires x !in g
    ensures Without(g, [x]) == g
  {
    forall y | y in g ensures y !in ReachedFrom(g, [x]) {
      if y in ReachedFrom(g, [x]) {
        assert Reaches(g, x, y);
        ReachesByStep(g, x, y);
      }
    }
  }

  /** If it ends, exactly the named source and everything reachable from it through registered sources
      is gone, and all else is as it was. */
  lemma {:induction false} RemovesReached(g: Sources, x: Id, fuel: nat)
    requires Unregister(g, x, fuel).Some?
    ensures Unregister(g, x, fuel).value == Without(g, [x])
    decreases fuel, 0
  {
    hide Without;
    if x !in g {
      WithoutUnknown(g, x);
    } else {
      RemovesReachedEach(g, g[x], fuel - 1);
      WithoutSource(g, x);
    }
  }

  lemma {:induction false} RemovesReachedEach(g: Sources, sinks: seq<Id>, fuel: nat)
    requires UnregisterEach(g, sinks, fuel).Some?
    ensures UnregisterEach(g, sinks, fuel).value == Without(g, sinks)
    decreases fuel, |sinks| + 1
  {
    if sinks == [] {
      assert ReachedFrom(g, sinks) == {};
    } else {
      hide Without;
      RemovesReached(g, sinks[0], fuel);
      RemovesReachedEach(Without(g, [sinks[0]]), sinks[1..], fuel);
      WithoutBoth(g, sinks[0], sinks[1..]);
      assert [sinks[0]] + sinks[1..] == sinks;
    }
  }

  // ---- When it ends ----

  /** Sources from each of which a sink leads back into the set: a walk can go on for ever. */
  ghost predicate Trap(g: Sources, t: set<Id>) {
    forall x :: x in t ==> x in g && LeadsInto(g, x, t)
  }

  ghost predicate LeadsInto(g: Sources, x: Id, t: set<Id>)
    requires x in g
  {
    exists d :: d in g[x] && d in t
  }

  lemma Leads(g: Sources, x: Id, t: set<Id>) returns (d: Id)
    requires x in g && LeadsInto(g, x, t)
    ensures d in g[x] && d in t
  {
    d :| d in g[x] && d in t;
  }

  lemma TrapLeads(g: Sources, t: set<Id>, x: Id) returns (d: Id)
    requires Trap(g, t) && x in t
    ensures x in g && d in g[x] && d in t
  {
    hide LeadsInto;
    d := Leads(g, x, t);
  }

  lemma TrapInside(g: Sources, t: set<Id>)
    requires Trap(g, t)
    ensures Kept(g, g, t)
  {
    hide LeadsInto;
  }

  ghost predicate Kept(g: Sources, rest: Sources, t: set<Id>) {
    forall x :: x in t ==> x in g && x in rest && rest[x] == g[x]
  }

  /** Inside a trap it never ends, and what ends elsewhere does not touch the trap. */
  lemma {:induction false} TrapHolds(g: Sources, t: set<Id>, x: Id, fuel: nat)
    requires Trap(g, t)
    ensures match Unregister(g, x, fuel)
      case None => true
      case Some(rest) => x !in t && Kept(g, rest, t)
    decreases fuel, 0
  {
    hide Trap;
    TrapInside(g, t);
    if x in t {
      var d := TrapLeads(g, t, x);
    }
    if x in g && fuel > 0 {
      TrapHoldsEach(g, t, g[x], fuel - 1);
    }
  }

  lemma {:induction false} TrapHoldsEach(g: Sources, t: set<Id>, sinks: seq<Id>, fuel: nat)
    requires Trap(g, t)
    ensures match UnregisterEach(g, sinks, fuel)
      case None => true
      case Some(rest) => Kept(g, rest, t) && forall d :: d in sinks ==> d !in t
    decreases fuel, |sinks| + 1
  {
    hide Trap;
    TrapInside(g, t);
    if sinks != [] {
      TrapHolds(g, t, sinks[0], fuel);
      match Unregister(g, sinks[0], fuel)
      case None =>
      case Some(rest) =>
        KeptTrap(g, rest, t);
        TrapHoldsEach(rest, t, sinks[1..], fuel);
    }
  }

  lemma KeptTrap(g: Sources, rest: Sources, t: set<Id>)
    requires Trap(g, t) && Kept(g, rest, t)
    ensures Trap(rest, t)
  {
    forall x | x in t ensures x in rest && LeadsInto(rest, x, t) {
      var d := TrapLeads(g, t, x);
    }
  }

  /** The sources from which every walk has fewer than `n` further steps. */
  ghost function Safe(g: Sources, n: nat): (s: set<Id>)
    ensures s <= g.Keys
  {
    if n == 0 then {}
    else set x | x in g && forall d :: d in g[x] ==> d !in g || d in Safe(g, n - 1)
  }

  lemma {:induction false} SafeGrows(g: Sources, n: nat)
    ensures Safe(g, n) <= Safe(g, n + 1)
  {
    if n > 0 {
      SafeGrows(g, n - 1);
    }
  }

  lemma SubsetSize(a: set<Id>, b: set<Id>)
    requires a <= b
    ensures |a| <= |b| && (a != b ==> |a| < |b|)
  {
    assert b == a + (b - a);
    assert a !! (b - a);
    assert |b| == |a| + |b - a|;
    if a != b {
      assert b - a != {};
    }
  }

  /** Until it stands still, each round adds a source. */
  lemma {:induction false} SafeSettles(g: Sources, n: nat)
    ensures Safe(g, n) == Safe(g, n + 1) || |Safe(g, n + 1)| > n
  {
    SafeGrows(g, n);
    SubsetSize(Safe(g, n), Safe(g, n + 1));
    if n > 0 {
      SafeSettles(g, n - 1);
    }
  }

  lemma RestIsTrap(g: Sources)
    ensures Trap(g, g.Keys - Safe(g, |g|))
  {
    var n := |g|;
    SafeSettles(g, n);
    SubsetSize(Safe(g, n + 1), g.Keys);
    forall x | x in g.Keys - Safe(g, n) ensures LeadsInto(g, x, g.Keys - Safe(g, n)) {
      assert x !in Safe(g, n + 1);
    }
  }

  /** Fewer sources are no less safe. */
  lemma {:induction false} SafeWithout(g: Sources, gone: set<Id>, n: nat)
    ensures Safe(g, n) - gone <= Safe(g - gone, n)
  {
    if n > 0 {
      SafeWithout(g, gone, n - 1);
    }
  }

  lemma {:induction false} SafeEnds(g: Sources, x: Id, n: nat)
    requires x in g ==> x in Safe(g, n)
    ensures Unregister(g, x, n).Some?
    decreases n, 0
  {
    if x in g {
      SafeEndsEach(g, g[x], n - 1);
    }
  }

  lemma {:induction false} SafeEndsEach(g: Sources, sinks: seq<Id>, n: nat)
    requires forall d :: d in sinks && d in g ==> d in Safe(g, n)
    ensures UnregisterEach(g, sinks, n).Some?
    decreases n, |sinks| + 1
  {
    if sinks != [] {
      SafeEnds(g, sinks[0], n);
      RemovesReached(g, sinks[0], n);
      var gone := ReachedFrom(g, [sinks[0]]);
      SafeWithout(g, gone, n);
      SafeEndsEach(g - gone, sinks[1..], n);
    }
  }

  ghost predicate Ends(g: Sources, x: Id) {
    exists fuel :: Unregister(g, x, fuel).Some?
  }

  /** Unregistering a source ends if and only if the source lies in no trap, that is, no walk through the
      sink lists from it goes on for ever. */
  lemma EndsExactly(g: Sources, x: Id)
    ensures Ends(g, x) <==> !exists t :: x in t && Trap(g, t)
    ensures Ends(g, x) ==> Unregister(g, x, |g|).Some?
  {
    if t :| x in t && Trap(g, t) {
      forall fuel ensures Unregister(g, x, fuel).None? {
        TrapHolds(g, t, x, fuel);
      }
    } else {
      RestIsTrap(g);
      assert x in g ==> x in Safe(g, |g|);
      SafeEnds(g, x, |g|);
    }
  }

  /** A rank that falls along every sink rules traps out. */
  ghost predicate Ranked(g: Sources, rank: map<Id, nat>) {
    forall x, d :: x in g && d in g[x] && d in g ==> x in rank && d in rank && rank[d] < rank[x]
  }

  lemma {:induction false} RankedEnds(g: Sources, rank: map<Id, nat>, x: Id)
    requires Ranked(g, rank)
    ensures Ends(g, x)
  {
    if t :| x in t && Trap(g, t) {
      NoTrap(g, rank, t, x);
    }
    EndsExactly(g, x);
  }

  lemma {:induction false} NoTrap(g: Sources, rank: map<Id, nat>, t: set<Id>, x: Id)
    requires Ranked(g, rank) && Trap(g, t) && x in t
    ensures false
    decreases if x in rank then rank[x] else 0
  {
    hide Trap;
    var d := TrapLeads(g, t, x);
    var _ := TrapLeads(g, t, d);
    NoTrap(g, rank, t, d);
  }

  /** If only one source has sinks, as on a client whose peers have registered none for any other,
      unregistering ends unless that source has registered itself as its sink. */
  lemma OwnSinksOnly(g: Sources, me: Id, x: Id)
    requires forall y :: y in g && g[y] != [] ==> y == me
    ensures Ends(g, x) <==> !(x in g && x == me && me in g[x])
  {
    EndsExactly(g, x);
    if x in g && x == me && me in g[x] {
      assert Trap(g, {me}) by {
        assert me in g[me] && me in {me};
      }
    } else if t :| x in t && Trap(g, t) {
      hide Trap;
      var d := TrapLeads(g, t, x);
      var e := TrapLeads(g, t, d);
    }
  }

  // ---- The room of a client ----

  class ClientRoom {
    var sources: Sources

    /** It ends, as `fuel` bears witness, and leaves what the function says. */
    method UnRegisterSource1(x: Id, ghost fuel: nat) returns (found: bool)
      requires Unregister(sources, x, fuel).Some?
      modifies this
      ensures Some(sources) == Unregister(old(sources), x, fuel) && found == (x in old(sources))
      decreases fuel, 0
    {
      ghost var g := sources;
      if x in sources {
        UnRegisterAllSink(x, fuel - 1);
      }
      found := x in sources;
      sources := sources - {x};
      if x in g {
        assert sources == UnregisterEach(g, g[x], fuel - 1).value - {x};
      } else {
        assert sources == g;
      }
    }

    /** For a registered source: unregister each sink and clear the list. */
    method UnRegisterAllSink(x: Id, ghost fuel: nat)
      requires x in sources && UnregisterEach(sources, sources[x], fuel).Some?
      requires Unregister(sources, x, fuel + 1).Some?
      modifies this
      ensures x in sources && sources[x] == []
      ensures sources == UnregisterEach(old(sources), old(sources)[x], fuel).value[x := []]
      decreases fuel, |sources[x]| + 2
    {
      ghost var g := sources;
      var sinks := sources[x];
      var i := 0;
      OutlivesItsSinks(g, x, fuel);
      while i < |sinks|
        invariant 0 <= i <= |sinks|
        invariant UnregisterEach(sources, sinks[i..], fuel) == UnregisterEach(g, sinks, fuel)
      {
        var _ := UnRegisterSource1(sinks[i], fuel);
        i := i + 1;
      }
      assert sources == UnregisterEach(g, sinks, fuel).value;
      sources := sources[x := []];
    }
  }

  lemma CycleIsTrap(g: Sources, p: seq<Id>)
    requires Walk(g, p) && p[0] in g[p[|p| - 1]]
    ensures Trap(g, set y | y in p)
  {
    var t := set y | y in p;
    forall i | 0 <= i < |p| ensures LeadsInto(g, p[i], t) {
      var e := if i + 1 < |p| then p[i + 1] else p[0];
      assert e in g[p[i]] && e in p && e in t;
    }
  }

  /** A source that can be unregistered is not reached from its own sinks. */
  lemma OutlivesItsSinks(g: Sources, x: Id, fuel: nat)
    requires x in g && Unregister(g, x, fuel + 1).Some?
    ensures UnregisterEach(g, g[x], fuel).Some? && x in UnregisterEach(g, g[x], fuel).value
  {
    RemovesReachedEach(g, g[x], fuel);
    if x in ReachedFrom(g, g[x]) {
      var d :| d in g[x] && Reaches(g, d, x);
      var p :| WalkFrom(g, p, d, x);
      var t := set y | y in p;
      CycleIsTrap(g, p);
      assert p[|p| - 1] in p;
      TrapHolds(g, t, x, fuel + 1);
    }
  }
}
