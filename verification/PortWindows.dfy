/** What a real probe sees of the TCP ports, and the windows in which it sees too little:
    a port acquired and not yet listened on, one no longer listened on and not yet given
    back, and one counted by a group that listens elsewhere. */
module PortWindows {
  import opened Base
  import opened TcpPorts
  import B = PortBook

  /** Somebody really listens on the port. */
  ghost predicate Listened(s: State, p: int) {
    (exists id :: id in s.solo && s.solo[id] == p) || (exists g :: Active(s, g) && s.groups[g].listens == p)
  }

  /** A real probe sees every port that is listened on; it may see those of others too. */
  ghost predicate Sees(s: State, busy: set<int>) {
    && (forall id :: id in s.solo ==> s.solo[id] in busy)
    && (forall g :: Active(s, g) ==> s.groups[g].listens in busy)
  }

  /** Nothing else is listened on. */
  ghost predicate SeesExactly(s: State, busy: set<int>) {
    forall p :: p in busy <==> Listened(s, p)
  }

  lemma ExactlySees(s: State, busy: set<int>)
    requires SeesExactly(s, busy)
    ensures Sees(s, busy)
  {
    forall g | Active(s, g) ensures s.groups[g].listens in busy {
      assert Listened(s, s.groups[g].listens);
    }
    forall id | id in s.solo ensures s.solo[id] in busy {
      assert Listened(s, s.solo[id]);
    }
  }

  /** A group that listens on another port than the one it has counted. */
  predicate Stray(s: State, g: string) {
    Active(s, g) && s.groups[g].listens != s.groups[g].realPort
  }

  /** The holder is opening or closing, or is a stray group. */
  predicate Between(s: State, h: Holder) {
    h.InFlight? || (h.GroupHolder? && Stray(s, h.group))
  }

  ghost predicate InWindow(s: State, p: int) {
    exists h :: Holds(s, h, p) && Between(s, h)
  }

  /** A used port that a real probe misses is in a window, and only such a port is missed. */
  lemma MissedIff(s: State, busy: set<int>, p: int)
    requires Conserved(s) && Sees(s, busy) && p !in busy
    ensures p in s.book.used <==> InWindow(s, p)
  {
    if p in s.book.used {
      var h :| Holds(s, h, p);
      assert Between(s, h);
    }
  }

  /** With nothing on its way and no stray group, a real probe is honest. */
  lemma SettledMeansHonest(s: State, busy: set<int>)
    requires Conserved(s) && Sees(s, busy) && s.flights == map[] && forall g :: !Stray(s, g)
    ensures B.Honest(s.book, busy)
  {
    forall p | p in s.book.used ensures p in busy {
      if p !in busy {
        MissedIff(s, busy, p);
      }
    }
  }

  /** Any port is asked for while the name's reserved port is in a window. */
  ghost predicate Reaches(s: State, name: B.Name, port: int) {
    port == 0 && name in s.book.reserved && InWindow(s, s.book.reserved[name].port)
  }

  /** The caller-side condition: the request reaches into no window that the probe misses. */
  ghost predicate Avoids(s: State, name: B.Name, port: int, busy: set<int>) {
    Reaches(s, name, port) ==> s.book.reserved[name].port in busy
  }

  lemma ClashIff(s: State, name: B.Name, port: int, probe: Probe)
    requires Conserved(s) && Sees(s, probe.busy)
    ensures Clash(s, name, port, probe) <==> !Avoids(s, name, port, probe.busy)
  {
    if port == 0 && name in s.book.reserved && s.book.reserved[name].port !in probe.busy {
      MissedIff(s, probe.busy, s.book.reserved[name].port);
    }
  }

  lemma ZeroIsSafe(s: State, allowed: set<int>, name: B.Name, port: int, probe: Probe)
    requires B.Inv(s.book, allowed) && 0 !in allowed && B.Lists(s.book, probe.order)
    ensures !LosesZero(s, name, port, probe)
  {
    B.FailureLeavesNoTrace(s.book, allowed, name, port, probe.order, probe.busy, probe.now);
  }

  /** With a real probe a request keeps the ports conserved if and only if it does not ask
      for any port while the name's reserved port is held by somebody who is opening or
      closing or by a stray group, and the probe does not see that port either. */
  lemma RequestConservesIff(s: State, allowed: set<int>, e: Event)
    requires Inv(s, allowed) && 0 !in allowed
    requires Enabled(s, e) && Listed(s, e) && Acquires(e) && Sees(s, e.probe.busy)
    ensures Conserved(Step(s, e)) <==> Avoids(s, e.name, PortOf(e), e.probe.busy)
  {
    ZeroIsSafe(s, allowed, e.name, PortOf(e), e.probe);
    ClashIff(s, e.name, PortOf(e), e.probe);
    StepKeepsInvIff(s, allowed, e);
  }

  /** A stray group listens on the port. */
  ghost predicate Covered(s: State, p: int) {
    exists g :: Stray(s, g) && s.groups[g].listens == p
  }

  /** And if the probe sees nothing but the listeners, the window alone decides, save when a
      stray group happens to listen on that very port. */
  lemma ExactRequestConservesIff(s: State, allowed: set<int>, e: Event)
    requires Inv(s, allowed) && 0 !in allowed
    requires Enabled(s, e) && Listed(s, e) && Acquires(e) && SeesExactly(s, e.probe.busy)
    ensures Conserved(Step(s, e)) <==> (Reaches(s, e.name, PortOf(e)) ==> Covered(s, s.book.reserved[e.name].port))
  {
    ExactlySees(s, e.probe.busy);
    RequestConservesIff(s, allowed, e);
    if Reaches(s, e.name, PortOf(e)) {
      WindowIsListenedIff(s, s.book.reserved[e.name].port);
    }
  }

  lemma WindowIsListenedIff(s: State, p: int)
    requires Conserved(s) && InWindow(s, p)
    ensures Listened(s, p) <==> Covered(s, p)
  {
    var h :| Holds(s, h, p) && Between(s, h);
    forall id | id in s.solo ensures s.solo[id] != p {
      assert Holds(s, SoloProxy(id), s.solo[id]);
    }
    forall g | Active(s, g) && s.groups[g].listens == p ensures Stray(s, g) {
      assert Holds(s, GroupHolder(g), s.groups[g].realPort);
    }
  }

  // ---- runs with real probes ----

  ghost predicate Real(s: State, e: Event) {
    Acquires(e) ==> Sees(s, e.probe.busy)
  }

  /** What a caller must meet: requests avoid the windows, new groups can listen. */
  ghost predicate Sound(s: State, e: Event) {
    && (Acquires(e) ==> Avoids(s, e.name, PortOf(e), e.probe.busy))
    && (e.ListenGroup? ==> e.listenOk)
  }

  lemma SoundIffOk(s: State, allowed: set<int>, e: Event)
    requires Inv(s, allowed) && 0 !in allowed && Enabled(s, e) && Listed(s, e) && Real(s, e)
    ensures StepOk(s, e) <==> Sound(s, e)
  {
    if Acquires(e) {
      RequestConservesIff(s, allowed, e);
      StepKeepsInvIff(s, allowed, e);
    }
  }

  ghost predicate RealRun(s: State, es: seq<Event>, t: State)
    decreases |es|
  {
    if es == [] then s == t
    else Enabled(s, es[0]) && Listed(s, es[0]) && Real(s, es[0]) && RealRun(Step(s, es[0]), es[1..], t)
  }

  ghost predicate AllSound(s: State, es: seq<Event>)
    decreases |es|
  {
    es != [] && Enabled(s, es[0]) ==> Sound(s, es[0]) && AllSound(Step(s, es[0]), es[1..])
  }

  /** Over every run with real probes, however the steps interleave: the ports are conserved
      at every point if and only if no request reaches into a window that its probe misses
      and every new group can listen. */
  lemma {:induction false} RealRunConservesIff(s: State, allowed: set<int>, es: seq<Event>, t: State)
    requires Inv(s, allowed) && 0 !in allowed && RealRun(s, es, t)
    ensures AlwaysConserved(s, es) <==> AllSound(s, es)
    ensures AllSound(s, es) ==> Inv(t, allowed)
    decreases |es|
  {
    if es != [] {
      SoundIffOk(s, allowed, es[0]);
      StepKeepsInvIff(s, allowed, es[0]);
      if Sound(s, es[0]) {
        RealRunConservesIff(Step(s, es[0]), allowed, es[1..], t);
      }
    }
  }

  /** Over every such run: a port is used exactly when one ungrouped proxy, one group with
      members or one opening or closing holds it, and then only that one; and an ungrouped
      proxy or a group that is not stray really listens on it. */
  lemma PortsAreConserved(allowed: set<int>, es: seq<Event>, s: State, p: int)
    requires 0 !in allowed && RealRun(Init(allowed), es, s) && AllSound(Init(allowed), es)
    ensures p in s.book.used <==> exists h :: Holds(s, h, p)
    ensures forall h, k :: Holds(s, h, p) && Holds(s, k, p) ==> h == k
    ensures p in allowed <==> p in s.book.used || p in s.book.free
    ensures p in s.book.used ==> Listened(s, p) || InWindow(s, p)
  {
    RealRunConservesIff(Init(allowed), allowed, es, s);
    if p in s.book.used {
      var h :| Holds(s, h, p);
      assert h.GroupHolder? && !Between(s, h) ==> s.groups[h.group].listens == p;
    }
  }

  // ---- witness runs ----

  /** From each state to the next by a step whose probe sees exactly the listeners. */
  ghost predicate Goes(s: State, e: Event, t: State) {
    && Enabled(s, e) && Listed(s, e) && Step(s, e) == t
    && (Acquires(e) ==> SeesExactly(s, e.probe.busy))
  }

  ghost predicate Follows(states: seq<State>, es: seq<Event>) {
    |states| == |es| + 1 && forall k :: 0 <= k < |es| ==> Goes(states[k], es[k], states[k + 1])
  }

  lemma {:induction false} FollowsRuns(states: seq<State>, es: seq<Event>)
    requires Follows(states, es)
    ensures Run(states[0], es, states[|es|]) && RealRun(states[0], es, states[|es|])
    decreases |es|
  {
    if es != [] {
      assert Goes(states[0], es[0], states[1]);
      forall k | 0 <= k < |es[1..]| ensures Goes(states[1..][k], es[1..][k], states[1..][k + 1]) {
        assert Goes(states[k + 1], es[k + 1], states[k + 2]);
      }
      FollowsRuns(states[1..], es[1..]);
      if Acquires(es[0]) {
        ExactlySees(states[0], es[0].probe.busy);
      }
    }
  }

  /** "b" takes port 10 and gives it back. */
  const BEFORE: seq<Event> := [
    AcquireSolo("b", 10, Probe([10], {}, 0)), ListenSolo(0, true), UnlistenSolo(0), Release(0, 1)]

  function Idle(book: B.Book, next: nat): State {
    State(book, map[], map[], map[], map[], {}, next)
  }

  const TAKEN := B.Book(map["b" := B.Record(10, false, 0)], {"b"}, map[10 := "b"], {})

  const RETURNED := B.Book(map["b" := B.Record(10, true, 1)], {}, map[], {10})

  const BEFORE_STATES: seq<State> := [
    Init({10}), Idle(TAKEN, 1).(flights := map[0 := OpeningSolo(10)]), Idle(TAKEN, 1).(solo := map[0 := 10]),
    Idle(TAKEN, 1).(flights := map[0 := Returning(10)]), Idle(RETURNED, 1)]

  lemma Before0()
    ensures Goes(BEFORE_STATES[0], BEFORE[0], BEFORE_STATES[1])
  {
  }

  lemma Before1()
    ensures Goes(BEFORE_STATES[1], BEFORE[1], BEFORE_STATES[2])
    ensures Goes(BEFORE_STATES[2], BEFORE[2], BEFORE_STATES[3])
  {
  }

  lemma Before3()
    ensures Goes(BEFORE_STATES[3], BEFORE[3], BEFORE_STATES[4])
  {
    assert B.OnPort(TAKEN, 10) == {"b"};
  }

  lemma BeforeFollows()
    ensures Follows(BEFORE_STATES, BEFORE)
  {
    Before0();
    Before1();
    Before3();
  }

  /** The closing window: "a" takes 10, listens and closes its listener; "b", who asks for
      any port, is granted 10 and listens; then "a" gives the port back. */
  const CLOSING: seq<Event> := [
    AcquireSolo("a", 10, Probe([10], {}, 2)), ListenSolo(1, true), UnlistenSolo(1),
    AcquireSolo("b", 0, Probe([], {}, 3)), ListenSolo(2, true), Release(1, 5)]

  const TAKEN_OVER :=
    B.Book(map["b" := B.Record(10, true, 1), "a" := B.Record(10, false, 2)], {"a"}, map[10 := "a"], {})

  const TAKEN_AGAIN :=
    B.Book(map["b" := B.Record(10, false, 3), "a" := B.Record(10, false, 2)], {"b"}, map[10 := "b"], {})

  function Freed(now: int): B.Book {
    B.Book(map["b" := B.Record(10, true, now), "a" := B.Record(10, false, 2)], {}, map[], {10})
  }

  const CLOSING_STATES: seq<State> := [
    Idle(RETURNED, 1), Idle(TAKEN_OVER, 2).(flights := map[1 := OpeningSolo(10)]),
    Idle(TAKEN_OVER, 2).(solo := map[1 := 10]), Idle(TAKEN_OVER, 2).(flights := map[1 := Returning(10)]),
    Idle(TAKEN_AGAIN, 3).(flights := map[1 := Returning(10), 2 := OpeningSolo(10)]),
    Idle(TAKEN_AGAIN, 3).(flights := map[1 := Returning(10)], solo := map[2 := 10]),
    Idle(Freed(5), 3).(solo := map[2 := 10])]

  lemma TakesAgain(busy: set<int>)
    requires 10 !in busy
    ensures B.Acquire(TAKEN_OVER, "b", 0, [], busy, 3) == TAKEN_AGAIN
    ensures B.Decide(TAKEN_OVER, "b", 0, [], busy) == (Some(10), B.Ok)
  {
    assert B.OnPort(TAKEN_OVER, 10) == {"a"};
  }

  lemma FreesAgain(now: int)
    ensures B.Release(TAKEN_AGAIN, 10, now) == Freed(now)
  {
    assert B.OnPort(TAKEN_AGAIN, 10) == {"b"};
  }

  lemma Closing0()
    ensures Goes(CLOSING_STATES[0], CLOSING[0], CLOSING_STATES[1])
  {
  }

  lemma Closing1()
    ensures Goes(CLOSING_STATES[1], CLOSING[1], CLOSING_STATES[2])
    ensures Goes(CLOSING_STATES[2], CLOSING[2], CLOSING_STATES[3])
  {
  }

  lemma Closing3()
    ensures Goes(CLOSING_STATES[3], CLOSING[3], CLOSING_STATES[4])
  {
    TakesAgain({});
  }

  lemma Closing4()
    ensures Goes(CLOSING_STATES[4], CLOSING[4], CLOSING_STATES[5])
  {
  }

  lemma Closing5()
    ensures Goes(CLOSING_STATES[5], CLOSING[5], CLOSING_STATES[6])
  {
    FreesAgain(5);
  }

  lemma ClosingFollows()
    ensures Follows(CLOSING_STATES, CLOSING)
  {
    Closing0();
    Closing1();
    Closing3();
    Closing4();
    Closing5();
  }

  lemma LiveOnFreePort(book: B.Book, flights: map<nat, Flight>)
    requires 10 !in book.used
    ensures !Conserved(Idle(book, 3).(solo := map[2 := 10], flights := flights))
    ensures !Conserved(Idle(book, 3).(solo := map[1 := 10], flights := flights))
  {
    assert Holds(Idle(book, 3).(solo := map[2 := 10], flights := flights), SoloProxy(2), 10);
    assert Holds(Idle(book, 3).(solo := map[1 := 10], flights := flights), SoloProxy(1), 10);
  }

  /** A run whose probes see exactly the listeners and whose listens all succeed, at the end
      of which "b" is live on port 10, which is free; its record is closed, and cleaning more
      than a day later drops it. */
  lemma ClosingWindowLosesPort()
    ensures Follows(BEFORE_STATES, BEFORE) && Follows(CLOSING_STATES, CLOSING)
    ensures Run(Init({10}), BEFORE, CLOSING_STATES[0]) && Run(CLOSING_STATES[0], CLOSING, CLOSING_STATES[6])
    ensures
      var s := CLOSING_STATES[6];
      && s.solo == map[2 := 10] && s.book == Freed(5) && !Conserved(s)
      && "b" !in B.Clean(Freed(5), 5 + B.DAY + 1).reserved
  {
    BeforeFollows();
    FollowsRuns(BEFORE_STATES, BEFORE);
    ClosingFollows();
    FollowsRuns(CLOSING_STATES, CLOSING);
    LiveOnFreePort(Freed(5), map[]);
  }

  /** The opening window: "a" takes 10; before it listens, "b" asks for any port and is
      granted 10; "a" listens, "b" cannot, and gives 10 back. */
  const OPENING: seq<Event> := [
    AcquireSolo("a", 10, Probe([10], {}, 2)), AcquireSolo("b", 0, Probe([], {}, 3)),
    ListenSolo(1, true), ListenSolo(2, false), Release(2, 6)]

  const OPENING_STATES: seq<State> := [
    Idle(RETURNED, 1), Idle(TAKEN_OVER, 2).(flights := map[1 := OpeningSolo(10)]),
    Idle(TAKEN_AGAIN, 3).(flights := map[1 := OpeningSolo(10), 2 := OpeningSolo(10)]),
    Idle(TAKEN_AGAIN, 3).(solo := map[1 := 10], flights := map[2 := OpeningSolo(10)]),
    Idle(TAKEN_AGAIN, 3).(solo := map[1 := 10], flights := map[2 := Returning(10)]),
    Idle(Freed(6), 3).(solo := map[1 := 10])]

  lemma Opening1()
    ensures Goes(OPENING_STATES[1], OPENING[1], OPENING_STATES[2])
  {
    TakesAgain({});
  }

  lemma Opening2()
    ensures Goes(OPENING_STATES[2], OPENING[2], OPENING_STATES[3])
  {
  }

  lemma Opening3()
    ensures Goes(OPENING_STATES[3], OPENING[3], OPENING_STATES[4])
  {
  }

  lemma Opening4()
    ensures Goes(OPENING_STATES[4], OPENING[4], OPENING_STATES[5])
  {
    FreesAgain(6);
  }

  lemma OpeningFollows()
    ensures Follows(OPENING_STATES, OPENING)
  {
    Closing0();
    Opening1();
    Opening2();
    Opening3();
    Opening4();
  }

  /** A run whose probes see exactly the listeners, at the end of which "a" is live on port
      10, which is free. */
  lemma OpeningWindowLosesPort()
    ensures Follows(BEFORE_STATES, BEFORE) && Follows(OPENING_STATES, OPENING)
    ensures Run(Init({10}), BEFORE, OPENING_STATES[0]) && Run(OPENING_STATES[0], OPENING, OPENING_STATES[5])
    ensures
      var s := OPENING_STATES[5];
      s.solo == map[1 := 10] && s.book == Freed(6) && !Conserved(s)
  {
    BeforeFollows();
    FollowsRuns(BEFORE_STATES, BEFORE);
    OpeningFollows();
    FollowsRuns(OPENING_STATES, OPENING);
    LiveOnFreePort(Freed(6), map[]);
  }

  /** A stray group: "a" opens a group on any port and is granted 10, but listens on 40000;
      "b" gets 10 back, listens, closes and gives it back. */
  const STRAY: seq<Event> := [
    AcquireGroup("a", STRAYED, Probe([10], {}, 2)), ListenGroup(1, true, 40000),
    AcquireSolo("b", 0, Probe([], {40000}, 3)), ListenSolo(2, true), UnlistenSolo(2), Release(2, 4)]

  const STRAYED := Joined("g", "", "", 0)

  const LOCKED := Idle(TAKEN_OVER, 2).(
    groups := map["g" := EMPTY], flights := map[1 := OpeningGroup(10, STRAYED)], locked := {"g"})

  function Grouped(book: B.Book, next: nat): State {
    Idle(book, next).(groups := map["g" := Group("", "", 0, 10, 40000, [1])], grouped := map[1 := STRAYED])
  }

  const STRAY_STATES: seq<State> := [
    Idle(RETURNED, 1), LOCKED, Grouped(TAKEN_OVER, 2),
    Grouped(TAKEN_AGAIN, 3).(flights := map[2 := OpeningSolo(10)]), Grouped(TAKEN_AGAIN, 3).(solo := map[2 := 10]),
    Grouped(TAKEN_AGAIN, 3).(flights := map[2 := Returning(10)]), Grouped(Freed(4), 3)]

  lemma Stray0()
    ensures Goes(STRAY_STATES[0], STRAY[0], STRAY_STATES[1])
  {
    assert Decision(Idle(RETURNED, 1), "a", 0, STRAY[0].probe) == (Some(10), B.Ok);
  }

  lemma Stray1()
    ensures Goes(STRAY_STATES[1], STRAY[1], STRAY_STATES[2])
  {
  }

  lemma OnlyGroupListens(book: B.Book, next: nat)
    ensures SeesExactly(Grouped(book, next), {40000})
  {
    var s := Grouped(book, next);
    assert Active(s, "g") && s.groups["g"].listens == 40000;
  }

  lemma Stray2()
    ensures Goes(STRAY_STATES[2], STRAY[2], STRAY_STATES[3])
  {
    OnlyGroupListens(TAKEN_OVER, 2);
    TakesAgain({40000});
  }

  lemma Stray3()
    ensures Goes(STRAY_STATES[3], STRAY[3], STRAY_STATES[4])
  {
  }

  lemma Stray4()
    ensures Goes(STRAY_STATES[4], STRAY[4], STRAY_STATES[5])
  {
  }

  lemma Stray5()
    ensures Goes(STRAY_STATES[5], STRAY[5], STRAY_STATES[6])
  {
    FreesAgain(4);
  }

  lemma StrayFollows()
    ensures Follows(STRAY_STATES, STRAY)
  {
    Stray0();
    Stray1();
    Stray2();
    Stray3();
    Stray4();
    Stray5();
  }

  /** A run whose probes see exactly the listeners and whose listens all succeed. After four
      steps a group and an ungrouped proxy hold the same port; in the end it is free while
      the group lives. */
  lemma StrayGroupLosesPort()
    ensures Follows(BEFORE_STATES, BEFORE) && Follows(STRAY_STATES, STRAY)
    ensures Run(Init({10}), BEFORE, STRAY_STATES[0]) && Run(STRAY_STATES[0], STRAY, STRAY_STATES[6])
    ensures
      var s := STRAY_STATES[4];
      Holds(s, GroupHolder("g"), 10) && Holds(s, SoloProxy(2), 10) && !Conserved(s)
    ensures
      var s := STRAY_STATES[6];
      Active(s, "g") && s.groups["g"].realPort == 10 && 10 !in s.book.used && 10 in s.book.free
  {
    BeforeFollows();
    FollowsRuns(BEFORE_STATES, BEFORE);
    StrayFollows();
    FollowsRuns(STRAY_STATES, STRAY);
    StrayShares();
  }

  lemma StrayShares()
    ensures
      var s := STRAY_STATES[4];
      Holds(s, GroupHolder("g"), 10) && Holds(s, SoloProxy(2), 10) && !Conserved(s)
  {
    var s := STRAY_STATES[4];
    assert Holds(s, GroupHolder("g"), 10) && Holds(s, SoloProxy(2), 10);
  }
}
