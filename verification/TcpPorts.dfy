/** TCP proxies and load-balancing groups on top of the port allocator: who holds which
    port over a whole run. Acquiring a port, listening on it, closing the listener and
    giving the port back are separate steps, since other controls act in between. */
module TcpPorts {
  import opened Base
  import B = PortBook

  /** `listens` is the port the group's listener is really bound to. */
  datatype Group = Group(groupKey: string, addr: string, port: int, realPort: int, listens: int, members: seq<nat>)

  const EMPTY := Group("", "", 0, 0, 0, [])

  /** What a member asked for when it joined. */
  datatype Joined = Joined(group: string, groupKey: string, addr: string, port: int)

  /** A port on its way: acquired and not yet listened on, or no longer listened on and
      not yet given back. */
  datatype Flight =
    | OpeningSolo(port: int)
    | OpeningGroup(port: int, asked: Joined)
    | Returning(port: int)
    | ClosingGroup(port: int, group: string)

  /** Proxies are numbered: `solo` maps a listening ungrouped proxy to its port, `grouped`
      a member to its request, `flights` a proxy to its port on the way. A group object may
      stay in the map without members; `locked` are the groups whose lock is held across
      steps, by their first or last member. */
  datatype State = State(
    book: B.Book,
    groups: map<string, Group>,
    solo: map<nat, int>,
    grouped: map<nat, Joined>,
    flights: map<nat, Flight>,
    locked: set<string>,
    next: nat)

  datatype Probe = Probe(order: seq<int>, busy: set<int>, now: int)

  datatype Event =
    | AcquireSolo(name: B.Name, port: int, probe: Probe)
    | ListenSolo(id: nat, listenOk: bool)
    | UnlistenSolo(id: nat)
    | AcquireGroup(name: B.Name, asked: Joined, probe: Probe)   // by the first member
    | ListenGroup(id: nat, listenOk: bool, osPort: int)
    | JoinGroup(asked: Joined)                                  // by a later member
    | LeaveGroup(id: nat)
    | Release(id: nat, now: int)
    | CleanUp(now: int)

  /** net.Listen is given the requested port; for 0 the operating system chooses. */
  function BoundPort(port: int, osPort: int): int {
    if port == 0 then osPort else port
  }

  function Decision(s: State, name: B.Name, port: int, probe: Probe): (Option<int>, B.Error) {
    B.Decide(s.book, name, port, probe.order, probe.busy)
  }

  /** What a request that succeeds is granted. */
  function GrantOf(s: State, name: B.Name, port: int, probe: Probe): Option<int> {
    var (k, err) := Decision(s, name, port, probe);
    if err.Ok? then k else None
  }

  function Acquired(s: State, name: B.Name, port: int, probe: Probe): B.Book {
    B.Acquire(s.book, name, port, probe.order, probe.busy, probe.now)
  }

  function GroupOf(s: State, g: string): Group {
    if g in s.groups then s.groups[g] else EMPTY
  }

  /** The later members must agree on the address, the port and the key. */
  predicate JoinAllowed(g: Group, j: Joined) {
    g.addr == j.addr && g.port == j.port && g.groupKey == j.groupKey
  }

  predicate Enabled(s: State, e: Event) {
    match e
    case ListenSolo(id, _) => id in s.flights && s.flights[id].OpeningSolo?
    case UnlistenSolo(id) => id in s.solo
    case AcquireGroup(_, j, _) => j.group !in s.locked && GroupOf(s, j.group).members == []
    case ListenGroup(id, _, _) => id in s.flights && s.flights[id].OpeningGroup?
    case JoinGroup(j) => j.group !in s.locked && GroupOf(s, j.group).members != []
    case LeaveGroup(id) =>
      id in s.grouped && s.grouped[id].group in s.groups && s.grouped[id].group !in s.locked
    case Release(id, _) => id in s.flights && (s.flights[id].Returning? || s.flights[id].ClosingGroup?)
    case _ => true
  }

  function StepAcquireSolo(s: State, name: B.Name, port: int, probe: Probe): State {
    var granted := GrantOf(s, name, port, probe);
    var t := s.(book := Acquired(s, name, port, probe));
    if granted.None? then t
    else t.(flights := s.flights[s.next := OpeningSolo(granted.value)], next := s.next + 1)
  }

  /** A listen that fails leaves the port to be given back. */
  function StepListenSolo(s: State, id: nat, listenOk: bool): State
    requires Enabled(s, ListenSolo(id, listenOk))
  {
    var p := s.flights[id].port;
    if listenOk then s.(flights := s.flights - {id}, solo := s.solo[id := p])
    else s.(flights := s.flights[id := Returning(p)])
  }

  function StepAcquireGroup(s: State, name: B.Name, j: Joined, probe: Probe): State {
    var granted := GrantOf(s, name, j.port, probe);
    var t := s.(book := Acquired(s, name, j.port, probe), groups := s.groups[j.group := GroupOf(s, j.group)]);
    if granted.None? then t
    else
      t.(flights := s.flights[s.next := OpeningGroup(granted.value, j)], locked := s.locked + {j.group},
         next := s.next + 1)
  }

  /** A listen that fails does not give the port back. */
  function StepListenGroup(s: State, id: nat, listenOk: bool, osPort: int): State
    requires Enabled(s, ListenGroup(id, listenOk, osPort))
  {
    var (p, j) := (s.flights[id].port, s.flights[id].asked);
    var t := s.(flights := s.flights - {id}, locked := s.locked - {j.group});
    if !listenOk then t
    else
      var g := Group(j.groupKey, j.addr, j.port, p, BoundPort(j.port, osPort), [id]);
      t.(groups := s.groups[j.group := g], grouped := s.grouped[id := j])
  }

  function StepJoinGroup(s: State, j: Joined): State {
    var g := GroupOf(s, j.group);
    if !JoinAllowed(g, j) then s
    else
      s.(groups := s.groups[j.group := g.(members := g.members + [s.next])], grouped := s.grouped[s.next := j],
         next := s.next + 1)
  }

  function StepLeaveGroup(s: State, id: nat): State
    requires Enabled(s, LeaveGroup(id))
  {
    var name := s.grouped[id].group;
    var g := s.groups[name];
    var left := RemoveFirst(g.members, id);
    var t := s.(grouped := s.grouped - {id}, groups := s.groups[name := g.(members := left)]);
    if left != [] then t
    else t.(flights := s.flights[id := ClosingGroup(g.realPort, name)], locked := s.locked + {name})
  }

  function StepRelease(s: State, id: nat, now: int): State
    requires Enabled(s, Release(id, now))
  {
    var f := s.flights[id];
    var t := s.(book := B.Release(s.book, f.port, now), flights := s.flights - {id});
    if f.ClosingGroup? then t.(groups := s.groups - {f.group}, locked := s.locked - {f.group}) else t
  }

  function Step(s: State, e: Event): State
    requires Enabled(s, e)
  {
    match e
    case AcquireSolo(name, port, probe) => StepAcquireSolo(s, name, port, probe)
    case ListenSolo(id, listenOk) => StepListenSolo(s, id, listenOk)
    case UnlistenSolo(id) => s.(solo := s.solo - {id}, flights := s.flights[id := Returning(s.solo[id])])
    case AcquireGroup(name, j, probe) => StepAcquireGroup(s, name, j, probe)
    case ListenGroup(id, listenOk, osPort) => StepListenGroup(s, id, listenOk, osPort)
    case JoinGroup(j) => StepJoinGroup(s, j)
    case LeaveGroup(id) => StepLeaveGroup(s, id)
    case Release(id, now) => StepRelease(s, id, now)
    case CleanUp(now) => s.(book := B.Clean(s.book, now))
  }

  // ---- who is who ----

  predicate Active(s: State, g: string) {
    g in s.groups && s.groups[g].members != []
  }

  ghost predicate Member(groups: map<string, Group>, id: nat, g: string) {
    g in groups && id in groups[g].members
  }

  /** The member lists and the map of members agree. */
  ghost predicate MembersFit(groups: map<string, Group>, grouped: map<nat, Joined>) {
    && (forall id :: id in grouped ==> Member(groups, id, grouped[id].group))
    && (forall id, g :: Member(groups, id, g) ==> id in grouped && grouped[id].group == g)
    && (forall g :: g in groups ==> Distinct(groups[g].members))
  }

  /** Every number is used once. */
  ghost predicate NumbersFit(solo: set<nat>, grouped: set<nat>, flights: set<nat>, next: nat) {
    solo !! grouped && solo !! flights && grouped !! flights
    && forall id :: id in solo || id in grouped || id in flights ==> id < next
  }

  /** The group a flight has locked. */
  predicate Locks(f: Flight, g: string) {
    match f
    case OpeningGroup(_, j) => j.group == g
    case ClosingGroup(_, name) => name == g
    case _ => false
  }

  /** A locked group has no members, and a flight holds its lock alone. */
  ghost predicate LocksFit(groups: map<string, Group>, flights: map<nat, Flight>, locked: set<string>) {
    && (forall g :: g in locked ==> g in groups && groups[g].members == [])
    && (forall id, g :: id in flights && Locks(flights[id], g) ==> g in locked)
    && (forall id, k, g :: id in flights && k in flights && Locks(flights[id], g) && Locks(flights[k], g) ==> id == k)
  }

  ghost predicate Orderly(s: State) {
    && MembersFit(s.groups, s.grouped) && LocksFit(s.groups, s.flights, s.locked)
    && NumbersFit(s.solo.Keys, s.grouped.Keys, s.flights.Keys, s.next)
  }

  lemma AcquireSoloKeepsOrder(s: State, name: B.Name, port: int, probe: Probe)
    requires Orderly(s)
    ensures Orderly(StepAcquireSolo(s, name, port, probe))
  {
    var t := StepAcquireSolo(s, name, port, probe);
    LocksStay(s.groups, s.flights, t.flights, s.locked, s.next);
  }

  /** A flight that locks no group changes nothing about the locks. */
  lemma LocksStay(groups: map<string, Group>, flights: map<nat, Flight>, more: map<nat, Flight>, locked: set<string>,
                  id: nat)
    requires LocksFit(groups, flights, locked)
    requires forall k :: k in more && k != id ==> k in flights && more[k] == flights[k]
    requires id in more ==> more[id].OpeningSolo? || more[id].Returning? || (id in flights && more[id] == flights[id])
    ensures LocksFit(groups, more, locked)
  {
  }

  /** The members are those of before when the members of every group are. */
  lemma MembersStay(groups: map<string, Group>, others: map<string, Group>, grouped: map<nat, Joined>)
    requires MembersFit(groups, grouped)
    requires forall g :: g in others ==>
      if g in groups then others[g].members == groups[g].members else others[g].members == []
    requires forall g :: g in groups && groups[g].members != [] ==> g in others
    ensures MembersFit(others, grouped)
  {
    forall id, g | Member(others, id, g) ensures id in grouped && grouped[id].group == g {
      assert Member(groups, id, g);
    }
    forall id | id in grouped ensures Member(others, id, grouped[id].group) {
      assert Member(groups, id, grouped[id].group);
    }
  }

  /** A flight takes a free lock on a group that has no members from now on. */
  lemma LockTaken(groups: map<string, Group>, others: map<string, Group>, flights: map<nat, Flight>,
                  locked: set<string>, id: nat, f: Flight, g: string)
    requires LocksFit(groups, flights, locked) && g !in locked && id !in flights
    requires forall name :: Locks(f, name) <==> name == g
    requires g in others && others[g].members == []
    requires forall name :: name != g && name in groups ==>
      name in others && others[name].members == groups[name].members
    ensures LocksFit(others, flights[id := f], locked + {g})
  {
    var more := flights[id := f];
    forall k, name | k in more && Locks(more[k], name)
      ensures name in locked + {g} && name in others && others[name].members == []
    {
      assert k != id ==> Locks(flights[k], name);
    }
  }

  lemma AcquireGroupKeepsOrder(s: State, name: B.Name, j: Joined, probe: Probe)
    requires Orderly(s) && Enabled(s, AcquireGroup(name, j, probe))
    ensures Orderly(StepAcquireGroup(s, name, j, probe))
  {
    var others := s.groups[j.group := GroupOf(s, j.group)];
    MembersStay(s.groups, others, s.grouped);
    var granted := GrantOf(s, name, j.port, probe);
    if granted.Some? {
      LockTaken(s.groups, others, s.flights, s.locked, s.next, OpeningGroup(granted.value, j), j.group);
    }
    SameLocks(s.groups, others, s.flights, s.locked);
  }

  lemma SameLocks(groups: map<string, Group>, others: map<string, Group>, flights: map<nat, Flight>,
                  locked: set<string>)
    requires LocksFit(groups, flights, locked)
    requires forall name :: name in groups ==> name in others && others[name].members == groups[name].members
    ensures LocksFit(others, flights, locked)
  {
  }

  lemma ListenSoloKeepsOrder(s: State, id: nat, listenOk: bool)
    requires Orderly(s) && Enabled(s, ListenSolo(id, listenOk))
    ensures Orderly(StepListenSolo(s, id, listenOk))
  {
    LocksStay(s.groups, s.flights, StepListenSolo(s, id, listenOk).flights, s.locked, id);
  }

  lemma UnlistenSoloKeepsOrder(s: State, id: nat)
    requires Orderly(s) && Enabled(s, UnlistenSolo(id))
    ensures Orderly(Step(s, UnlistenSolo(id)))
  {
    LocksStay(s.groups, s.flights, Step(s, UnlistenSolo(id)).flights, s.locked, id);
  }

  lemma ListenGroupKeepsOrder(s: State, id: nat, listenOk: bool, osPort: int)
    requires Orderly(s) && Enabled(s, ListenGroup(id, listenOk, osPort))
    ensures Orderly(StepListenGroup(s, id, listenOk, osPort))
  {
    var t := StepListenGroup(s, id, listenOk, osPort);
    var name := s.flights[id].asked.group;
    assert Locks(s.flights[id], name);
    forall m, g | Member(t.groups, m, g) ensures m in t.grouped && t.grouped[m].group == g {
      assert Member(s.groups, m, g) || (m == id && g == name);
    }
    forall m | m in t.grouped ensures Member(t.groups, m, t.grouped[m].group) {
      assert m in s.grouped ==> Member(s.groups, m, s.grouped[m].group);
    }
  }

  lemma JoinKeepsOrder(s: State, j: Joined)
    requires Orderly(s) && Enabled(s, JoinGroup(j))
    ensures Orderly(StepJoinGroup(s, j))
  {
    var t := StepJoinGroup(s, j);
    if JoinAllowed(GroupOf(s, j.group), j) {
      assert !Member(s.groups, s.next, j.group);
      AppendDistinct(s.groups[j.group].members, s.next);
      forall m, g | Member(t.groups, m, g) ensures m in t.grouped && t.grouped[m].group == g {
        assert Member(s.groups, m, g) || (m == s.next && g == j.group);
      }
      forall m | m in t.grouped ensures Member(t.groups, m, t.grouped[m].group) {
        assert m in s.grouped ==> Member(s.groups, m, s.grouped[m].group);
      }
    }
  }

  lemma LeaveKeepsMembers(s: State, id: nat)
    requires Orderly(s) && Enabled(s, LeaveGroup(id))
    ensures MembersFit(StepLeaveGroup(s, id).groups, StepLeaveGroup(s, id).grouped)
  {
    var t := StepLeaveGroup(s, id);
    var name := s.grouped[id].group;
    RemoveFirstHas(s.groups[name].members, id);
    forall m, g | Member(t.groups, m, g) ensures m in t.grouped && t.grouped[m].group == g {
      assert Member(s.groups, m, g);
    }
    forall m | m in t.grouped ensures Member(t.groups, m, t.grouped[m].group) {
      assert Member(s.groups, m, s.grouped[m].group);
      assert s.grouped[m].group == name ==> m in RemoveFirst(s.groups[name].members, id);
    }
  }

  lemma LeaveKeepsOrder(s: State, id: nat)
    requires Orderly(s) && Enabled(s, LeaveGroup(id))
    ensures Orderly(StepLeaveGroup(s, id))
  {
    var t := StepLeaveGroup(s, id);
    var name := s.grouped[id].group;
    LeaveKeepsMembers(s, id);
    assert Member(s.groups, id, name);
    if t.groups[name].members == [] {
      LockTaken(s.groups, t.groups, s.flights, s.locked, id, ClosingGroup(s.groups[name].realPort, name), name);
    } else {
      LocksElsewhere(s.groups, t.groups, s.flights, s.locked, name);
    }
  }

  lemma LocksElsewhere(groups: map<string, Group>, others: map<string, Group>, flights: map<nat, Flight>,
                       locked: set<string>, g: string)
    requires LocksFit(groups, flights, locked) && g !in locked
    requires forall name :: name != g && name in groups ==>
      name in others && others[name].members == groups[name].members
    ensures LocksFit(others, flights, locked)
  {
  }

  lemma ReleaseKeepsOrder(s: State, id: nat, now: int)
    requires Orderly(s) && Enabled(s, Release(id, now))
    ensures Orderly(StepRelease(s, id, now))
  {
    var f := s.flights[id];
    assert f.ClosingGroup? ==> Locks(f, f.group);
    MembersStay(s.groups, StepRelease(s, id, now).groups, s.grouped);
  }

  lemma StepKeepsOrder(s: State, e: Event)
    requires Orderly(s) && Enabled(s, e)
    ensures Orderly(Step(s, e))
  {
    match e
    case AcquireSolo(name, port, probe) => AcquireSoloKeepsOrder(s, name, port, probe);
    case AcquireGroup(name, j, probe) => AcquireGroupKeepsOrder(s, name, j, probe);
    case ListenSolo(id, listenOk) => ListenSoloKeepsOrder(s, id, listenOk);
    case UnlistenSolo(id) => UnlistenSoloKeepsOrder(s, id);
    case ListenGroup(id, listenOk, osPort) => ListenGroupKeepsOrder(s, id, listenOk, osPort);
    case JoinGroup(j) => JoinKeepsOrder(s, j);
    case LeaveGroup(id) => LeaveKeepsOrder(s, id);
    case Release(id, now) => ReleaseKeepsOrder(s, id, now);
    case CleanUp(_) =>
  }

  // ---- who holds a port ----

  datatype Holder = SoloProxy(id: nat) | GroupHolder(group: string) | InFlight(id: nat)

  predicate Holds(s: State, h: Holder, p: int) {
    match h
    case SoloProxy(id) => id in s.solo && s.solo[id] == p
    case GroupHolder(g) => Active(s, g) && s.groups[g].realPort == p
    case InFlight(id) => id in s.flights && s.flights[id].port == p
  }

  /** Every used port has exactly one holder, and every held port is used. */
  ghost predicate Conserved(s: State) {
    && (forall p :: p in s.book.used ==> exists h :: Holds(s, h, p))
    && (forall h, p :: Holds(s, h, p) ==> p in s.book.used)
    && (forall h, k, p :: Holds(s, h, p) && Holds(s, k, p) ==> h == k)
  }

  ghost predicate LockedBy(flights: map<nat, Flight>, id: nat, g: string) {
    id in flights && Locks(flights[id], g)
  }

  /** No lock is held by nobody. */
  ghost predicate LocksHeld(flights: map<nat, Flight>, locked: set<string>) {
    forall g :: g in locked ==> exists id :: LockedBy(flights, id, g)
  }

  lemma LockStaysHeld(s: State, e: Event, id: nat, g: string)
    requires Orderly(s) && Enabled(s, e) && LockedBy(s.flights, id, g) && g in Step(s, e).locked
    ensures LockedBy(Step(s, e).flights, id, g)
  {
    match e
    case AcquireSolo(_, _, _) =>
    case AcquireGroup(_, _, _) =>
    case _ =>
  }

  lemma LockStartsHeld(s: State, e: Event, g: string)
    requires Enabled(s, e) && g !in s.locked && g in Step(s, e).locked
    ensures LockedBy(Step(s, e).flights, if e.AcquireGroup? then s.next else e.id, g)
  {
  }

  lemma StepKeepsLocks(s: State, e: Event)
    requires Orderly(s) && LocksHeld(s.flights, s.locked) && Enabled(s, e)
    ensures LocksHeld(Step(s, e).flights, Step(s, e).locked)
  {
    forall g | g in Step(s, e).locked ensures exists id :: LockedBy(Step(s, e).flights, id, g) {
      if g in s.locked {
        var id :| LockedBy(s.flights, id, g);
        LockStaysHeld(s, e, id, g);
      } else {
        LockStartsHeld(s, e, g);
      }
    }
  }

  /** What every step keeps, whatever the probes report. */
  ghost predicate Sane(s: State, allowed: set<int>) {
    B.Inv(s.book, allowed) && Orderly(s) && LocksHeld(s.flights, s.locked)
  }

  ghost predicate Inv(s: State, allowed: set<int>) {
    Sane(s, allowed) && Conserved(s)
  }

  predicate Acquires(e: Event) {
    e.AcquireSolo? || e.AcquireGroup?
  }

  function PortOf(e: Event): int
    requires Acquires(e)
  {
    if e.AcquireSolo? then e.port else e.asked.port
  }

  /** The iteration order of a request lists the free ports. */
  ghost predicate Listed(s: State, e: Event) {
    Acquires(e) ==> B.Lists(s.book, e.probe.order)
  }

  /** Any port is asked for, and the name's reserved port is in use but looks available. */
  predicate Clash(s: State, name: B.Name, port: int, probe: Probe) {
    port == 0 && name in s.book.reserved
    && s.book.reserved[name].port !in probe.busy && s.book.reserved[name].port in s.book.used
  }

  /** The request fails, and yet uses up port 0. */
  ghost predicate LosesZero(s: State, name: B.Name, port: int, probe: Probe) {
    B.PicksZero(s.book, name, port, probe.order, probe.busy)
  }

  /** A grant takes a port nobody holds, unless the request clashes. */
  lemma GrantIsFreeIff(s: State, allowed: set<int>, name: B.Name, port: int, probe: Probe)
    requires B.Inv(s.book, allowed) && B.Lists(s.book, probe.order)
    ensures
      var (k, err) := Decision(s, name, port, probe);
      && (err.Ok? <==> k.Some? && !LosesZero(s, name, port, probe))
      && (k.None? ==> Acquired(s, name, port, probe) == s.book && !Clash(s, name, port, probe))
      && (LosesZero(s, name, port, probe) ==> k == Some(0) && !Clash(s, name, port, probe))
      && (k.Some? ==> k.value in allowed && (port != 0 ==> k.value == port))
      && (k.Some? ==> (k.value in s.book.used <==> Clash(s, name, port, probe)))
      && (k.Some? ==> Acquired(s, name, port, probe) == B.Take(s.book, name, k.value, probe.now))
  {
    B.GrantIsAllowed(s.book, allowed, name, port, probe.order, probe.busy);
    B.DoubleGrantIff(s.book, allowed, name, port, probe.order, probe.busy);
    B.FirstFreeIsFree(probe.order, probe.busy, B.MAX_TRIES);
    B.FirstFreeIs(probe.order, probe.busy, B.MAX_TRIES, 0);
  }

  lemma StepKeepsSane(s: State, allowed: set<int>, e: Event)
    requires Sane(s, allowed) && Enabled(s, e) && Listed(s, e)
    ensures Sane(Step(s, e), allowed)
  {
    StepKeepsOrder(s, e);
    StepKeepsLocks(s, e);
    match e {
      case Release(id, now) => B.ReleaseKeepsInv(s.book, allowed, s.flights[id].port, now);
      case CleanUp(now) => B.CleanDropsExpired(s.book, allowed, now);
      case AcquireSolo(name, port, probe) => AcquiredBook(s, allowed, name, port, probe);
      case AcquireGroup(name, j, probe) => AcquiredBook(s, allowed, name, j.port, probe);
      case _ =>
    }
  }

  lemma AcquiredBook(s: State, allowed: set<int>, name: B.Name, port: int, probe: Probe)
    requires B.Inv(s.book, allowed) && B.Lists(s.book, probe.order)
    ensures B.Inv(Acquired(s, name, port, probe), allowed)
  {
    GrantIsFreeIff(s, allowed, name, port, probe);
    var k := Decision(s, name, port, probe).0;
    if k.Some? {
      B.TakeKeepsInv(s.book, allowed, name, k.value, probe.now);
    }
  }

  // ---- how holders change ----

  lemma SameHoldersConserve(s: State, t: State)
    requires t.book.used.Keys == s.book.used.Keys && forall k, q :: Holds(t, k, q) <==> Holds(s, k, q)
    ensures Conserved(s) ==> Conserved(t)
  {
    if Conserved(s) {
      forall q | q in t.book.used ensures exists k :: Holds(t, k, q) {
        var k :| Holds(s, k, q);
        assert Holds(t, k, q);
      }
    }
  }

  /** Giving a free port to a new holder keeps the books. */
  lemma NewHolderConserves(s: State, t: State, h: Holder, p: int)
    requires Conserved(s) && p !in s.book.used && t.book.used.Keys == s.book.used.Keys + {p}
    requires forall k, q :: Holds(t, k, q) <==> Holds(s, k, q) || (k == h && q == p)
    ensures Conserved(t)
  {
    forall q | q in t.book.used ensures exists k :: Holds(t, k, q) {
      if q == p {
        assert Holds(t, h, p);
      } else {
        var k :| Holds(s, k, q);
        assert Holds(t, k, q);
      }
    }
  }

  /** Giving a used port to a new holder breaks them. */
  lemma SecondHolderBreaks(s: State, t: State, h: Holder, p: int)
    requires Conserved(s) && p in s.book.used && !Holds(s, h, p)
    requires forall k, q :: Holds(t, k, q) <==> Holds(s, k, q) || (k == h && q == p)
    ensures !Conserved(t)
  {
    var k :| Holds(s, k, p);
    assert Holds(t, k, p) && Holds(t, h, p);
  }

  /** A port may pass from one holder to another. */
  lemma PassingOnConserves(s: State, t: State, h: Holder, h': Holder, p: int)
    requires Conserved(s) && Holds(s, h, p) && t.book == s.book && h' != h
    requires forall k, q :: Holds(t, k, q) <==> (Holds(s, k, q) && k != h) || (k == h' && q == p)
    ensures Conserved(t)
  {
    forall q | q in t.book.used ensures exists k :: Holds(t, k, q) {
      if q == p {
        assert Holds(t, h', p);
      } else {
        var k :| Holds(s, k, q);
        assert Holds(t, k, q);
      }
    }
  }

  /** A holder that leaves takes its port out of use, or breaks the books. */
  lemma LeavingConserves(s: State, t: State, h: Holder, p: int)
    requires Conserved(s) && Holds(s, h, p) && t.book.used.Keys == s.book.used.Keys - {p}
    requires forall k, q :: Holds(t, k, q) <==> Holds(s, k, q) && k != h
    ensures Conserved(t)
  {
    forall q | q in t.book.used ensures exists k :: Holds(t, k, q) {
      var k :| Holds(s, k, q);
      assert Holds(t, k, q);
    }
  }

  lemma VanishingBreaks(s: State, t: State, h: Holder, p: int)
    requires Conserved(s) && Holds(s, h, p) && t.book == s.book
    requires forall k, q :: Holds(t, k, q) <==> Holds(s, k, q) && k != h
    ensures !Conserved(t)
  {
    assert p in t.book.used;
    forall k ensures !Holds(t, k, p) {
    }
  }

  // ---- each step ----

  /** The port that a request is granted is held by its flight from now on. */
  ghost predicate Granted(s: State, t: State, granted: Option<int>) {
    forall h, q :: Holds(t, h, q) <==> Holds(s, h, q) || (granted == Some(q) && h == InFlight(s.next))
  }

  lemma FlightAdded(s: State, t: State, granted: Option<int>, f: Flight)
    requires s.next !in s.flights && t.solo == s.solo
    requires t.groups == s.groups || exists g :: t.groups == s.groups[g := GroupOf(s, g)]
    requires t.flights == if granted.Some? then s.flights[s.next := f] else s.flights
    requires granted.Some? ==> f.port == granted.value
    ensures Granted(s, t, granted)
  {
  }

  lemma AcquireSoloConservesIff(s: State, allowed: set<int>, e: Event)
    requires Inv(s, allowed) && e.AcquireSolo? && Listed(s, e)
    ensures Conserved(Step(s, e)) <==> !Clash(s, e.name, e.port, e.probe) && !LosesZero(s, e.name, e.port, e.probe)
  {
    var granted := GrantOf(s, e.name, e.port, e.probe);
    GrantIsFreeIff(s, allowed, e.name, e.port, e.probe);
    FlightAdded(s, Step(s, e), granted, OpeningSolo(if granted.Some? then granted.value else 0));
    GrantConservesIff(s, allowed, Step(s, e), e.name, e.port, e.probe);
  }

  lemma AcquireGroupConservesIff(s: State, allowed: set<int>, e: Event)
    requires Inv(s, allowed) && e.AcquireGroup? && Enabled(s, e) && Listed(s, e)
    ensures Conserved(Step(s, e)) <==>
      !Clash(s, e.name, e.asked.port, e.probe) && !LosesZero(s, e.name, e.asked.port, e.probe)
  {
    var granted := GrantOf(s, e.name, e.asked.port, e.probe);
    GrantIsFreeIff(s, allowed, e.name, e.asked.port, e.probe);
    FlightAdded(s, Step(s, e), granted, OpeningGroup(if granted.Some? then granted.value else 0, e.asked));
    GrantConservesIff(s, allowed, Step(s, e), e.name, e.asked.port, e.probe);
  }

  lemma GrantConservesIff(s: State, allowed: set<int>, t: State, name: B.Name, port: int, probe: Probe)
    requires Inv(s, allowed) && B.Lists(s.book, probe.order)
    requires t.book == Acquired(s, name, port, probe) && Granted(s, t, GrantOf(s, name, port, probe))
    ensures Conserved(t) <==> !Clash(s, name, port, probe) && !LosesZero(s, name, port, probe)
  {
    GrantIsFreeIff(s, allowed, name, port, probe);
    var k := Decision(s, name, port, probe).0;
    if k.None? {
      SameHoldersConserve(s, t);
    } else if LosesZero(s, name, port, probe) {
      assert 0 in t.book.used;
      forall h ensures !Holds(t, h, 0) {
        assert 0 !in s.book.used;
      }
    } else if Clash(s, name, port, probe) {
      SecondHolderBreaks(s, t, InFlight(s.next), k.value);
    } else {
      NewHolderConserves(s, t, InFlight(s.next), k.value);
    }
  }

  lemma ListenSoloConserves(s: State, allowed: set<int>, id: nat, listenOk: bool)
    requires Inv(s, allowed) && Enabled(s, ListenSolo(id, listenOk))
    ensures Conserved(StepListenSolo(s, id, listenOk))
  {
    var t := StepListenSolo(s, id, listenOk);
    if listenOk {
      PassingOnConserves(s, t, InFlight(id), SoloProxy(id), s.flights[id].port);
    } else {
      SameHoldersConserve(s, t);
    }
  }

  lemma UnlistenSoloConserves(s: State, allowed: set<int>, id: nat)
    requires Inv(s, allowed) && Enabled(s, UnlistenSolo(id))
    ensures Conserved(Step(s, UnlistenSolo(id)))
  {
    PassingOnConserves(s, Step(s, UnlistenSolo(id)), SoloProxy(id), InFlight(id), s.solo[id]);
  }

  /** The first listen of a group keeps the books exactly when it succeeds: a port whose
      listen failed stays in use without a holder. */
  lemma ListenGroupConservesIff(s: State, allowed: set<int>, id: nat, listenOk: bool, osPort: int)
    requires Inv(s, allowed) && Enabled(s, ListenGroup(id, listenOk, osPort))
    ensures Conserved(StepListenGroup(s, id, listenOk, osPort)) <==> listenOk
  {
    var t := StepListenGroup(s, id, listenOk, osPort);
    var (p, g) := (s.flights[id].port, s.flights[id].asked.group);
    assert Locks(s.flights[id], g);
    if listenOk {
      PassingOnConserves(s, t, InFlight(id), GroupHolder(g), p);
    } else {
      VanishingBreaks(s, t, InFlight(id), p);
    }
  }

  lemma JoinGroupConserves(s: State, allowed: set<int>, j: Joined)
    requires Inv(s, allowed) && Enabled(s, JoinGroup(j))
    ensures Conserved(StepJoinGroup(s, j))
  {
    SameHoldersConserve(s, StepJoinGroup(s, j));
  }

  lemma LeaveGroupConserves(s: State, allowed: set<int>, id: nat)
    requires Inv(s, allowed) && Enabled(s, LeaveGroup(id))
    ensures Conserved(StepLeaveGroup(s, id))
  {
    var t := StepLeaveGroup(s, id);
    var name := s.grouped[id].group;
    assert Member(s.groups, id, name);
    if t.groups[name].members == [] {
      PassingOnConserves(s, t, GroupHolder(name), InFlight(id), s.groups[name].realPort);
    } else {
      SameHoldersConserve(s, t);
    }
  }

  lemma ReleaseConserves(s: State, allowed: set<int>, id: nat, now: int)
    requires Inv(s, allowed) && Enabled(s, Release(id, now))
    ensures Conserved(StepRelease(s, id, now))
  {
    var f := s.flights[id];
    assert Holds(s, InFlight(id), f.port);
    assert f.ClosingGroup? ==> Locks(f, f.group);
    LeavingConserves(s, StepRelease(s, id, now), InFlight(id), f.port);
  }

  /** What a step must meet for the books to stay right. */
  ghost predicate StepOk(s: State, e: Event) {
    && (Acquires(e) ==> !Clash(s, e.name, PortOf(e), e.probe) && !LosesZero(s, e.name, PortOf(e), e.probe))
    && (e.ListenGroup? ==> e.listenOk)
  }

  /** A step keeps the ports conserved if and only if it is no request that clashes or
      loses port 0, and no first listen of a group that fails. */
  lemma StepKeepsInvIff(s: State, allowed: set<int>, e: Event)
    requires Inv(s, allowed) && Enabled(s, e) && Listed(s, e)
    ensures Conserved(Step(s, e)) <==> StepOk(s, e)
    ensures Inv(Step(s, e), allowed) <==> StepOk(s, e)
  {
    StepKeepsSane(s, allowed, e);
    match e {
      case AcquireSolo(_, _, _) => AcquireSoloConservesIff(s, allowed, e);
      case ListenSolo(id, listenOk) => ListenSoloConserves(s, allowed, id, listenOk);
      case UnlistenSolo(id) => UnlistenSoloConserves(s, allowed, id);
      case AcquireGroup(_, _, _) => AcquireGroupConservesIff(s, allowed, e);
      case ListenGroup(id, listenOk, osPort) => ListenGroupConservesIff(s, allowed, id, listenOk, osPort);
      case JoinGroup(j) => JoinGroupConserves(s, allowed, j);
      case LeaveGroup(id) => LeaveGroupConserves(s, allowed, id);
      case Release(id, now) => ReleaseConserves(s, allowed, id, now);
      case CleanUp(now) => SameHoldersConserve(s, Step(s, e));
    }
  }

  // ---- runs ----

  ghost predicate Run(s: State, es: seq<Event>, t: State)
    decreases |es|
  {
    if es == [] then s == t else Enabled(s, es[0]) && Listed(s, es[0]) && Run(Step(s, es[0]), es[1..], t)
  }

  ghost predicate AllStepsOk(s: State, es: seq<Event>)
    decreases |es|
  {
    es != [] && Enabled(s, es[0]) ==> StepOk(s, es[0]) && AllStepsOk(Step(s, es[0]), es[1..])
  }

  ghost predicate AlwaysConserved(s: State, es: seq<Event>)
    decreases |es|
  {
    Conserved(s) && (es != [] && Enabled(s, es[0]) ==> AlwaysConserved(Step(s, es[0]), es[1..]))
  }

  /** Whatever the probes report, whatever is allowed, and however the steps of different
      proxies interleave: the ports are conserved all along a run if and only if every step
      meets its condition. */
  lemma {:induction false} RunConservesIff(s: State, allowed: set<int>, es: seq<Event>, t: State)
    requires Inv(s, allowed) && Run(s, es, t)
    ensures AlwaysConserved(s, es) <==> AllStepsOk(s, es)
    ensures AllStepsOk(s, es) ==> Inv(t, allowed)
    decreases |es|
  {
    if es != [] {
      StepKeepsInvIff(s, allowed, es[0]);
      if StepOk(s, es[0]) {
        RunConservesIff(Step(s, es[0]), allowed, es[1..], t);
      }
    }
  }

  lemma {:induction false} RunKeepsSane(s: State, allowed: set<int>, es: seq<Event>, t: State)
    requires Sane(s, allowed) && Run(s, es, t)
    ensures Sane(t, allowed)
    decreases |es|
  {
    if es != [] {
      StepKeepsSane(s, allowed, es[0]);
      RunKeepsSane(Step(s, es[0]), allowed, es[1..], t);
    }
  }

  function Init(allowed: set<int>): State {
    State(B.Fresh(allowed), map[], map[], map[], map[], {}, 0)
  }

  // ---- groups ----

  /** A group that asked for a certain port has that one and listens on it. */
  ghost predicate GroupAsAsked(s: State, g: string) {
    Active(s, g) && s.groups[g].port != 0 ==> s.groups[g].realPort == s.groups[g].port == s.groups[g].listens
  }

  ghost predicate FlightAsAsked(s: State, id: nat) {
    id in s.flights && s.flights[id].OpeningGroup? && s.flights[id].asked.port != 0 ==>
      s.flights[id].port == s.flights[id].asked.port
  }

  ghost predicate AsAsked(s: State) {
    (forall g :: GroupAsAsked(s, g)) && forall id: nat :: FlightAsAsked(s, id)
  }

  lemma FlightStaysAsAsked(s: State, e: Event, id: nat)
    requires Enabled(s, e) && FlightAsAsked(s, id)
    ensures FlightAsAsked(Step(s, e), id)
  {
  }

  lemma GroupStaysAsAsked(s: State, e: Event, g: string)
    requires Enabled(s, e) && GroupAsAsked(s, g) && (e.ListenGroup? ==> FlightAsAsked(s, e.id))
    ensures GroupAsAsked(Step(s, e), g)
  {
  }

  lemma StepKeepsAsAsked(s: State, e: Event)
    requires AsAsked(s) && Enabled(s, e)
    ensures AsAsked(Step(s, e))
  {
    forall g ensures GroupAsAsked(Step(s, e), g) {
      GroupStaysAsAsked(s, e, g);
    }
    forall id: nat ensures FlightAsAsked(Step(s, e), id) {
      FlightStaysAsAsked(s, e, id);
    }
  }

  lemma {:induction false} RunKeepsAsAsked(s: State, es: seq<Event>, t: State)
    requires AsAsked(s) && Run(s, es, t)
    ensures AsAsked(t)
    decreases |es|
  {
    if es != [] {
      StepKeepsAsAsked(s, es[0]);
      RunKeepsAsAsked(Step(s, es[0]), es[1..], t);
    }
  }

  /** In every run, a group that asked for a certain port listens on the port it has counted. */
  lemma GroupsListenWhereCounted(allowed: set<int>, es: seq<Event>, s: State, g: string)
    requires Run(Init(allowed), es, s)
    requires Active(s, g) && s.groups[g].port != 0
    ensures s.groups[g].listens == s.groups[g].realPort == s.groups[g].port
  {
    RunKeepsAsAsked(Init(allowed), es, s);
    assert GroupAsAsked(s, g);
  }

  /** In every run, a new group counts the port it was granted, and listens there if and only
      if it asked for a certain port or the operating system chose the granted one. */
  lemma NewGroupMatchesIff(allowed: set<int>, es: seq<Event>, s: State, id: nat, osPort: int)
    requires Run(Init(allowed), es, s) && Enabled(s, ListenGroup(id, true, osPort))
    ensures
      var (t, f) := (Step(s, ListenGroup(id, true, osPort)), s.flights[id]);
      var g := f.asked.group;
      && Active(t, g) && t.groups[g].realPort == f.port && Member(t.groups, id, g)
      && (t.groups[g].listens == f.port <==> f.asked.port != 0 || osPort == f.port)
  {
    RunKeepsAsAsked(Init(allowed), es, s);
    assert FlightAsAsked(s, id);
  }

  /** What a member asked for is what its group has. */
  ghost predicate RequestFits(groups: map<string, Group>, j: Joined) {
    j.group in groups &&
    var g := groups[j.group];
    g.groupKey == j.groupKey && g.addr == j.addr && g.port == j.port
  }

  ghost predicate MembersAgree(s: State) {
    Orderly(s) && forall id :: id in s.grouped ==> RequestFits(s.groups, s.grouped[id])
  }

  /** A group with members keeps what they asked for as long as it has members. */
  lemma RequestStays(s: State, e: Event, j: Joined)
    requires Orderly(s) && Enabled(s, e) && RequestFits(s.groups, j) && Active(s, j.group)
    requires Active(Step(s, e), j.group)
    ensures RequestFits(Step(s, e).groups, j)
  {
    if e.ListenGroup? {
      assert Locks(s.flights[e.id], s.flights[e.id].asked.group);
    }
  }

  lemma RequestStarts(s: State, e: Event, id: nat)
    requires Enabled(s, e) && id !in s.grouped && id in Step(s, e).grouped
    ensures RequestFits(Step(s, e).groups, Step(s, e).grouped[id])
  {
  }

  lemma RequestIsKept(s: State, e: Event, id: nat)
    requires Enabled(s, e) && id in s.grouped && id in Step(s, e).grouped
    ensures !e.ListenGroup? ==> Step(s, e).grouped[id] == s.grouped[id] || id == s.next
    ensures e.ListenGroup? && id != e.id ==> Step(s, e).grouped[id] == s.grouped[id]
  {
  }

  lemma StepKeepsAgreement(s: State, e: Event)
    requires MembersAgree(s) && Enabled(s, e)
    ensures MembersAgree(Step(s, e))
  {
    var t := Step(s, e);
    StepKeepsOrder(s, e);
    forall id | id in t.grouped ensures RequestFits(t.groups, t.grouped[id]) {
      assert Member(t.groups, id, t.grouped[id].group);
      if id in s.grouped {
        assert Member(s.groups, id, s.grouped[id].group);
        RequestIsKept(s, e, id);
        RequestStays(s, e, s.grouped[id]);
      } else {
        RequestStarts(s, e, id);
      }
    }
  }

  lemma {:induction false} RunKeepsAgreement(s: State, es: seq<Event>, t: State)
    requires MembersAgree(s) && Run(s, es, t)
    ensures MembersAgree(t)
    decreases |es|
  {
    if es != [] {
      StepKeepsAgreement(s, es[0]);
      RunKeepsAgreement(Step(s, es[0]), es[1..], t);
    }
  }

  /** In every run, all members of a group have asked for the group, key, address and port
      the group has, and so for the same. */
  lemma MembersShareEverything(allowed: set<int>, es: seq<Event>, s: State, id: nat, g: string)
    requires Run(Init(allowed), es, s) && Member(s.groups, id, g)
    ensures id in s.grouped
    ensures s.grouped[id] == Joined(g, s.groups[g].groupKey, s.groups[g].addr, s.groups[g].port)
  {
    RunKeepsAgreement(Init(allowed), es, s);
    assert RequestFits(s.groups, s.grouped[id]);
  }

  /** In every run, a proxy that finds members in its group joins it if and only if it asks
      for what all of them have asked for; otherwise nothing changes. */
  lemma JoinedIff(allowed: set<int>, es: seq<Event>, s: State, j: Joined)
    requires Run(Init(allowed), es, s) && Enabled(s, JoinGroup(j))
    ensures
      var (t, agrees) := (StepJoinGroup(s, j), forall id :: Member(s.groups, id, j.group) ==>
        id in s.grouped && s.grouped[id] == j);
      && (Member(t.groups, s.next, j.group) <==> agrees) && (s.next in t.grouped <==> agrees)
      && (agrees ==> t.grouped[s.next] == j) && (!agrees ==> t == s)
  {
    RunKeepsAgreement(Init(allowed), es, s);
    var g := s.groups[j.group];
    var m := g.members[0];
    assert Member(s.groups, m, j.group) && RequestFits(s.groups, s.grouped[m]);
    assert !Member(s.groups, s.next, j.group);
    forall id | Member(s.groups, id, j.group) ensures RequestFits(s.groups, s.grouped[id]) {
    }
  }

  predicate ClosesLast(s: State, e: Event, g: string) {
    e.LeaveGroup? && g in s.groups && s.groups[g].members == [e.id] && e.id in s.grouped && s.grouped[e.id].group == g
  }

  /** Two states give a group the same fields, whoever its members are. */
  predicate SameFields(s: State, t: State, g: string) {
    Active(s, g) && Active(t, g) && t.groups[g].(members := []) == s.groups[g].(members := [])
  }

  lemma LeavingKeepsFieldsIff(s: State, id: nat, g: string)
    requires Orderly(s) && Enabled(s, LeaveGroup(id)) && Active(s, g)
    ensures SameFields(s, StepLeaveGroup(s, id), g) <==> !ClosesLast(s, LeaveGroup(id), g)
    ensures Active(StepLeaveGroup(s, id), g) <==> !ClosesLast(s, LeaveGroup(id), g)
  {
    var name := s.grouped[id].group;
    assert Member(s.groups, id, name);
    RemoveFirstHas(s.groups[name].members, id);
    if s.groups[name].members != [id] {
      OtherMember(s.groups[name].members, id);
    }
  }

  /** Whatever the probes report: a group keeps its fields exactly until its last member
      closes. */
  lemma GroupKeepsFieldsIff(s: State, e: Event, g: string)
    requires Orderly(s) && Enabled(s, e) && Active(s, g)
    ensures SameFields(s, Step(s, e), g) <==> !ClosesLast(s, e, g)
    ensures Active(Step(s, e), g) <==> !ClosesLast(s, e, g)
  {
    match e
    case LeaveGroup(id) => LeavingKeepsFieldsIff(s, id, g);
    case ListenGroup(id, _, _) => assert Locks(s.flights[id], s.flights[id].asked.group);
    case Release(id, _) => assert s.flights[id].ClosingGroup? ==> Locks(s.flights[id], s.flights[id].group);
    case _ =>
  }

  lemma OtherMember(ms: seq<nat>, id: nat)
    requires Distinct(ms) && id in ms && ms != [id]
    ensures exists m :: m in ms && m != id
  {
    if |ms| >= 2 {
      assert ms[0] != ms[1] && ms[0] in ms && ms[1] in ms;
    }
  }

  ghost predicate NeverClosesLast(s: State, es: seq<Event>, g: string)
    decreases |es|
  {
    es != [] && Enabled(s, es[0]) ==> !ClosesLast(s, es[0], g) && NeverClosesLast(Step(s, es[0]), es[1..], g)
  }

  ghost predicate AlwaysActive(s: State, es: seq<Event>, g: string)
    decreases |es|
  {
    Active(s, g) && (es != [] && Enabled(s, es[0]) ==> AlwaysActive(Step(s, es[0]), es[1..], g))
  }

  /** Over every run, with any probes: a group has members all along, and then the same
      fields in the end, if and only if its last member never closes. */
  lemma {:induction false} RunKeepsFields(s: State, es: seq<Event>, t: State, g: string)
    requires Orderly(s) && Run(s, es, t) && Active(s, g)
    ensures AlwaysActive(s, es, g) <==> NeverClosesLast(s, es, g)
    ensures NeverClosesLast(s, es, g) ==> SameFields(s, t, g)
    decreases |es|
  {
    if es != [] {
      GroupKeepsFieldsIff(s, es[0], g);
      if !ClosesLast(s, es[0], g) {
        StepKeepsOrder(s, es[0]);
        RunKeepsFields(Step(s, es[0]), es[1..], t, g);
      }
    }
  }

  /** The step gives the port back. */
  predicate Frees(s: State, e: Event, p: int) {
    e.Release? && e.id in s.flights && s.flights[e.id].port == p
  }

  /** A port in use stays in use exactly until a step frees it. */
  lemma StaysUsedIff(s: State, e: Event, p: int)
    requires Enabled(s, e) && p in s.book.used
    ensures p in Step(s, e).book.used <==> !Frees(s, e, p)
  {
    match e
    case AcquireSolo(_, _, _) =>
    case AcquireGroup(_, _, _) =>
    case _ =>
  }

  ghost predicate NeverFrees(s: State, es: seq<Event>, p: int)
    decreases |es|
  {
    es != [] && Enabled(s, es[0]) ==> !Frees(s, es[0], p) && NeverFrees(Step(s, es[0]), es[1..], p)
  }

  ghost predicate AlwaysUsed(s: State, es: seq<Event>, p: int)
    decreases |es|
  {
    p in s.book.used && (es != [] && Enabled(s, es[0]) ==> AlwaysUsed(Step(s, es[0]), es[1..], p))
  }

  /** Over every run, conserved or not: a port stays in use all along, whoever has it, if
      and only if no step frees it. */
  lemma {:induction false} RunStaysUsedIff(s: State, es: seq<Event>, t: State, p: int)
    requires Run(s, es, t) && p in s.book.used
    ensures AlwaysUsed(s, es, p) <==> NeverFrees(s, es, p)
    decreases |es|
  {
    if es != [] {
      StaysUsedIff(s, es[0], p);
      if !Frees(s, es[0], p) {
        RunStaysUsedIff(Step(s, es[0]), es[1..], t, p);
      }
    }
  }

  /** In a state whose ports are conserved no step frees the port of a group with members. */
  lemma ConservedGroupKeepsPort(s: State, e: Event, g: string)
    requires Conserved(s) && Enabled(s, e) && Active(s, g)
    ensures !Frees(s, e, s.groups[g].realPort) && s.groups[g].realPort in Step(s, e).book.used
  {
    var p := s.groups[g].realPort;
    assert Holds(s, GroupHolder(g), p);
    if e.Release? {
      assert Holds(s, InFlight(e.id), s.flights[e.id].port);
    }
    StaysUsedIff(s, e, p);
  }

  /** Over every run whose steps meet their condition, a group keeps its port, and the port
      stays in use, while members stay. */
  lemma {:induction false} GroupKeepsPort(s: State, allowed: set<int>, es: seq<Event>, t: State, g: string)
    requires Inv(s, allowed) && Run(s, es, t) && AllStepsOk(s, es) && NeverClosesLast(s, es, g) && Active(s, g)
    ensures SameFields(s, t, g) && AlwaysUsed(s, es, s.groups[g].realPort)
    decreases |es|
  {
    assert Holds(s, GroupHolder(g), s.groups[g].realPort);
    if es != [] {
      GroupKeepsFieldsIff(s, es[0], g);
      StepKeepsInvIff(s, allowed, es[0]);
      GroupKeepsPort(Step(s, es[0]), allowed, es[1..], t, g);
    }
  }

  /** The last member of a group closes, and before it gives the port back only others act:
      then the port is free, nobody holds it, and the group is gone. */
  lemma LastCloseGivesBack(s: State, allowed: set<int>, g: string, id: nat, es: seq<Event>, t: State, now: int)
    requires Inv(s, allowed) && Enabled(s, LeaveGroup(id)) && ClosesLast(s, LeaveGroup(id), g)
    requires Run(Step(s, LeaveGroup(id)), es, t) && AllStepsOk(Step(s, LeaveGroup(id)), es)
    requires forall k :: 0 <= k < |es| ==> !(es[k].Release? && es[k].id == id)
    ensures Enabled(t, Release(id, now))
    ensures
      var (u, p) := (Step(t, Release(id, now)), s.groups[g].realPort);
      p in u.book.free && g !in u.groups && forall h :: !Holds(u, h, p)
  {
    var (c, p) := (Step(s, LeaveGroup(id)), s.groups[g].realPort);
    LeaveGroupConserves(s, allowed, id);
    StepKeepsSane(s, allowed, LeaveGroup(id));
    FlightStays(c, es, t, id);
    RunConservesIff(c, allowed, es, t);
    ReleaseConserves(t, allowed, id, now);
    assert Holds(t, InFlight(id), p);
  }

  predicate GoingBack(s: State, id: nat, f: Flight) {
    id in s.flights && s.flights[id] == f && (f.Returning? || f.ClosingGroup?)
  }

  lemma FlightIsKept(s: State, e: Event, id: nat, f: Flight)
    requires Orderly(s) && Enabled(s, e) && GoingBack(s, id, f) && !(e.Release? && e.id == id)
    ensures GoingBack(Step(s, e), id, f)
  {
    match e
    case AcquireSolo(_, _, _) =>
    case AcquireGroup(_, _, _) =>
    case _ =>
  }

  /** A port on its way back stays so until its proxy gives it back. */
  lemma {:induction false} FlightStays(s: State, es: seq<Event>, t: State, id: nat)
    requires Orderly(s) && Run(s, es, t) && id in s.flights && GoingBack(s, id, s.flights[id])
    requires forall k :: 0 <= k < |es| ==> !(es[k].Release? && es[k].id == id)
    ensures GoingBack(t, id, s.flights[id])
    decreases |es|
  {
    if es != [] {
      StepKeepsOrder(s, es[0]);
      FlightIsKept(s, es[0], id, s.flights[id]);
      FlightStays(Step(s, es[0]), es[1..], t, id);
    }
  }
}
