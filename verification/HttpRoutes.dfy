/** HTTP routes and their owners: load-balancing groups and ungrouped proxies share one
    routing table. */
module HttpRoutes {
  import opened Base
  import opened Text
  import V = VhostRouter

  type Name = string

  datatype Owner = GroupRoute(group: string) | ProxyRoute(id: nat)

  /** Domain, location and user are those of the group's route; they stay blank until
      the first member has registered it. */
  datatype Group = Group(group: string, groupKey: string, domain: string, location: string, user: string,
                         createFuncs: map<Name, nat>, pxyNames: seq<Name>, index: nat)

  const BLANK := Group("", "", "", "", "", map[], [], 0)

  /** A member's place in its group. */
  datatype Seat = Seat(group: string, pxy: Name)

  /** `asked` keeps the request of every member. */
  datatype State = State(
    groups: map<string, Group>,
    routes: imap<V.Key, Owner>,
    direct: map<nat, V.Key>,
    next: nat,
    asked: map<Seat, Event>)

  datatype Event =
    | Register(pxy: Name, fn: nat, group: string, groupKey: string, domain: string, location: string, user: string)
    | UnRegister(pxy: Name, group: string)
    | RegisterDirect(domain: string, location: string, user: string)
    | UnRegisterDirect(id: nat)
    | Choose(group: string)

  function RouteKey(domain: string, location: string, user: string): V.Key {
    V.Key(ToLower(domain), user, location)
  }

  function KeyOf(g: Group): V.Key {
    RouteKey(g.domain, g.location, g.user)
  }

  function GroupOf(groups: map<string, Group>, name: string): Group {
    if name in groups then groups[name] else BLANK
  }

  function WithMember(g: Group, pxy: Name, fn: nat): Group {
    g.(createFuncs := g.createFuncs[pxy := fn], pxyNames := g.pxyNames + [pxy])
  }

  function WithoutMember(g: Group, pxy: Name): Group {
    g.(createFuncs := g.createFuncs - {pxy}, pxyNames := RemoveFirst(g.pxyNames, pxy))
  }

  datatype Outcome = Registered | RouterConfigConflict | GroupParamsInvalid | GroupAuthFailed | ProxyRepeated

  /** The first member needs the route, a later one the same parameters and key. */
  function Answer(g: Group, taken: bool, e: Event): Outcome
    requires e.Register?
  {
    if |g.createFuncs| == 0 then if taken then RouterConfigConflict else Registered
    else if g.group != e.group || g.domain != e.domain || g.location != e.location || g.user != e.user then
      GroupParamsInvalid
    else if g.groupKey != e.groupKey then GroupAuthFailed
    else if e.pxy in g.createFuncs then ProxyRepeated
    else Registered
  }

  /** The group after the first member brought its parameters along. */
  function Configured(g: Group, e: Event): Group
    requires e.Register?
  {
    if |g.createFuncs| == 0 then
      g.(group := e.group, groupKey := e.groupKey, domain := e.domain, location := e.location, user := e.user)
    else g
  }

  /** Close functions exist only for members and for routes that were registered. */
  ghost predicate Enabled(s: State, e: Event) {
    match e
    case UnRegister(pxy, group) => group in s.groups && pxy in s.groups[group].createFuncs
    case UnRegisterDirect(id) => id in s.direct
    case Choose(group) => group in s.groups
    case _ => true
  }

  function EventKey(e: Event): V.Key
    requires e.Register?
  {
    RouteKey(e.domain, e.location, e.user)
  }

  /** The group after a proxy asked to join; a refusal leaves it alone. */
  function Admit(g: Group, taken: bool, e: Event): Group
    requires e.Register?
  {
    if Answer(g, taken, e) == Registered then WithMember(Configured(g, e), e.pxy, e.fn) else g
  }

  /** Only a first member changes the routes. */
  ghost function Claim(routes: imap<V.Key, Owner>, g: Group, e: Event): imap<V.Key, Owner>
    requires e.Register?
  {
    if |g.createFuncs| == 0 && EventKey(e) !in routes then routes[EventKey(e) := GroupRoute(e.group)] else routes
  }

  ghost function RegisterIn(groups: map<string, Group>, routes: imap<V.Key, Owner>, e: Event)
    : (map<string, Group>, imap<V.Key, Owner>)
    requires e.Register?
  {
    var g := GroupOf(groups, e.group);
    (groups[e.group := Admit(g, EventKey(e) in routes, e)], Claim(routes, g, e))
  }

  /** The last member takes the group and its route along. */
  ghost function UnRegisterIn(groups: map<string, Group>, routes: imap<V.Key, Owner>, pxy: Name, group: string)
    : (map<string, Group>, imap<V.Key, Owner>)
  {
    if group !in groups then (groups, routes)
    else
      var g := WithoutMember(groups[group], pxy);
      if |g.createFuncs| == 0 then (groups - {group}, routes - {KeyOf(g)}) else (groups[group := g], routes)
  }

  ghost function StepRegister(s: State, e: Event): State
    requires e.Register?
  {
    var (groups, routes) := RegisterIn(s.groups, s.routes, e);
    var registered := Answer(GroupOf(s.groups, e.group), EventKey(e) in s.routes, e) == Registered;
    s.(groups := groups, routes := routes, asked := if registered then s.asked[Seat(e.group, e.pxy) := e] else s.asked)
  }

  ghost function StepUnRegister(s: State, pxy: Name, group: string): State {
    var (groups, routes) := UnRegisterIn(s.groups, s.routes, pxy, group);
    s.(groups := groups, routes := routes, asked := s.asked - {Seat(group, pxy)})
  }

  ghost function Step(s: State, e: Event): State
    requires Enabled(s, e)
  {
    match e
    case Register(_, _, _, _, _, _, _) => StepRegister(s, e)
    case UnRegister(pxy, group) => StepUnRegister(s, pxy, group)
    case RegisterDirect(domain, location, user) =>
      var k := RouteKey(domain, location, user);
      if k in s.routes then s
      else s.(routes := s.routes[k := ProxyRoute(s.next)], direct := s.direct[s.next := k], next := s.next + 1)
    case UnRegisterDirect(id) => s.(routes := s.routes - {s.direct[id]}, direct := s.direct - {id})
    case Choose(group) => s.(groups := s.groups[group := s.groups[group].(index := s.groups[group].index + 1)])
  }

  // ---- what every run keeps ----

  /** The member list is a duplicate-free enumeration of the function map. */
  ghost predicate Enumerates(g: Group) {
    Distinct(g.pxyNames) && forall n :: n in g.pxyNames <==> n in g.createFuncs
  }

  /** A group with members owns its route. */
  ghost predicate GroupFits(groups: map<string, Group>, routes: imap<V.Key, Owner>, name: string) {
    name in groups ==>
      var g := groups[name];
      && Enumerates(g)
      && (|g.createFuncs| != 0 ==> g.group == name && KeyOf(g) in routes && routes[KeyOf(g)] == GroupRoute(name))
  }

  /** The owner of a route is a group with members or an ungrouped proxy. */
  ghost predicate Owns(groups: map<string, Group>, direct: map<nat, V.Key>, o: Owner, k: V.Key) {
    match o
    case GroupRoute(name) => name in groups && |groups[name].createFuncs| != 0 && KeyOf(groups[name]) == k
    case ProxyRoute(id) => id in direct && direct[id] == k
  }

  ghost predicate GroupsFit(s: State) {
    forall name :: GroupFits(s.groups, s.routes, name)
  }

  ghost predicate RoutesFit(s: State) {
    forall k :: k in s.routes ==> Owns(s.groups, s.direct, s.routes[k], k)
  }

  ghost predicate DirectFits(s: State) {
    forall id :: id in s.direct ==> id < s.next && s.direct[id] in s.routes && s.routes[s.direct[id]] == ProxyRoute(id)
  }

  ghost predicate Inv(s: State) {
    GroupsFit(s) && RoutesFit(s) && DirectFits(s)
  }

  lemma WithMemberEnumerates(g: Group, pxy: Name, fn: nat)
    requires Enumerates(g) && pxy !in g.createFuncs
    ensures Enumerates(WithMember(g, pxy, fn)) && |WithMember(g, pxy, fn).createFuncs| != 0
  {
    assert pxy in WithMember(g, pxy, fn).createFuncs;
  }

  lemma WithoutMemberEnumerates(g: Group, pxy: Name)
    requires Enumerates(g)
    ensures Enumerates(WithoutMember(g, pxy)) && KeyOf(WithoutMember(g, pxy)) == KeyOf(g)
  {
    RemoveFirstHas(g.pxyNames, pxy);
  }

  /** A group without members takes a route nobody owns. */
  lemma NewRouteKeepsInv(s: State, t: State, group: string, g: Group)
    requires Inv(s) && |GroupOf(s.groups, group).createFuncs| == 0 && KeyOf(g) !in s.routes
    requires Enumerates(g) && |g.createFuncs| != 0 && g.group == group
    requires t == s.(groups := s.groups[group := g], routes := s.routes[KeyOf(g) := GroupRoute(group)], asked := t.asked)
    ensures Inv(t)
  {
    forall name ensures GroupFits(t.groups, t.routes, name) {
      assert GroupFits(s.groups, s.routes, name);
    }
    forall k | k in t.routes ensures Owns(t.groups, t.direct, t.routes[k], k) {
      assert k in s.routes ==> Owns(s.groups, s.direct, s.routes[k], k);
    }
  }

  /** Replacing a group without members by another changes no route. */
  lemma EmptyGroupKeepsInv(s: State, t: State, group: string)
    requires Inv(s) && |GroupOf(s.groups, group).createFuncs| == 0
    requires t == s.(groups := s.groups[group := GroupOf(s.groups, group)], asked := t.asked)
    ensures Inv(t)
  {
    forall name ensures GroupFits(t.groups, t.routes, name) {
      assert GroupFits(s.groups, s.routes, name);
    }
    forall k | k in t.routes ensures Owns(t.groups, t.direct, t.routes[k], k) {
      assert Owns(s.groups, s.direct, s.routes[k], k);
    }
  }

  /** Replacing a group with members by one with members and the same route. */
  lemma SameRouteKeepsInv(s: State, t: State, group: string, g: Group)
    requires Inv(s) && group in s.groups && |s.groups[group].createFuncs| != 0
    requires Enumerates(g) && |g.createFuncs| != 0 && g.group == group && KeyOf(g) == KeyOf(s.groups[group])
    requires t == s.(groups := s.groups[group := g], asked := t.asked)
    ensures Inv(t)
  {
    assert GroupFits(s.groups, s.routes, group);
    forall name ensures GroupFits(t.groups, t.routes, name) {
      assert GroupFits(s.groups, s.routes, name);
    }
    forall k | k in t.routes ensures Owns(t.groups, t.direct, t.routes[k], k) {
      assert Owns(s.groups, s.direct, s.routes[k], k);
    }
  }

  /** Dropping a group with members together with its route. */
  lemma DropGroupKeepsInv(s: State, t: State, group: string)
    requires Inv(s) && group in s.groups && |s.groups[group].createFuncs| != 0
    requires t == s.(groups := s.groups - {group}, routes := s.routes - {KeyOf(s.groups[group])}, asked := t.asked)
    ensures Inv(t)
  {
    assert GroupFits(s.groups, s.routes, group);
    forall name ensures GroupFits(t.groups, t.routes, name) {
      assert GroupFits(s.groups, s.routes, name);
    }
    forall k | k in t.routes ensures Owns(t.groups, t.direct, t.routes[k], k) {
      assert Owns(s.groups, s.direct, s.routes[k], k);
    }
  }

  lemma RegisterKeepsInv(s: State, e: Event)
    requires Inv(s) && e.Register?
    ensures Inv(StepRegister(s, e))
  {
    var g := GroupOf(s.groups, e.group);
    var t := StepRegister(s, e);
    assert GroupFits(s.groups, s.routes, e.group);
    if Answer(g, EventKey(e) in s.routes, e) != Registered {
      if |g.createFuncs| == 0 {
        EmptyGroupKeepsInv(s, t, e.group);
      } else {
        SameRouteKeepsInv(s, t, e.group, g);
      }
    } else {
      WithMemberEnumerates(Configured(g, e), e.pxy, e.fn);
      if |g.createFuncs| == 0 {
        NewRouteKeepsInv(s, t, e.group, WithMember(Configured(g, e), e.pxy, e.fn));
      } else {
        SameRouteKeepsInv(s, t, e.group, WithMember(g, e.pxy, e.fn));
      }
    }
  }

  lemma UnRegisterKeepsInv(s: State, pxy: Name, group: string)
    requires Inv(s) && Enabled(s, UnRegister(pxy, group))
    ensures Inv(StepUnRegister(s, pxy, group))
  {
    assert GroupFits(s.groups, s.routes, group);
    var g := WithoutMember(s.groups[group], pxy);
    WithoutMemberEnumerates(s.groups[group], pxy);
    if |g.createFuncs| == 0 {
      DropGroupKeepsInv(s, StepUnRegister(s, pxy, group), group);
    } else {
      SameRouteKeepsInv(s, StepUnRegister(s, pxy, group), group, g);
    }
  }

  lemma ChooseKeepsInv(s: State, group: string)
    requires Inv(s) && group in s.groups
    ensures Inv(Step(s, Choose(group)))
  {
    var t := Step(s, Choose(group));
    forall name ensures GroupFits(t.groups, t.routes, name) {
      assert GroupFits(s.groups, s.routes, name);
    }
    forall k | k in t.routes ensures Owns(t.groups, t.direct, t.routes[k], k) {
      assert Owns(s.groups, s.direct, s.routes[k], k);
    }
  }

  lemma RegisterDirectKeepsInv(s: State, e: Event)
    requires Inv(s) && e.RegisterDirect?
    ensures Inv(Step(s, e))
  {
    var t := Step(s, e);
    forall name ensures GroupFits(t.groups, t.routes, name) {
      assert GroupFits(s.groups, s.routes, name);
    }
    forall k | k in t.routes ensures Owns(t.groups, t.direct, t.routes[k], k) {
      assert k in s.routes ==> Owns(s.groups, s.direct, s.routes[k], k);
    }
  }

  lemma UnRegisterDirectKeepsInv(s: State, id: nat)
    requires Inv(s) && id in s.direct
    ensures Inv(Step(s, UnRegisterDirect(id)))
  {
    var t := Step(s, UnRegisterDirect(id));
    forall name ensures GroupFits(t.groups, t.routes, name) {
      assert GroupFits(s.groups, s.routes, name);
    }
    forall k | k in t.routes ensures Owns(t.groups, t.direct, t.routes[k], k) {
      assert Owns(s.groups, s.direct, s.routes[k], k);
    }
  }

  lemma StepKeepsInv(s: State, e: Event)
    requires Inv(s) && Enabled(s, e)
    ensures Inv(Step(s, e))
  {
    match e {
      case Register(_, _, _, _, _, _, _) => RegisterKeepsInv(s, e);
      case UnRegister(pxy, group) => UnRegisterKeepsInv(s, pxy, group);
      case Choose(group) => ChooseKeepsInv(s, group);
      case RegisterDirect(_, _, _) => RegisterDirectKeepsInv(s, e);
      case UnRegisterDirect(id) => UnRegisterDirectKeepsInv(s, id);
    }
  }

  ghost predicate Run(s: State, es: seq<Event>, t: State)
    decreases |es|
  {
    if es == [] then s == t else Enabled(s, es[0]) && Run(Step(s, es[0]), es[1..], t)
  }

  lemma {:induction false} RunKeepsInv(s: State, es: seq<Event>, t: State)
    requires Inv(s) && Run(s, es, t)
    ensures Inv(t)
    decreases |es|
  {
    if es != [] {
      StepKeepsInv(s, es[0]);
      RunKeepsInv(Step(s, es[0]), es[1..], t);
    }
  }

  ghost const INIT := State(map[], imap[], map[], 0, map[])

  ghost predicate Routed(s: State, name: string, k: V.Key) {
    name in s.groups && |s.groups[name].createFuncs| != 0 && KeyOf(s.groups[name]) == k
  }

  ghost predicate RoutedDirectly(s: State, id: nat, k: V.Key) {
    id in s.direct && s.direct[id] == k
  }

  /** Over every run: the routes are exactly those of the groups with members and of the
      ungrouped proxies, no two owners share one, and every member list enumerates its map. */
  lemma RoutesAreOwned(es: seq<Event>, s: State, k: V.Key)
    requires Run(INIT, es, s)
    ensures k in s.routes <==> (exists name :: Routed(s, name, k)) || (exists id :: RoutedDirectly(s, id, k))
    ensures forall a, b :: Routed(s, a, k) && Routed(s, b, k) ==> a == b
    ensures forall a, b :: RoutedDirectly(s, a, k) && RoutedDirectly(s, b, k) ==> a == b
    ensures forall name, id :: !(Routed(s, name, k) && RoutedDirectly(s, id, k))
    ensures forall name :: name in s.groups ==> Enumerates(s.groups[name])
  {
    RunKeepsInv(INIT, es, s);
    if k in s.routes {
      assert Owns(s.groups, s.direct, s.routes[k], k);
      match s.routes[k] {
        case GroupRoute(name) => assert Routed(s, name, k);
        case ProxyRoute(id) => assert RoutedDirectly(s, id, k);
      }
    }
    forall name | name in s.groups
      ensures Enumerates(s.groups[name]) && (Routed(s, name, k) ==> k in s.routes && s.routes[k] == GroupRoute(name))
    {
      assert GroupFits(s.groups, s.routes, name);
    }
  }

  /** When the last member goes, the group and its route go with it. */
  lemma EmptyGroupGivesUpRoute(es: seq<Event>, s: State, pxy: Name, group: string)
    requires Run(INIT, es, s) && Enabled(s, UnRegister(pxy, group))
    ensures
      var t := Step(s, UnRegister(pxy, group));
      if s.groups[group].createFuncs.Keys == {pxy} then
        group !in t.groups && t.routes == s.routes - {KeyOf(s.groups[group])}
      else
        group in t.groups && t.routes == s.routes && t.groups[group].createFuncs == s.groups[group].createFuncs - {pxy}
  {
    var left := s.groups[group].createFuncs - {pxy};
    assert left.Keys == s.groups[group].createFuncs.Keys - {pxy};
  }

  // ---- what members share ----

  ghost predicate IsMember(groups: map<string, Group>, seat: Seat) {
    seat.group in groups && seat.pxy in groups[seat.group].createFuncs
  }

  /** What a member asked for is what its group has. */
  ghost predicate RequestFits(groups: map<string, Group>, seat: Seat, e: Event) {
    && e.Register? && e.group == seat.group && e.pxy == seat.pxy && IsMember(groups, seat)
    && var g := groups[seat.group];
       g.groupKey == e.groupKey && g.domain == e.domain && g.location == e.location && g.user == e.user
  }

  ghost predicate MembersAgree(s: State) {
    && (forall seat :: seat in s.asked ==> RequestFits(s.groups, seat, s.asked[seat]))
    && (forall seat :: IsMember(s.groups, seat) ==> seat in s.asked)
  }

  lemma RegisterKeepsAgreement(s: State, e: Event)
    requires MembersAgree(s) && e.Register?
    requires forall name :: name in s.groups && s.groups[name].createFuncs != map[] ==> s.groups[name].group == name
    ensures MembersAgree(StepRegister(s, e))
  {
    var t := StepRegister(s, e);
    forall seat | seat in t.asked ensures RequestFits(t.groups, seat, t.asked[seat]) {
      assert seat in s.asked ==> RequestFits(s.groups, seat, s.asked[seat]);
    }
    forall seat | IsMember(t.groups, seat) ensures seat in t.asked {
      assert IsMember(s.groups, seat) || seat == Seat(e.group, e.pxy);
    }
  }

  lemma UnRegisterKeepsAgreement(s: State, pxy: Name, group: string)
    requires MembersAgree(s) && Enabled(s, UnRegister(pxy, group))
    ensures MembersAgree(StepUnRegister(s, pxy, group))
  {
    var t := StepUnRegister(s, pxy, group);
    forall seat | seat in t.asked ensures RequestFits(t.groups, seat, t.asked[seat]) {
      assert RequestFits(s.groups, seat, s.asked[seat]);
    }
    forall seat | IsMember(t.groups, seat) ensures seat in t.asked {
      assert IsMember(s.groups, seat);
    }
  }

  lemma OtherStepKeepsAgreement(s: State, e: Event)
    requires MembersAgree(s) && Enabled(s, e) && !e.Register? && !e.UnRegister?
    ensures MembersAgree(Step(s, e))
  {
    var t := Step(s, e);
    forall seat | seat in t.asked ensures RequestFits(t.groups, seat, t.asked[seat]) {
      assert RequestFits(s.groups, seat, s.asked[seat]);
    }
    forall seat | IsMember(t.groups, seat) ensures seat in t.asked {
      assert IsMember(s.groups, seat);
    }
  }

  lemma {:induction false} RunKeepsAgreement(s: State, es: seq<Event>, t: State)
    requires Inv(s) && MembersAgree(s) && Run(s, es, t)
    ensures MembersAgree(t)
    decreases |es|
  {
    if es != [] {
      StepKeepsInv(s, es[0]);
      match es[0] {
        case Register(_, _, _, _, _, _, _) =>
          forall name | name in s.groups && s.groups[name].createFuncs != map[] ensures s.groups[name].group == name {
            assert GroupFits(s.groups, s.routes, name);
          }
          RegisterKeepsAgreement(s, es[0]);
        case UnRegister(pxy, group) => UnRegisterKeepsAgreement(s, pxy, group);
        case _ => OtherStepKeepsAgreement(s, es[0]);
      }
      RunKeepsAgreement(Step(s, es[0]), es[1..], t);
    }
  }

  /** In every run, all members of a group have asked for the domain, location, user and key
      the group has, and so for the same. */
  lemma MembersShareEverything(es: seq<Event>, s: State, group: string, pxy: Name)
    requires Run(INIT, es, s) && IsMember(s.groups, Seat(group, pxy))
    ensures Seat(group, pxy) in s.asked
    ensures
      var (e, g) := (s.asked[Seat(group, pxy)], s.groups[group]);
      e.Register? && e.group == group && e.pxy == pxy
      && g.groupKey == e.groupKey && g.domain == e.domain && g.location == e.location && g.user == e.user
  {
    RunKeepsAgreement(INIT, es, s);
    assert RequestFits(s.groups, Seat(group, pxy), s.asked[Seat(group, pxy)]);
  }

  // ---- who is admitted ----

  ghost predicate NoMembers(s: State, group: string) {
    forall n :: !IsMember(s.groups, Seat(group, n))
  }

  /** The request agrees with what a member asked for, but for its name and function. */
  predicate SameRoute(a: Event, b: Event)
    requires a.Register? && b.Register?
  {
    a.domain == b.domain && a.location == b.location && a.user == b.user
  }

  /** The request is for the route all present members asked for. */
  ghost predicate JoinsRoute(s: State, e: Event)
    requires e.Register?
  {
    forall n :: IsMember(s.groups, Seat(e.group, n)) ==>
      Seat(e.group, n) in s.asked && s.asked[Seat(e.group, n)].Register? && SameRoute(s.asked[Seat(e.group, n)], e)
  }

  ghost predicate KnowsKey(s: State, e: Event)
    requires e.Register?
  {
    forall n :: IsMember(s.groups, Seat(e.group, n)) ==>
      Seat(e.group, n) in s.asked && s.asked[Seat(e.group, n)].Register?
      && s.asked[Seat(e.group, n)].groupKey == e.groupKey
  }

  lemma EmptyIff<K, X>(m: map<K, X>)
    ensures |m| == 0 <==> forall k :: k !in m
  {
    assert |m| == 0 <==> m.Keys == {};
  }

  lemma NoMembersIff(s: State, group: string)
    ensures NoMembers(s, group) <==> |GroupOf(s.groups, group).createFuncs| == 0
  {
    EmptyIff(GroupOf(s.groups, group).createFuncs);
    if n :| n in GroupOf(s.groups, group).createFuncs {
      assert IsMember(s.groups, Seat(group, n));
    }
    if n :| IsMember(s.groups, Seat(group, n)) {
      assert n in GroupOf(s.groups, group).createFuncs;
    }
  }

  lemma MembersAgreeIff(s: State, e: Event)
    requires Inv(s) && MembersAgree(s) && e.Register? && !NoMembers(s, e.group)
    ensures
      var g := GroupOf(s.groups, e.group);
      && (JoinsRoute(s, e) <==>
          g.group == e.group && g.domain == e.domain && g.location == e.location && g.user == e.user)
      && (KnowsKey(s, e) <==> g.groupKey == e.groupKey)
  {
    var m :| IsMember(s.groups, Seat(e.group, m));
    assert RequestFits(s.groups, Seat(e.group, m), s.asked[Seat(e.group, m)]);
    assert GroupFits(s.groups, s.routes, e.group);
    NoMembersIff(s, e.group);
    forall n | IsMember(s.groups, Seat(e.group, n))
      ensures RequestFits(s.groups, Seat(e.group, n), s.asked[Seat(e.group, n)])
    {
    }
  }

  ghost function AnswerTo(s: State, e: Event): Outcome
    requires e.Register?
  {
    Answer(GroupOf(s.groups, e.group), EventKey(e) in s.routes, e)
  }

  /** Over every run: the first member of a group is admitted if and only if the route is free;
      a later one if and only if it asks for the same route under the same key as the present
      members and no member has its name. Each refusal has its own reason. */
  lemma AdmittedIff(es: seq<Event>, s: State, e: Event)
    requires Run(INIT, es, s) && e.Register?
    ensures
      var (r, first, taken) := (AnswerTo(s, e), NoMembers(s, e.group), EventKey(e) in s.routes);
      var (route, key) := (JoinsRoute(s, e), KnowsKey(s, e));
      var named := IsMember(s.groups, Seat(e.group, e.pxy));
      && (r == Registered <==> if first then !taken else route && key && !named)
      && (r == RouterConfigConflict <==> first && taken)
      && (r == GroupParamsInvalid <==> !first && !route)
      && (r == GroupAuthFailed <==> !first && route && !key)
      && (r == ProxyRepeated <==> !first && route && key && named)
  {
    RunKeepsInv(INIT, es, s);
    RunKeepsAgreement(INIT, es, s);
    NoMembersIff(s, e.group);
    if !NoMembers(s, e.group) {
      MembersAgreeIff(s, e);
    }
  }

  /** Exactly an admitted proxy becomes a member, with its own function; nobody else's
      membership changes. */
  lemma AdmittedBecomesMember(s: State, e: Event, seat: Seat)
    requires e.Register?
    ensures
      var (t, mine) := (StepRegister(s, e), seat == Seat(e.group, e.pxy) && AnswerTo(s, e) == Registered);
      && (IsMember(t.groups, seat) <==> IsMember(s.groups, seat) || mine)
      && (IsMember(t.groups, seat) ==>
          t.groups[seat.group].createFuncs[seat.pxy] ==
            if mine then e.fn else s.groups[seat.group].createFuncs[seat.pxy])
  {
  }

  /** An ungrouped proxy gets its route if and only if nobody owns it. */
  lemma DirectIff(es: seq<Event>, s: State, domain: string, location: string, user: string)
    requires Run(INIT, es, s)
    ensures
      var (t, k) := (Step(s, RegisterDirect(domain, location, user)), RouteKey(domain, location, user));
      var free := (forall name :: !Routed(s, name, k)) && forall id :: !RoutedDirectly(s, id, k);
      && (t.next > s.next <==> free) && (t.next > s.next <==> RoutedDirectly(t, s.next, k))
      && (!free ==> t == s)
  {
    RoutesAreOwned(es, s, RouteKey(domain, location, user));
    RunKeepsInv(INIT, es, s);
  }

  // ---- groups of any size ----

  function Called(i: nat): Name {
    seq(i, _ => 'p')
  }

  function Joining(i: nat): Event {
    Register(Called(i), i, "g", "k", "d", "/", "")
  }

  ghost predicate Filled(s: State, n: nat) {
    && (forall m :: IsMember(s.groups, Seat("g", m)) <==> exists i: nat :: i < n && m == Called(i))
    && (n == 0 ==> s == INIT)
  }

  lemma {:induction false} RunThen(s: State, es: seq<Event>, t: State, e: Event)
    requires Run(s, es, t) && Enabled(t, e)
    ensures Run(s, es + [e], Step(t, e))
    decreases |es|
  {
    if es == [] {
      assert Run(Step(s, e), [], Step(t, e)) && ([] + [e])[1..] == [];
    } else {
      RunThen(Step(s, es[0]), es[1..], t, e);
      assert (es + [e])[1..] == es[1..] + [e];
    }
  }

  /** The members so far have asked for what the next one asks for. */
  ghost predicate AllJoin(s: State) {
    forall m :: IsMember(s.groups, Seat("g", m)) ==>
      Seat("g", m) in s.asked && s.asked[Seat("g", m)].Register?
      && SameRoute(s.asked[Seat("g", m)], Joining(0)) && s.asked[Seat("g", m)].groupKey == "k"
  }

  lemma NextJoins(es: seq<Event>, s: State, n: nat)
    requires Run(INIT, es, s) && Filled(s, n) && AllJoin(s)
    ensures Filled(StepRegister(s, Joining(n)), n + 1) && AllJoin(StepRegister(s, Joining(n)))
  {
    var (e, t) := (Joining(n), StepRegister(s, Joining(n)));
    AdmittedIff(es, s, e);
    if n == 0 {
      assert NoMembers(s, "g");
    } else {
      assert IsMember(s.groups, Seat("g", Called(0)));
    }
    forall i: nat | i < n ensures Called(i) != Called(n) {
      assert |Called(i)| == i && |Called(n)| == n;
    }
    forall m ensures IsMember(t.groups, Seat("g", m)) <==> exists i: nat :: i < n + 1 && m == Called(i) {
      AdmittedBecomesMember(s, e, Seat("g", m));
    }
  }

  lemma OneMoreJoins(es: seq<Event>, s: State, n: nat)
    requires Run(INIT, es, s) && Filled(s, n) && AllJoin(s)
    ensures Run(INIT, es + [Joining(n)], StepRegister(s, Joining(n)))
    ensures Filled(StepRegister(s, Joining(n)), n + 1) && AllJoin(StepRegister(s, Joining(n)))
  {
    NextJoins(es, s, n);
    RunThen(INIT, es, s, Joining(n));
  }

  lemma NobodyYet()
    ensures Run(INIT, [], INIT) && Filled(INIT, 0) && AllJoin(INIT)
  {
  }

  /** For every n there is a run after which a group has exactly n members. */
  lemma {:induction false} GroupOfAnySize(n: nat) returns (es: seq<Event>, s: State)
    ensures Run(INIT, es, s) && Filled(s, n) && AllJoin(s)
  {
    if n == 0 {
      NobodyYet();
      es, s := [], INIT;
    } else {
      var before, u := GroupOfAnySize(n - 1);
      OneMoreJoins(before, u, n - 1);
      es, s := before + [Joining(n - 1)], StepRegister(u, Joining(n - 1));
    }
  }

  // ---- choosing a member ----

  /** The member the next choice takes. */
  function Chosen(g: Group): Name
    requires g.pxyNames != []
  {
    g.pxyNames[(g.index + 1) % |g.pxyNames|]
  }

  /** The member taken by the i-th of several choices in a row. */
  function ChosenAt(g: Group, i: nat): Name
    requires g.pxyNames != []
  {
    Chosen(g.(index := g.index + i))
  }

  predicate Touches(e: Event, group: string) {
    match e
    case Register(_, _, name, _, _, _, _) => name == group
    case UnRegister(_, name) => name == group
    case _ => false
  }

  lemma Untouched(s: State, e: Event, group: string)
    requires Enabled(s, e) && group in s.groups && !Touches(e, group)
    ensures
      var t := Step(s, e);
      group in t.groups
      && t.groups[group] == if e == Choose(group) then s.groups[group].(index := s.groups[group].index + 1)
                            else s.groups[group]
  {
    match e
    case Register(_, _, _, _, _, _, _) =>
      assert group in StepRegister(s, e).groups;
    case UnRegister(_, name) => assert name != group;
    case RegisterDirect(_, _, _) =>
    case UnRegisterDirect(_) =>
    case Choose(_) =>
  }

  /** The members taken by the choices of a group along a run. */
  ghost function Choices(s: State, es: seq<Event>, group: string): seq<Name>
    requires Follows(s, es) && Undisturbed(es, group)
    requires group in s.groups && s.groups[group].pxyNames != []
    decreases |es|
  {
    if es == [] then []
    else
      assert !Touches(es[0], group);
      Untouched(s, es[0], group);
      var rest := Choices(Step(s, es[0]), es[1..], group);
      if es[0] == Choose(group) then [Chosen(s.groups[group])] + rest else rest
  }

  ghost predicate Follows(s: State, es: seq<Event>)
    decreases |es|
  {
    es == [] || (Enabled(s, es[0]) && Follows(Step(s, es[0]), es[1..]))
  }

  /** Nobody joins or leaves the group; other groups and proxies may come and go. */
  ghost predicate Undisturbed(es: seq<Event>, group: string) {
    forall e :: e in es ==> !Touches(e, group)
  }

  lemma NextChosen(g: Group, i: nat)
    requires g.pxyNames != [] && i > 0
    ensures ChosenAt(g.(index := g.index + 1), i - 1) == ChosenAt(g, i)
  {
    assert g.(index := g.index + 1).(index := g.index + 1 + (i - 1)) == g.(index := g.index + i);
  }

  lemma {:induction false} ChoicesInTurn(s: State, es: seq<Event>, group: string, i: nat)
    requires Follows(s, es) && Undisturbed(es, group)
    requires group in s.groups && s.groups[group].pxyNames != []
    requires i < |Choices(s, es, group)|
    ensures Choices(s, es, group)[i] == ChosenAt(s.groups[group], i)
    decreases |es|
  {
    assert !Touches(es[0], group);
    Untouched(s, es[0], group);
    var t := Step(s, es[0]);
    if es[0] != Choose(group) {
      ChoicesInTurn(t, es[1..], group, i);
    } else if i > 0 {
      ChoicesInTurn(t, es[1..], group, i - 1);
      NextChosen(s.groups[group], i);
    }
  }

  lemma ChosenOncePerRound(g: Group, start: nat, n: Name)
    requires Enumerates(g) && n in g.createFuncs
    ensures g.pxyNames != []
    ensures exists i :: start <= i < start + |g.pxyNames| && ChosenAt(g, i) == n
    ensures forall i, j :: start <= i < j < start + |g.pxyNames| ==> ChosenAt(g, i) != ChosenAt(g, j)
  {
    assert n in g.pxyNames;
    var t :| 0 <= t < |g.pxyNames| && g.pxyNames[t] == n;
    var base := g.index + 1 + start;
    OncePerRound(base, |g.pxyNames|, t);
    var k := Turn(base, |g.pxyNames|, t);
    assert ChosenAt(g, k - g.index - 1) == n;
    forall i, j | start <= i < j < start + |g.pxyNames| ensures ChosenAt(g, i) != ChosenAt(g, j) {
      OncePerRound(base, |g.pxyNames|, (g.index + 1 + i) % |g.pxyNames|);
    }
  }

  /** While nobody joins or leaves a group, any n consecutive choices take each of its
      n members exactly once, whatever happens to other groups meanwhile. */
  lemma EachMemberOncePerRound(before: seq<Event>, s: State, es: seq<Event>, group: string, start: nat, n: Name)
    requires Run(INIT, before, s) && Follows(s, es) && Undisturbed(es, group)
    requires group in s.groups && n in s.groups[group].createFuncs
    ensures s.groups[group].pxyNames != []
    ensures
      var picks := Choices(s, es, group);
      var members := |s.groups[group].pxyNames|;
      members == |s.groups[group].createFuncs.Keys|
      && (start + members <= |picks| ==>
        && (exists i :: start <= i < start + members && picks[i] == n)
        && (forall i, j :: start <= i < j < start + members ==> picks[i] != picks[j]))
  {
    RunKeepsInv(INIT, before, s);
    assert GroupFits(s.groups, s.routes, group);
    var g := s.groups[group];
    ChosenOncePerRound(g, start, n);
    NamesAreCounted(g.pxyNames, g.createFuncs.Keys);
    var picks := Choices(s, es, group);
    forall i: nat | i < |picks| ensures picks[i] == ChosenAt(g, i) {
      ChoicesInTurn(s, es, group, i);
    }
  }

  lemma {:induction false} NamesAreCounted(names: seq<Name>, keys: set<Name>)
    requires Distinct(names) && forall n :: n in names <==> n in keys
    ensures |names| == |keys|
  {
    if names == [] {
      assert keys == {};
    } else {
      assert names[0] in keys;
      assert Distinct(names[1..]);
      NamesAreCounted(names[1..], keys - {names[0]});
    }
  }
}
