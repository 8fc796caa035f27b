/** The objects behind HTTP load balancing: a group of proxies that shares one route,
    and the controller that keeps the groups. */
module HttpGroups {
  import opened Base
  import V = VhostRouter
  import R = HttpRoutes

  type RouteTable = V.Routers<R.Owner>

  class HTTPGroup {
    const vhostRouter: RouteTable
    /** The name the controller keeps the group under. */
    ghost const indexKey: string
    var group: string
    var groupKey: string
    var domain: string
    var location: string
    var routeByHTTPUser: string
    var createFuncs: map<R.Name, nat>
    var pxyNames: seq<R.Name>
    var index: nat

    function Value(): R.Group
      reads this
    {
      R.Group(group, groupKey, domain, location, routeByHTTPUser, createFuncs, pxyNames, index)
    }

    constructor (router: RouteTable, ghost indexKey: string)
      ensures vhostRouter == router && this.indexKey == indexKey && Value() == R.BLANK
    {
      vhostRouter := router;
      this.indexKey := indexKey;
      group, groupKey, domain, location, routeByHTTPUser := "", "", "", "", "";
      createFuncs, pxyNames, index := map[], [], 0;
    }

    /** The first member claims the route for the group. */
    method Claim(e: R.Event) returns (ok: bool)
      requires vhostRouter.Valid() && e.Register? && |createFuncs| == 0
      modifies this, vhostRouter
      ensures vhostRouter.Valid()
      ensures ok <==> R.EventKey(e) !in old(vhostRouter.Table())
      ensures Value() == if ok then R.Configured(old(Value()), e) else old(Value())
      ensures vhostRouter.Table() ==
        if ok then old(vhostRouter.Table())[R.EventKey(e) := R.GroupRoute(e.group)] else old(vhostRouter.Table())
    {
      ok := vhostRouter.Add(e.domain, e.location, e.user, R.GroupRoute(e.group));
      if ok {
        Configure(e);
      }
    }

    method Configure(e: R.Event)
      requires e.Register? && |createFuncs| == 0
      modifies this
      ensures Value() == R.Configured(old(Value()), e)
    {
      group, groupKey, domain, location, routeByHTTPUser := e.group, e.groupKey, e.domain, e.location, e.user;
    }

    /** A refused proxy leaves the group and the routes alone. */
    method Register(e: R.Event) returns (r: R.Outcome)
      requires vhostRouter.Valid() && e.Register?
      modifies this, vhostRouter
      ensures vhostRouter.Valid()
      ensures r == R.Answer(old(Value()), R.EventKey(e) in old(vhostRouter.Table()), e)
      ensures Value() == R.Admit(old(Value()), R.EventKey(e) in old(vhostRouter.Table()), e)
      ensures vhostRouter.Table() == R.Claim(old(vhostRouter.Table()), old(Value()), e)
    {
      if |createFuncs| == 0 {
        var ok := Claim(e);
        if !ok {
          return R.RouterConfigConflict;
        }
      } else {
        if group != e.group || domain != e.domain || location != e.location || routeByHTTPUser != e.user {
          return R.GroupParamsInvalid;
        }
        if groupKey != e.groupKey {
          return R.GroupAuthFailed;
        }
      }
      if e.pxy in createFuncs {
        return R.ProxyRepeated;
      }
      createFuncs := createFuncs[e.pxy := e.fn];
      pxyNames := pxyNames + [e.pxy];
      return R.Registered;
    }

    /** The last member takes the route along. */
    method UnRegister(pxy: R.Name) returns (isEmpty: bool)
      requires vhostRouter.Valid()
      modifies this, vhostRouter
      ensures vhostRouter.Valid()
      ensures Value() == R.WithoutMember(old(Value()), pxy)
      ensures isEmpty <==> |old(createFuncs) - {pxy}| == 0
      ensures vhostRouter.Table() ==
        if isEmpty then old(vhostRouter.Table()) - {R.KeyOf(old(Value()))} else old(vhostRouter.Table())
    {
      Forget(pxy);
      if |createFuncs| == 0 {
        vhostRouter.Del(domain, location, routeByHTTPUser);
        return true;
      }
      return false;
    }

    method Forget(pxy: R.Name)
      modifies this
      ensures Value() == R.WithoutMember(old(Value()), pxy)
    {
      createFuncs := createFuncs - {pxy};
      pxyNames := Remaining(pxyNames, pxy);
    }

    static method Remaining(names: seq<R.Name>, pxy: R.Name) returns (left: seq<R.Name>)
      ensures left == RemoveFirst(names, pxy)
    {
      for i := 0 to |names|
        invariant RemoveFirst(names, pxy) == names[..i] + RemoveFirst(names[i..], pxy)
      {
        assert names[i..][1..] == names[i + 1..];
        if names[i] == pxy {
          return names[..i] + names[i + 1..];
        }
      }
      return names;
    }

    /** The endpoint whose turn it is; an empty name counts as none. */
    method ChooseEndpoint() returns (r: Option<R.Name>)
      modifies this`index
      ensures index == old(index) + 1
      ensures r == if pxyNames == [] || R.Chosen(old(Value())) == "" then None else Some(R.Chosen(old(Value())))
    {
      index := index + 1;
      var name := "";
      if |pxyNames| > 0 {
        name := pxyNames[index % |pxyNames|];
      }
      return if name == "" then None else Some(name);
    }

    /** The connection function of the member whose turn it is. */
    method CreateConn() returns (r: Option<nat>)
      requires R.Enumerates(Value())
      modifies this`index
      ensures index == old(index) + 1
      ensures pxyNames == [] ==> r == None
      ensures pxyNames != [] ==> R.Chosen(old(Value())) in createFuncs && r == Some(createFuncs[R.Chosen(old(Value()))])
    {
      index := index + 1;
      if |pxyNames| == 0 {
        return None;
      }
      var name := pxyNames[index % |pxyNames|];
      assert name in pxyNames;
      return Some(createFuncs[name]);
    }

    /** A chosen endpoint can be connected to while it is a member, whoever else came or went. */
    method CreateConnByEndpoint(endpoint: R.Name) returns (r: Option<nat>)
      requires R.Enumerates(Value())
      ensures r.Some? <==> endpoint in pxyNames
      ensures r.Some? ==> endpoint in createFuncs && r.value == createFuncs[endpoint]
    {
      return if endpoint in createFuncs then Some(createFuncs[endpoint]) else None;
    }
  }

  lemma Drops<K, T>(m: map<K, T>, k: K, x: T)
    ensures m[k := x] - {k} == m - {k}
  {
  }

  lemma Overwrites<K, T>(m: map<K, T>, k: K, x: T, y: T)
    ensures m[k := x][k := y] == m[k := y]
  {
  }

  class HTTPGroupController {
    const vhostRouter: RouteTable
    var groups: map<string, HTTPGroup>
    ghost var view: map<string, R.Group>
    ghost var Repr: set<HTTPGroup>

    static ghost predicate Shows(g: HTTPGroup, name: string, value: R.Group, router: RouteTable)
      reads g
    {
      g.Value() == value && g.indexKey == name && g.vhostRouter == router
    }

    ghost predicate Valid()
      reads this, Repr, vhostRouter
    {
      && vhostRouter.Valid() && groups.Keys == view.Keys
      && (forall name :: name in groups ==> groups[name] in Repr && Shows(groups[name], name, view[name], vhostRouter))
    }

    constructor (router: RouteTable)
      requires router.Valid()
      ensures Valid() && vhostRouter == router && view == map[] && Repr == {}
    {
      vhostRouter := router;
      groups, view, Repr := map[], map[], {};
    }

    /** The group of this name, a blank one when there is none yet. */
    method Find(name: string) returns (g: HTTPGroup)
      requires Valid()
      modifies this
      ensures Valid() && name in groups && g == groups[name]
      ensures view == old(view)[name := R.GroupOf(old(view), name)] && vhostRouter.Table() == old(vhostRouter.Table())
      ensures fresh(Repr - old(Repr))
    {
      if name in groups {
        g := groups[name];
      } else {
        g := new HTTPGroup(vhostRouter, name);
        groups := groups[name := g];
        view, Repr := view[name := R.BLANK], Repr + {g};
      }
    }

    /** A proxy asks to join a group the controller has. */
    method Join(e: R.Event) returns (r: R.Outcome)
      requires Valid() && e.Register? && e.group in groups
      modifies this`view, Repr, vhostRouter
      ensures Valid()
      ensures r == R.Answer(old(view)[e.group], R.EventKey(e) in old(vhostRouter.Table()), e)
      ensures view == old(view)[e.group := R.Admit(old(view)[e.group], R.EventKey(e) in old(vhostRouter.Table()), e)]
      ensures vhostRouter.Table() == R.Claim(old(vhostRouter.Table()), old(view)[e.group], e)
    {
      var g := groups[e.group];
      assert Shows(g, e.group, view[e.group], vhostRouter);
      r := g.Register(e);
      view := view[e.group := g.Value()];
      forall n | n in groups ensures groups[n] in Repr && Shows(groups[n], n, view[n], vhostRouter) {
        assert old(Shows(groups[n], n, view[n], vhostRouter));
      }
    }

    method Register(e: R.Event) returns (r: R.Outcome)
      requires Valid() && e.Register?
      modifies this, Repr, vhostRouter
      ensures Valid() && fresh(Repr - old(Repr))
      ensures r == R.Answer(R.GroupOf(old(view), e.group), R.EventKey(e) in old(vhostRouter.Table()), e)
      ensures (view, vhostRouter.Table()) == R.RegisterIn(old(view), old(vhostRouter.Table()), e)
    {
      var g := Find(e.group);
      ghost var found := view;
      r := Join(e);
      assert found[e.group] == R.GroupOf(old(view), e.group);
      Overwrites(old(view), e.group, found[e.group], view[e.group]);
    }

    /** A member leaves a group the controller has. */
    method Leave(pxy: R.Name, group: string) returns (isEmpty: bool)
      requires Valid() && group in groups
      modifies this`view, Repr, vhostRouter
      ensures Valid()
      ensures view == old(view)[group := R.WithoutMember(old(view)[group], pxy)]
      ensures isEmpty <==> |view[group].createFuncs| == 0
      ensures vhostRouter.Table() ==
        if isEmpty then old(vhostRouter.Table()) - {R.KeyOf(old(view)[group])} else old(vhostRouter.Table())
    {
      var g := groups[group];
      assert Shows(g, group, view[group], vhostRouter);
      isEmpty := g.UnRegister(pxy);
      view := view[group := g.Value()];
      forall n | n in groups ensures groups[n] in Repr && Shows(groups[n], n, view[n], vhostRouter) {
        assert old(Shows(groups[n], n, view[n], vhostRouter));
      }
    }

    method Discard(name: string)
      requires Valid()
      modifies this`groups, this`view
      ensures Valid() && view == old(view) - {name} && vhostRouter.Table() == old(vhostRouter.Table())
    {
      groups := groups - {name};
      view := view - {name};
    }

    method UnRegister(pxy: R.Name, group: string)
      requires Valid()
      modifies this`groups, this`view, Repr, vhostRouter
      ensures Valid()
      ensures (view, vhostRouter.Table()) == R.UnRegisterIn(old(view), old(vhostRouter.Table()), pxy, group)
    {
      if group !in groups {
        return;
      }
      var isEmpty := Leave(pxy, group);
      if isEmpty {
        Drops(old(view), group, view[group]);
        Discard(group);
      }
    }
  }
}
