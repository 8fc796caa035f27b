/** The objects that open and close TCP listeners: ungrouped proxies and groups, with the
    port manager they share. Every method up to its next critical section follows one step
    of the machine; the calls of the source are these steps back to back. */
module TcpProxies {
  import opened Base
  import B = PortBook
  import T = TcpPorts
  import P = Ports

  class TCPResources {
    const portManager: P.Manager
    var groups: map<string, T.Group>
    var solo: map<nat, int>
    var grouped: map<nat, T.Joined>
    var next: nat
    ghost var flights: map<nat, T.Flight>   // what the calls under way have in their variables
    ghost var locked: set<string>           // the groups whose lock they hold

    ghost predicate Valid()
      reads this, portManager, portManager.Repr
    {
      portManager.Valid()
    }

    ghost function View(): T.State
      reads this, portManager
    {
      T.State(portManager.book, groups, solo, grouped, flights, locked, next)
    }

    predicate HasPort(group: string, realPort: int)
      reads this
    {
      group in groups && groups[group].realPort == realPort
    }

    constructor (portManager: P.Manager)
      requires portManager.Valid()
      ensures Valid() && this.portManager == portManager
      ensures View() == T.Init({}).(book := portManager.book)
    {
      this.portManager := portManager;
      groups, solo, grouped, next := map[], map[], map[], 0;
      flights, locked := map[], {};
    }

    method AcquirePort(name: B.Name, port: int, probe: T.Probe) returns (realPort: int, ok: bool)
      requires Valid()
      modifies portManager
      ensures Valid() && fresh(portManager.Repr - old(portManager.Repr))
      ensures portManager.book == T.Acquired(old(View()), name, port, probe)
      ensures T.GrantOf(old(View()), name, port, probe) == if ok then Some(realPort) else None
    {
      var err;
      realPort, err := portManager.Acquire(name, port, probe.order, probe.busy, probe.now);
      ok := err.Ok?;
    }

    // ---- ungrouped proxies ----

    method AcquireSolo(name: B.Name, port: int, probe: T.Probe) returns (id: nat, realPort: int, ok: bool)
      requires Valid()
      modifies this, portManager
      ensures Valid() && fresh(portManager.Repr - old(portManager.Repr))
      ensures View() == T.StepAcquireSolo(old(View()), name, port, probe)
      ensures ok <==> T.GrantOf(old(View()), name, port, probe).Some?
      ensures ok ==> id == old(next) && id in flights && flights[id] == T.OpeningSolo(realPort)
    {
      id := next;
      realPort, ok := AcquirePort(name, port, probe);
      if ok {
        flights := flights[next := T.OpeningSolo(realPort)];
        next := next + 1;
      }
    }

    method ListenSolo(id: nat, realPort: int, listenOk: bool)
      requires Valid() && id in flights && flights[id] == T.OpeningSolo(realPort)
      modifies this
      ensures Valid() && View() == T.StepListenSolo(old(View()), id, listenOk)
    {
      if listenOk {
        flights := flights - {id};
        solo := solo[id := realPort];
      } else {
        flights := flights[id := T.Returning(realPort)];
      }
    }

    method UnlistenSolo(id: nat) returns (realPort: int)
      requires Valid() && id in solo
      modifies this
      ensures Valid() && View() == T.Step(old(View()), T.UnlistenSolo(id))
      ensures id in flights && flights[id] == T.Returning(realPort)
    {
      realPort := solo[id];
      solo := solo - {id};
      flights := flights[id := T.Returning(realPort)];
    }

    method ReleaseSolo(id: nat, realPort: int, now: int)
      requires Valid() && id in flights && flights[id] == T.Returning(realPort)
      modifies this, portManager, portManager.Repr
      ensures Valid() && portManager.Repr == old(portManager.Repr)
      ensures View() == T.StepRelease(old(View()), id, now)
    {
      portManager.Release(realPort, now);
      flights := flights - {id};
    }

    /** TCPProxy.Run without a group: a failed listen gives the port back. */
    method RunSolo(name: B.Name, port: int, probe: T.Probe, listenOk: bool) returns (id: nat, realPort: int, ok: bool)
      requires Valid()
      modifies this, portManager, portManager.Repr
      ensures Valid()
      ensures ok ==> id == old(next) && id in solo && solo[id] == realPort
      ensures ok <==> listenOk && T.GrantOf(old(View()), name, port, probe).Some?
      ensures
        var acquired := T.StepAcquireSolo(old(View()), name, port, probe);
        if T.GrantOf(old(View()), name, port, probe).None? then View() == acquired
        else
          T.Enabled(acquired, T.ListenSolo(old(next), listenOk)) &&
          var s := T.StepListenSolo(acquired, old(next), listenOk);
          if listenOk then View() == s
          else T.Enabled(s, T.Release(old(next), probe.now)) && View() == T.StepRelease(s, old(next), probe.now)
    {
      id, realPort, ok := AcquireSolo(name, port, probe);
      if !ok {
        return;
      }
      ListenSolo(id, realPort, listenOk);
      if !listenOk {
        ReleaseSolo(id, realPort, probe.now);
        ok := false;
      }
    }

    /** TCPProxy.Close without a group: the listener first, then the port. */
    method CloseSolo(id: nat, now: int)
      requires Valid() && id in solo
      modifies this, portManager, portManager.Repr
      ensures Valid()
      ensures
        var s := T.Step(old(View()), T.UnlistenSolo(id));
        T.Enabled(s, T.Release(id, now)) && View() == T.StepRelease(s, id, now)
    {
      var realPort := UnlistenSolo(id);
      ReleaseSolo(id, realPort, now);
    }

    // ---- groups ----

    /** TCPGroup.Listen for the first member, which takes the group's lock; after a refusal
        the lock is free again and the empty group stays in the map. */
    method AcquireGroup(name: B.Name, j: T.Joined, probe: T.Probe) returns (id: nat, realPort: int, ok: bool)
      requires Valid() && T.Enabled(View(), T.AcquireGroup(name, j, probe))
      modifies this, portManager
      ensures Valid() && fresh(portManager.Repr - old(portManager.Repr))
      ensures View() == T.StepAcquireGroup(old(View()), name, j, probe)
      ensures ok <==> T.GrantOf(old(View()), name, j.port, probe).Some?
      ensures ok ==> id == old(next) && id in flights && flights[id] == T.OpeningGroup(realPort, j)
    {
      id := next;
      realPort, ok := AcquirePort(name, j.port, probe);
      Enter(j, realPort, ok);
    }

    /** The group is in the map from now on, and locked after a grant. */
    method Enter(j: T.Joined, realPort: int, granted: bool)
      modifies this
      ensures groups == old(groups)[j.group := T.GroupOf(old(View()), j.group)]
      ensures solo == old(solo) && grouped == old(grouped)
      ensures flights == if granted then old(flights)[old(next) := T.OpeningGroup(realPort, j)] else old(flights)
      ensures locked == if granted then old(locked) + {j.group} else old(locked)
      ensures next == if granted then old(next) + 1 else old(next)
    {
      groups := groups[j.group := if j.group in groups then groups[j.group] else T.EMPTY];
      if granted {
        flights, locked, next := flights[next := T.OpeningGroup(realPort, j)], locked + {j.group}, next + 1;
      }
    }

    /** A failed listen does not give the port back. */
    method ListenGroup(id: nat, realPort: int, j: T.Joined, listenOk: bool, osPort: int)
      requires Valid() && id in flights && flights[id] == T.OpeningGroup(realPort, j)
      modifies this
      ensures Valid() && View() == T.StepListenGroup(old(View()), id, listenOk, osPort)
      ensures listenOk ==> id in grouped && grouped[id] == j && HasPort(j.group, realPort)
    {
      flights, locked := flights - {id}, locked - {j.group};
      if listenOk {
        var g := T.Group(j.groupKey, j.addr, j.port, realPort, T.BoundPort(j.port, osPort), [id]);
        groups := groups[j.group := g];
        grouped := grouped[id := j];
      }
    }

    /** TCPGroup.Listen for a later member. */
    method JoinGroup(j: T.Joined) returns (id: nat, realPort: int, ok: bool)
      requires Valid() && j.group in groups && groups[j.group].members != []
      modifies this
      ensures Valid() && View() == T.StepJoinGroup(old(View()), j)
      ensures ok <==> T.JoinAllowed(old(groups)[j.group], j)
      ensures ok ==> id == old(next) && id in grouped && grouped[id] == j && HasPort(j.group, realPort)
    {
      var tg := groups[j.group];
      id, realPort, ok := next, tg.realPort, false;
      if tg.addr != j.addr || tg.port != j.port || tg.groupKey != j.groupKey {
        return;
      }
      groups := groups[j.group := tg.(members := tg.members + [next])];
      grouped := grouped[next := j];
      next := next + 1;
      ok := true;
    }

    /** TCPGroupCtl.Listen: the first member opens the listener, the others join it. */
    method Listen(name: B.Name, j: T.Joined, probe: T.Probe, listenOk: bool, osPort: int)
      returns (id: nat, realPort: int, ok: bool)
      requires Valid() && j.group !in locked
      modifies this, portManager, portManager.Repr
      ensures Valid()
      ensures
        if T.GroupOf(old(View()), j.group).members == [] then
          ok <==> T.GrantOf(old(View()), name, j.port, probe).Some? && listenOk
        else ok <==> T.JoinAllowed(T.GroupOf(old(View()), j.group), j)
      ensures ok ==> id == old(next) && id in grouped && grouped[id] == j && HasPort(j.group, realPort)
      ensures
        if T.GroupOf(old(View()), j.group).members != [] then View() == T.StepJoinGroup(old(View()), j)
        else
          var acquired := T.StepAcquireGroup(old(View()), name, j, probe);
          if T.GrantOf(old(View()), name, j.port, probe).None? then View() == acquired
          else
            && T.Enabled(acquired, T.ListenGroup(old(next), listenOk, osPort))
            && View() == T.StepListenGroup(acquired, old(next), listenOk, osPort)
    {
      if j.group in groups && |groups[j.group].members| != 0 {
        id, realPort, ok := JoinGroup(j);
        return;
      }
      id, realPort, ok := AcquireGroup(name, j, probe);
      if ok {
        ListenGroup(id, realPort, j, listenOk, osPort);
        ok := listenOk;
      }
    }

    static method RemoveMember(members: seq<nat>, id: nat) returns (lns: seq<nat>)
      ensures lns == RemoveFirst(members, id)
    {
      for i := 0 to |members|
        invariant RemoveFirst(members, id) == members[..i] + RemoveFirst(members[i..], id)
      {
        assert members[i..][1..] == members[i + 1..];
        if members[i] == id {
          return members[..i] + members[i + 1..];
        }
      }
      return members;
    }

    /** The member is taken off the list; the last one closes the listener and keeps the lock. */
    method LeaveGroup(id: nat) returns (last: bool)
      requires Valid() && T.Enabled(View(), T.LeaveGroup(id))
      modifies this
      ensures Valid() && View() == T.StepLeaveGroup(old(View()), id)
      ensures
        var group := old(grouped)[id].group;
        && (last <==> RemoveFirst(old(groups)[group].members, id) == [])
        && (last ==> id in flights && flights[id] == T.ClosingGroup(old(groups)[group].realPort, group))
    {
      var group := grouped[id].group;
      var tg := groups[group];
      var lns := RemoveMember(tg.members, id);
      grouped := grouped - {id};
      groups := groups[group := tg.(members := lns)];
      last := |lns| == 0;
      if last {
        flights := flights[id := T.ClosingGroup(tg.realPort, group)];
        locked := locked + {group};
      }
    }

    method ReleaseGroup(id: nat, realPort: int, group: string, now: int)
      requires Valid() && id in flights && flights[id] == T.ClosingGroup(realPort, group)
      modifies this, portManager, portManager.Repr
      ensures Valid() && portManager.Repr == old(portManager.Repr)
      ensures View() == T.StepRelease(old(View()), id, now)
    {
      portManager.Release(realPort, now);
      flights, locked := flights - {id}, locked - {group};
      groups := groups - {group};
    }

    /** TCPGroup.CloseListener: the last member gives the port back and removes the group. */
    method CloseListener(id: nat, now: int)
      requires Valid() && T.Enabled(View(), T.LeaveGroup(id))
      modifies this, portManager, portManager.Repr
      ensures Valid()
      ensures
        var s := T.StepLeaveGroup(old(View()), id);
        if RemoveFirst(old(groups)[old(grouped)[id].group].members, id) != [] then View() == s
        else T.Enabled(s, T.Release(id, now)) && View() == T.StepRelease(s, id, now)
    {
      var group := grouped[id].group;
      var realPort := groups[group].realPort;
      var last := LeaveGroup(id);
      if last {
        ReleaseGroup(id, realPort, group, now);
      }
    }
  }
}
