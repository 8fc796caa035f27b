/** The server's objects: the control index, the proxy registry and a control with its
    proxies. Each method is one call of the source; its contract is the machine's
    step or sequence of steps. */
module Controls {
  import opened Base
  import S = Sessions
  import R = Registrations

  /** Controls by run id. Control objects are named by their login order. */
  class ControlManager {
    var ctls: seq<S.Session>
    var ctlsByRunID: map<S.RunID, nat>

    function View(): S.State
      reads this
    {
      S.State(ctls, ctlsByRunID)
    }

    ghost predicate Valid()
      reads this
    {
      S.Inv(View())
    }

    constructor ()
      ensures Valid() && View() == S.Init
    {
      ctls, ctlsByRunID := [], map[];
    }

    /** Adding a control replaces the one under the same run id and reports it. */
    method Add(runID: S.RunID) returns (ctl: nat, replaced: Option<nat>)
      requires Valid()
      modifies this
      ensures Valid()
      ensures S.Enabled(old(View()), S.Login(runID)) && View() == S.Step(old(View()), S.Login(runID))
      ensures ctl == |old(ctls)| && ctlsByRunID[runID] == ctl
      ensures replaced == if runID in old(ctlsByRunID) then Some(old(ctlsByRunID)[runID]) else None
      ensures replaced.None? ==> S.AllDoneBefore(View(), runID, ctl)
      ensures |ctls| == ctl + 1 && ctls[ctl].runID == runID && ctls[ctl].phase.Waiting?
      ensures !ctls[ctl].connClosed && ctls[ctl].prior == replaced
      ensures forall i :: 0 <= i < ctl ==>
        ctls[i] == if replaced == Some(i) then old(ctls)[i].(connClosed := true) else old(ctls)[i]
    {
      ghost var before := View();
      S.LoginKeepsInv(before, runID);
      assert S.IndexedNewest(before, runID);
      ctl := |ctls|;
      replaced := None;
      if runID in ctlsByRunID {
        var prior := ctlsByRunID[runID];
        replaced := Some(prior);
        ctls := S.Hangup(ctls, prior);
      }
      ctls := ctls + [S.Session(runID, replaced, S.Waiting, false)];
      ctlsByRunID := ctlsByRunID[runID := ctl];
    }

    /** Deleting checks that the entry is still the same control, so that a newer one
        stays. */
    method Del(runID: S.RunID, ctl: nat)
      requires Valid()
      requires ctl < |ctls| && ctls[ctl].runID == runID && ctls[ctl].phase.Done?
      modifies this
      ensures Valid()
      ensures S.Enabled(old(View()), S.Forget(ctl)) && View() == S.Step(old(View()), S.Forget(ctl))
      ensures ctls == old(ctls)
      ensures runID in old(ctlsByRunID) && old(ctlsByRunID)[runID] != ctl ==> ctlsByRunID == old(ctlsByRunID)
      ensures runID !in ctlsByRunID ==> S.AllDoneBefore(View(), runID, |ctls|)
      ensures forall r :: r != runID ==>
        (r in ctlsByRunID <==> r in old(ctlsByRunID)) && (r in ctlsByRunID ==> ctlsByRunID[r] == old(ctlsByRunID)[r])
    {
      S.ForgetKeepsInv(View(), ctl);
      if runID in ctlsByRunID && ctlsByRunID[runID] == ctl {
        ctlsByRunID := ctlsByRunID - {runID};
      }
      assert S.IndexedNewest(View(), runID);
    }

    method GetByID(runID: S.RunID) returns (ctl: Option<nat>)
      requires Valid()
      ensures ctl.Some? ==>
        && ctl.value < |ctls| && ctls[ctl.value].runID == runID
        && S.NoneBetween(View(), runID, ctl.value, |ctls|)
      ensures ctl.None? ==> S.AllDoneBefore(View(), runID, |ctls|)
    {
      assert S.IndexedNewest(View(), runID);
      ctl := if runID in ctlsByRunID then Some(ctlsByRunID[runID]) else None;
    }
  }

  /** All proxies of the server by name. */
  class ProxyManager {
    var pxys: map<R.Name, R.Proxy>

    constructor ()
      ensures pxys == map[]
    {
      pxys := map[];
    }

    method Add(name: R.Name, pxy: R.Proxy) returns (ok: bool)
      modifies this
      ensures ok <==> name !in old(pxys)
      ensures pxys == if ok then old(pxys)[name := pxy] else old(pxys)
    {
      if name in pxys {
        return false;
      }
      pxys := pxys[name := pxy];
      return true;
    }

    method Exist(name: R.Name) returns (exist: bool)
      ensures exist <==> name in pxys
    {
      exist := name in pxys;
    }

    method Del(name: R.Name)
      modifies this
      ensures pxys == old(pxys) - {name}
    {
      pxys := pxys - {name};
    }
  }

  class Control {
    const maxPorts: nat
    const pxyManager: ProxyManager
    var proxies: map<R.Name, R.Proxy>
    var portsUsedNum: int
    /** How often each proxy of this control was closed. */
    ghost var closes: multiset<R.Proxy>

    ghost predicate Valid()
      reads this, pxyManager
    {
      && Owns(pxyManager.pxys)
      && R.PortsFit(R.Work(R.Idle, proxies, portsUsedNum), maxPorts)
    }

    ghost predicate Owns(registry: map<R.Name, R.Proxy>)
      reads this
    {
      forall n :: n in proxies ==> proxies[n].name == n && n in registry && registry[n] == proxies[n]
    }

    constructor (pxyManager: ProxyManager, maxPorts: nat)
      ensures Valid() && proxies == map[] && closes == multiset{}
      ensures this.pxyManager == pxyManager && this.maxPorts == maxPorts
    {
      this.pxyManager, this.maxPorts := pxyManager, maxPorts;
      proxies, portsUsedNum, closes := map[], 0, multiset{};
    }

    /** The port limit and the Exist check let the proxy through. */
    predicate Passes(pxy: R.Proxy)
      reads this, pxyManager
    {
      (maxPorts == 0 || portsUsedNum + pxy.ports <= maxPorts) && pxy.name !in pxyManager.pxys
    }

    /** The other controls may change the registry between Exist and Add: `meanwhile`
        is what Add finds. Whatever they do, a refused registration leaves no trace of
        the proxy: it is not in any map, its ports are given back, and it was closed
        once if its listeners had been opened. */
    method RegisterProxy(pxy: R.Proxy, runOk: bool, meanwhile: map<R.Name, R.Proxy>) returns (ok: bool)
      requires Valid() && Owns(meanwhile)
      modifies this, pxyManager
      ensures Valid()
      ensures ok <==> old(Passes(pxy)) && runOk && pxy.name !in meanwhile
      ensures ok ==> pxyManager.pxys == meanwhile[pxy.name := pxy]
      ensures ok ==> proxies == old(proxies)[pxy.name := pxy] && closes == old(closes)
      ensures ok ==> portsUsedNum == old(portsUsedNum) + R.Counting(maxPorts, pxy.ports)
      ensures !ok ==> proxies == old(proxies) && portsUsedNum == old(portsUsedNum)
      ensures !ok ==> pxyManager.pxys == if old(Passes(pxy)) then meanwhile else old(pxyManager.pxys)
      ensures !ok ==> closes == if old(Passes(pxy)) && runOk then old(closes) + multiset{pxy} else old(closes)
    {
      if maxPorts > 0 {
        if portsUsedNum + pxy.ports > maxPorts {
          return false;
        }
        portsUsedNum := portsUsedNum + pxy.ports;
      }
      var exist := pxyManager.Exist(pxy.name);
      ok := !exist;
      if ok {
        pxyManager.pxys := meanwhile;
        ok := runOk;
        if ok {
          ok := pxyManager.Add(pxy.name, pxy);
          if ok {
            R.OwnFits(proxies, pxy, portsUsedNum, maxPorts);
            proxies := proxies[pxy.name := pxy];
          } else {
            closes := closes + multiset{pxy};
          }
        }
      }
      if !ok && maxPorts > 0 {
        portsUsedNum := portsUsedNum - pxy.ports;
      }
    }

    /** Closing undoes a registration; an unknown name changes nothing. */
    method CloseProxy(name: R.Name)
      requires Valid()
      modifies this, pxyManager
      ensures Valid()
      ensures name !in old(proxies) ==>
        proxies == old(proxies) && pxyManager.pxys == old(pxyManager.pxys)
        && portsUsedNum == old(portsUsedNum) && closes == old(closes)
      ensures name in old(proxies) ==>
        && proxies == old(proxies) - {name} && pxyManager.pxys == old(pxyManager.pxys) - {name}
        && portsUsedNum == old(portsUsedNum) - R.Counting(maxPorts, old(proxies)[name].ports)
        && closes == old(closes) + multiset{old(proxies)[name]}
    {
      if name !in proxies {
        return;
      }
      var pxy := proxies[name];
      R.SumWithout(proxies, name);
      if maxPorts > 0 {
        portsUsedNum := portsUsedNum - pxy.ports;
      }
      closes := closes + multiset{pxy};
      pxyManager.Del(pxy.name);
      proxies := proxies - {name};
    }

    /** The end of the worker: every owned proxy is closed once and its name leaves the
        registry; nobody else's entry is touched. */
    method WorkerExit()
      requires Valid()
      modifies `closes, pxyManager
      ensures pxyManager.pxys == old(pxyManager.pxys) - proxies.Keys
      ensures forall p :: closes[p] == old(closes)[p] + ClosedOf(proxies, p)
    {
      var todo := proxies.Keys;
      while todo != {}
        invariant todo <= proxies.Keys
        invariant pxyManager.pxys == old(pxyManager.pxys) - (proxies.Keys - todo)
        invariant forall p :: closes[p] == old(closes)[p] + ClosedOf(proxies - todo, p)
        decreases todo
      {
        var name :| name in todo;
        closes := closes + multiset{proxies[name]};
        pxyManager.Del(proxies[name].name);
        todo := todo - {name};
      }
      assert proxies - {} == proxies;
    }
  }

  /** How often closing every proxy of a map once closes p. */
  ghost function ClosedOf(m: map<R.Name, R.Proxy>, p: R.Proxy): nat {
    if p.name in m && m[p.name] == p then 1 else 0
  }

  /** Registering and then closing gives every map and counter back. */
  method RegisterThenClose(ctl: Control, pxy: R.Proxy) returns (ok: bool)
    requires ctl.Valid()
    modifies ctl, ctl.pxyManager
    ensures ctl.Valid()
    ensures ctl.proxies == old(ctl.proxies) && ctl.portsUsedNum == old(ctl.portsUsedNum)
    ensures ctl.pxyManager.pxys == old(ctl.pxyManager.pxys)
    ensures ok ==> ctl.closes == old(ctl.closes) + multiset{pxy}
  {
    ok := ctl.RegisterProxy(pxy, true, ctl.pxyManager.pxys);
    if ok {
      assert pxy.name !in old(ctl.proxies);
      ctl.CloseProxy(pxy.name);
    }
  }
}
