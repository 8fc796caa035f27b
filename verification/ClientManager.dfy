/** Reconciling the running wrappers with a new list of proxy configurations. */
module ClientManager {

  type Name = string

  datatype Cfg = Cfg(name: Name, body: string)

  /** lo.KeyBy: of several configurations with one name the last one stays. */
  function KeyByName(cfgs: seq<Cfg>): (m: map<Name, Cfg>)
    ensures forall n :: n in m <==> Named(cfgs, n)
  {
    if cfgs == [] then map[]
    else
      assert cfgs == cfgs[..|cfgs| - 1] + [cfgs[|cfgs| - 1]];
      KeyByName(cfgs[..|cfgs| - 1])[cfgs[|cfgs| - 1].name := cfgs[|cfgs| - 1]]
  }

  ghost predicate LastAt(cfgs: seq<Cfg>, i: int, c: Cfg) {
    0 <= i < |cfgs| && cfgs[i] == c && forall j :: i < j < |cfgs| ==> cfgs[j].name != c.name
  }

  /** The configuration is in the list, and none after it has its name. */
  ghost predicate Last(cfgs: seq<Cfg>, c: Cfg) {
    exists i :: LastAt(cfgs, i, c)
  }

  predicate Named(cfgs: seq<Cfg>, n: Name) {
    exists i :: 0 <= i < |cfgs| && cfgs[i].name == n
  }

  /** A name gets the configuration that no later one with its name follows. */
  lemma {:induction false} KeyByNameIsLast(cfgs: seq<Cfg>, n: Name)
    requires Named(cfgs, n)
    ensures KeyByName(cfgs)[n].name == n && Last(cfgs, KeyByName(cfgs)[n])
  {
    var (init, k) := (cfgs[..|cfgs| - 1], |cfgs| - 1);
    if cfgs[k].name == n {
      assert LastAt(cfgs, k, cfgs[k]);
    } else {
      var j :| 0 <= j < |cfgs| && cfgs[j].name == n;
      assert init[j].name == n;
      KeyByNameIsLast(init, n);
      var i :| LastAt(init, i, KeyByName(init)[n]);
      assert LastAt(cfgs, i, KeyByName(init)[n]);
    }
  }

  /** The first configuration of a name. */
  function First(cfgs: seq<Cfg>, n: Name): (c: Cfg)
    requires Named(cfgs, n)
    ensures c.name == n
  {
    if cfgs[0].name == n then cfgs[0]
    else
      assert Named(cfgs[1..], n) by {
        var i :| 0 <= i < |cfgs| && cfgs[i].name == n;
        assert cfgs[1..][i - 1].name == n;
      }
      First(cfgs[1..], n)
  }

  /** Wrappers the update stops: not configured any more, or configured differently. */
  function Removed(m: map<Name, Cfg>, cfgs: seq<Cfg>): set<Name> {
    set n | n in m && (n !in KeyByName(cfgs) || m[n] != KeyByName(cfgs)[n])
  }

  /** The configuration a name runs with after the update. */
  ghost function Target(m: map<Name, Cfg>, cfgs: seq<Cfg>, n: Name): Cfg
    requires Named(cfgs, n)
  {
    if n in m && n !in Removed(m, cfgs) then m[n] else First(cfgs, n)
  }

  ghost predicate Updated(before: map<Name, Cfg>, cfgs: seq<Cfg>, after: map<Name, Cfg>) {
    forall n :: (n in after <==> Named(cfgs, n)) && (Named(cfgs, n) ==> after[n] == Target(before, cfgs, n))
  }

  lemma {:induction false} FirstWithout(cfgs: seq<Cfg>, i: nat)
    requires i < |cfgs| && forall j :: 0 <= j < i ==> cfgs[j].name != cfgs[i].name
    ensures First(cfgs, cfgs[i].name) == cfgs[i]
  {
    if i > 0 {
      FirstWithout(cfgs[1..], i - 1);
    }
  }

  ghost predicate LeadsAt(cfgs: seq<Cfg>, i: int, c: Cfg) {
    0 <= i < |cfgs| && cfgs[i] == c && forall j :: 0 <= j < i ==> cfgs[j].name != c.name
  }

  ghost predicate Leads(cfgs: seq<Cfg>, c: Cfg) {
    exists i :: LeadsAt(cfgs, i, c)
  }

  lemma LeaderIsFirst(cfgs: seq<Cfg>, c: Cfg)
    requires Leads(cfgs, c)
    ensures Named(cfgs, c.name) && First(cfgs, c.name) == c
  {
    var i :| LeadsAt(cfgs, i, c);
    FirstWithout(cfgs, i);
  }

  lemma NewNameLeads(cfgs: seq<Cfg>, i: nat)
    requires i < |cfgs| && !Named(cfgs[..i], cfgs[i].name)
    ensures LeadsAt(cfgs, i, cfgs[i])
  {
    forall j | 0 <= j < i ensures cfgs[j].name != cfgs[i].name {
      assert cfgs[..i][j] == cfgs[j];
    }
  }

  lemma NamedOneMore(cfgs: seq<Cfg>, i: nat, n: Name)
    requires i < |cfgs|
    ensures Named(cfgs[..i + 1], n) <==> Named(cfgs[..i], n) || cfgs[i].name == n
  {
    var less, more := cfgs[..i], cfgs[..i + 1];
    assert more[i] == cfgs[i] && less == more[..i];
    if j :| 0 <= j < |less| && less[j].name == n {
      assert more[j].name == n;
    }
    if j :| 0 <= j < |more| && more[j].name == n {
      assert j < i ==> less[j].name == n;
    }
  }

  class Manager {
    var proxies: map<Name, Cfg>

    constructor ()
      ensures proxies == map[]
    {
      proxies := map[];
    }

    method StopChanged(cfgs: seq<Cfg>) returns (stopped: seq<Name>)
      modifies this
      ensures proxies == old(proxies) - Removed(old(proxies), cfgs)
      ensures forall n :: n in stopped <==> n in Removed(old(proxies), cfgs)
      ensures forall i, j :: 0 <= i < j < |stopped| ==> stopped[i] != stopped[j]
    {
      var byName := KeyByName(cfgs);
      stopped := [];
      var todo := proxies.Keys;
      while todo != {}
        invariant todo <= old(proxies).Keys
        invariant proxies == old(proxies) - (Removed(old(proxies), cfgs) - todo)
        invariant forall n :: n in stopped <==> n in Removed(old(proxies), cfgs) && n !in todo
        invariant forall i, j :: 0 <= i < j < |stopped| ==> stopped[i] != stopped[j]
        decreases todo
      {
        var name :| name in todo;
        if name !in byName || proxies[name] != byName[name] {
          stopped := stopped + [name];
          proxies := proxies - {name};
        }
        todo := todo - {name};
      }
    }

    method StartMissing(cfgs: seq<Cfg>) returns (started: seq<Cfg>)
      modifies this
      ensures forall n :: n in proxies <==> n in old(proxies) || Named(cfgs, n)
      ensures forall n :: n in proxies ==>
        proxies[n] == if n in old(proxies) then old(proxies)[n] else First(cfgs, n)
      ensures forall c :: c in started <==>
        c.name !in old(proxies) && Named(cfgs, c.name) && c == First(cfgs, c.name)
    {
      started := [];
      ghost var was := proxies;
      for i := 0 to |cfgs|
        invariant forall n :: n in proxies <==> n in was || Named(cfgs[..i], n)
        invariant forall n :: n in proxies ==>
          if n in was then proxies[n] == was[n] else proxies[n].name == n && Leads(cfgs, proxies[n])
        invariant forall c :: c in started <==> c.name in proxies && c.name !in was && proxies[c.name] == c
      {
        forall n ensures Named(cfgs[..i + 1], n) <==> Named(cfgs[..i], n) || cfgs[i].name == n {
          NamedOneMore(cfgs, i, n);
        }
        if cfgs[i].name !in proxies {
          NewNameLeads(cfgs, i);
          proxies := proxies[cfgs[i].name := cfgs[i]];
          started := started + [cfgs[i]];
        }
      }
      assert cfgs[..|cfgs|] == cfgs;
      forall n | n in proxies && n !in was ensures proxies[n] == First(cfgs, n) {
        LeaderIsFirst(cfgs, proxies[n]);
      }
    }

    /** Stops what is no longer configured as it runs, then starts what is missing. */
    method UpdateAll(cfgs: seq<Cfg>) returns (stopped: seq<Name>, started: seq<Cfg>)
      modifies this
      ensures Updated(old(proxies), cfgs, proxies)
      ensures forall n :: n in stopped <==> n in Removed(old(proxies), cfgs)
      ensures forall i, j :: 0 <= i < j < |stopped| ==> stopped[i] != stopped[j]
      ensures forall c :: c in started <==>
        (Named(cfgs, c.name) && c == First(cfgs, c.name)
         && (c.name !in old(proxies) || c.name in Removed(old(proxies), cfgs)))
    {
      KeptAreNamed(proxies, cfgs);
      stopped := StopChanged(cfgs);
      started := StartMissing(cfgs);
    }
  }

  lemma KeptAreNamed(before: map<Name, Cfg>, cfgs: seq<Cfg>)
    ensures forall n :: n in before && n !in Removed(before, cfgs) ==> Named(cfgs, n)
  {
  }

  /** Updating again with the same list stops nothing exactly when every name runs, or
      first appears, with the configuration that appears last. */
  lemma SecondUpdateIsIdle(before: map<Name, Cfg>, cfgs: seq<Cfg>, after: map<Name, Cfg>)
    requires Updated(before, cfgs, after)
    ensures Removed(after, cfgs) == {} <==>
      forall n :: Named(cfgs, n) ==>
        (n in before && before[n] == KeyByName(cfgs)[n]) || First(cfgs, n) == KeyByName(cfgs)[n]
  {
    var last := KeyByName(cfgs);
    forall n ensures n in Removed(after, cfgs) <==>
      Named(cfgs, n) && !(n in before && before[n] == last[n]) && First(cfgs, n) != last[n]
    {
      if Named(cfgs, n) {
        assert after[n] == Target(before, cfgs, n);
      }
    }
    if Removed(after, cfgs) != {} {
      var n :| n in Removed(after, cfgs);
    }
  }
}
