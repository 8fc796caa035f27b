/** Proxy registration on the server, cut into the critical sections that other
    controls can observe: counting ports, Exist, Run, Add, taking ownership, and the
    deferred rollback; closing by message and closing when a control leaves. */
module Registrations {

  type Name = string

  /** A proxy knows the control that made it. */
  datatype Proxy = Proxy(id: nat, name: Name, ports: nat, ctl: nat)

  /** What happened to the listeners of a proxy: never opened, open, or closed so many times. */
  datatype Life = Fresh | Open | Shut(times: nat)

  datatype Made = Made(proxy: Proxy, life: Life)

  /** Where the read loop of a control stands. */
  datatype Op =
    | Idle
    | Counted(p: Proxy)   // ports are counted
    | Checked(p: Proxy)   // Exist said no
    | Ran(p: Proxy)       // the listeners are open
    | Added(p: Proxy)     // in the registry, not yet in the control's map
    | Lost(p: Proxy)      // Add failed: the deferred Close is due
    | Failed(p: Proxy)    // the deferred return of the ports is due
    | Closing(p: Proxy)   // closed, the registry entry is still there

  datatype Work = Work(op: Op, proxies: map<Name, Proxy>, used: int)

  datatype Books = Books(work: seq<Work>, registry: map<Name, Proxy>, made: seq<Made>, limit: nat)

  datatype Event =
    | Begin(i: nat, name: Name, ports: nat)
    | CheckExist(i: nat)
    | RunProxy(i: nat, ok: bool)
    | Register(i: nat)
    | CloseLoser(i: nat)
    | Rollback(i: nat)
    | Own(i: nat)
    | BeginClose(i: nat, name: Name)
    | ExitClose(i: nat, name: Name)
    | EndClose(i: nat)

  function Closed(l: Life): Life {
    match l
    case Shut(n) => Shut(n + 1)
    case _ => Shut(1)
  }

  function CloseOf(made: seq<Made>, p: Proxy): seq<Made>
    requires p.id < |made|
  {
    made[p.id := made[p.id].(life := Closed(made[p.id].life))]
  }

  predicate Enabled(b: Books, e: Event) {
    e.i < |b.work| &&
    var w := b.work[e.i];
    match e
    case Begin(_, _, _) => w.op.Idle?
    case CheckExist(_) => w.op.Counted?
    case RunProxy(_, ok) => w.op.Checked? && w.op.p.id < |b.made|
    case Register(_) => w.op.Ran?
    case CloseLoser(_) => w.op.Lost? && w.op.p.id < |b.made|
    case Rollback(_) => w.op.Failed?
    case Own(_) => w.op.Added?
    case BeginClose(_, name) => w.op.Idle? && (name in w.proxies ==> w.proxies[name].id < |b.made|)
    case ExitClose(_, name) => w.op.Idle? && name in w.proxies && w.proxies[name].id < |b.made|
    case EndClose(_) => w.op.Closing?
  }

  function WithWork(b: Books, i: nat, w: Work): Books
    requires i < |b.work|
  {
    b.(work := b.work[i := w])
  }

  function Counting(limit: nat, ports: nat): nat {
    if limit > 0 then ports else 0
  }

  /** Taking a proxy out of the control's map and closing it. */
  function CloseOwn(b: Books, i: nat, name: Name, returned: int): Books
    requires i < |b.work| && name in b.work[i].proxies && b.work[i].proxies[name].id < |b.made|
  {
    var w := b.work[i];
    var p := w.proxies[name];
    b.(work := b.work[i := Work(Closing(p), w.proxies - {name}, w.used - returned)], made := CloseOf(b.made, p))
  }

  function Step(b: Books, e: Event): Books
    requires Enabled(b, e)
  {
    var w := b.work[e.i];
    match e
    case Begin(i, name, ports) =>
      var p := Proxy(|b.made|, name, ports, i);
      var b' := b.(made := b.made + [Made(p, Fresh)]);
      if b.limit > 0 && w.used + ports > b.limit then b'
      else WithWork(b', i, w.(op := Counted(p), used := w.used + Counting(b.limit, ports)))
    case CheckExist(i) =>
      WithWork(b, i, w.(op := if w.op.p.name in b.registry then Failed(w.op.p) else Checked(w.op.p)))
    case RunProxy(i, ok) =>
      if ok then WithWork(b, i, w.(op := Ran(w.op.p))).(made := b.made[w.op.p.id := b.made[w.op.p.id].(life := Open)])
      else WithWork(b, i, w.(op := Failed(w.op.p)))
    case Register(i) =>
      if w.op.p.name in b.registry then WithWork(b, i, w.(op := Lost(w.op.p)))
      else WithWork(b, i, w.(op := Added(w.op.p))).(registry := b.registry[w.op.p.name := w.op.p])
    case CloseLoser(i) =>
      WithWork(b, i, w.(op := Failed(w.op.p))).(made := CloseOf(b.made, w.op.p))
    case Rollback(i) =>
      WithWork(b, i, w.(op := Idle, used := w.used - Counting(b.limit, w.op.p.ports)))
    case Own(i) =>
      WithWork(b, i, w.(op := Idle, proxies := w.proxies[w.op.p.name := w.op.p]))
    case BeginClose(i, name) =>
      if name in w.proxies then CloseOwn(b, i, name, Counting(b.limit, w.proxies[name].ports)) else b
    case ExitClose(i, name) => CloseOwn(b, i, name, 0)
    case EndClose(i) =>
      WithWork(b, i, w.(op := Idle)).(registry := b.registry - {w.op.p.name})
  }

  // ---- ownership ----

  /** The registry entries a control accounts for. */
  function Held(w: Work): map<Name, Proxy> {
    match w.op
    case Added(p) => w.proxies[p.name := p]
    case Closing(p) => w.proxies[p.name := p]
    case _ => w.proxies
  }

  /** The proxies of a control whose listeners are open. */
  predicate InHand(w: Work, p: Proxy) {
    (p.name in w.proxies && w.proxies[p.name] == p) || ((w.op.Ran? || w.op.Added? || w.op.Lost?) && w.op.p == p)
  }

  ghost predicate LifeFits(op: Op, l: Life) {
    match op
    case Idle => true
    case Counted(_) => l.Fresh?
    case Checked(_) => l.Fresh?
    case Ran(_) => l.Open?
    case Added(_) => l.Open?
    case Lost(_) => l.Open?
    case Failed(_) => l.Fresh? || l == Shut(1)
    case Closing(_) => l == Shut(1)
  }

  ghost predicate MapFits(b: Books, i: nat)
    requires i < |b.work|
  {
    var w := b.work[i];
    forall n :: n in w.proxies ==>
      var p := w.proxies[n];
      p.name == n && p.ctl == i && p.id < |b.made| && b.made[p.id] == Made(p, Open)
      && n in b.registry && b.registry[n] == p
  }

  ghost predicate OpFits(b: Books, i: nat)
    requires i < |b.work|
  {
    var w := b.work[i];
    w.op.Idle? ||
      (var p := w.op.p;
       && p.ctl == i && p.id < |b.made| && b.made[p.id].proxy == p && LifeFits(w.op, b.made[p.id].life)
       && (p.name in w.proxies ==> w.proxies[p.name] != p)
       && (w.op.Added? || w.op.Closing? ==> p.name !in w.proxies && p.name in b.registry && b.registry[p.name] == p))
  }

  ghost predicate EntryFits(b: Books, n: Name) {
    n in b.registry ==>
      var p := b.registry[n];
      p.name == n && p.ctl < |b.work| && n in Held(b.work[p.ctl]) && Held(b.work[p.ctl])[n] == p
  }

  ghost predicate MadeFits(b: Books, id: nat)
    requires id < |b.made|
  {
    var m := b.made[id];
    && m.proxy.id == id && m.proxy.ctl < |b.work|
    && (m.life.Open? ==> InHand(b.work[m.proxy.ctl], m.proxy))
    && (m.life.Shut? ==> m.life.times == 1)
  }

  /** The registry is the disjoint union of what the controls hold; every open proxy
      is in the hands of the control that made it, and no proxy is closed twice. */
  ghost predicate Inv(b: Books) {
    && (forall i :: 0 <= i < |b.work| ==> MapFits(b, i) && OpFits(b, i))
    && (forall n :: EntryFits(b, n))
    && (forall id :: 0 <= id < |b.made| ==> MadeFits(b, id))
  }

  /** A step of one control leaves everything that belongs to another one alone. */
  ghost predicate Untouched(b: Books, c: Books, i: nat) {
    && |c.work| == |b.work| && |b.made| <= |c.made| && c.limit == b.limit
    && (forall j :: 0 <= j < |b.work| && j != i ==> c.work[j] == b.work[j])
    && (forall n :: n in b.registry && b.registry[n].ctl != i ==> n in c.registry && c.registry[n] == b.registry[n])
    && (forall n :: n in c.registry && c.registry[n].ctl != i ==> n in b.registry && c.registry[n] == b.registry[n])
    && (forall id :: 0 <= id < |b.made| && b.made[id].proxy.ctl != i ==> c.made[id] == b.made[id])
    && (forall id :: 0 <= id < |b.made| ==> c.made[id].proxy == b.made[id].proxy)
    && (forall id :: |b.made| <= id < |c.made| ==> c.made[id].proxy.ctl == i)
  }

  ghost predicate OwnPart(b: Books, i: nat)
    requires i < |b.work|
  {
    && MapFits(b, i) && OpFits(b, i)
    && (forall n :: n in b.registry && b.registry[n].ctl == i ==> EntryFits(b, n))
    && (forall id :: 0 <= id < |b.made| && b.made[id].proxy.ctl == i ==> MadeFits(b, id))
  }

  lemma OthersKeepFitting(b: Books, c: Books, i: nat)
    requires Inv(b) && i < |b.work| && Untouched(b, c, i) && OwnPart(c, i)
    ensures Inv(c)
  {
    forall j | 0 <= j < |c.work| ensures MapFits(c, j) && OpFits(c, j) {
      if j != i {
        assert MapFits(b, j) && OpFits(b, j);
      }
    }
    forall n ensures EntryFits(c, n) {
      assert EntryFits(b, n);
    }
    forall id | 0 <= id < |c.made| ensures MadeFits(c, id) {
      if id < |b.made| {
        assert MadeFits(b, id);
      }
    }
  }

  lemma StepTouchesOne(b: Books, e: Event)
    requires Inv(b) && Enabled(b, e)
    ensures Untouched(b, Step(b, e), e.i)
  {
    assert MapFits(b, e.i) && OpFits(b, e.i);
  }

  lemma BeginFits(b: Books, e: Event)
    requires Inv(b) && Enabled(b, e) && e.Begin?
    ensures OwnPart(Step(b, e), e.i)
  {
    var c := Step(b, e);
    assert MapFits(b, e.i) && OpFits(b, e.i);
    forall n | n in c.registry && c.registry[n].ctl == e.i ensures EntryFits(c, n) {
      assert EntryFits(b, n);
    }
    forall id | 0 <= id < |c.made| && c.made[id].proxy.ctl == e.i ensures MadeFits(c, id) {
      if id < |b.made| {
        assert MadeFits(b, id);
      }
    }
  }

  lemma TryingFits(b: Books, e: Event)
    requires Inv(b) && Enabled(b, e)
    requires e.CheckExist? || e.RunProxy? || e.Rollback?
    ensures OwnPart(Step(b, e), e.i)
  {
    var c := Step(b, e);
    assert MapFits(b, e.i) && OpFits(b, e.i);
    forall n | n in c.registry && c.registry[n].ctl == e.i ensures EntryFits(c, n) {
      assert EntryFits(b, n);
    }
    forall id | 0 <= id < |c.made| && c.made[id].proxy.ctl == e.i ensures MadeFits(c, id) {
      assert MadeFits(b, id);
    }
  }

  lemma RegisteringFits(b: Books, e: Event)
    requires Inv(b) && Enabled(b, e)
    requires e.Register? || e.CloseLoser? || e.Own?
    ensures OwnPart(Step(b, e), e.i)
  {
    var c := Step(b, e);
    assert MapFits(b, e.i) && OpFits(b, e.i);
    forall n | n in c.registry && c.registry[n].ctl == e.i ensures EntryFits(c, n) {
      assert EntryFits(b, n);
    }
    forall id | 0 <= id < |c.made| && c.made[id].proxy.ctl == e.i ensures MadeFits(c, id) {
      assert MadeFits(b, id);
    }
  }

  lemma ClosingFits(b: Books, e: Event)
    requires Inv(b) && Enabled(b, e)
    requires e.BeginClose? || e.ExitClose? || e.EndClose?
    ensures OwnPart(Step(b, e), e.i)
  {
    var c := Step(b, e);
    assert MapFits(b, e.i) && OpFits(b, e.i);
    forall n | n in c.registry && c.registry[n].ctl == e.i ensures EntryFits(c, n) {
      assert EntryFits(b, n);
    }
    forall id | 0 <= id < |c.made| && c.made[id].proxy.ctl == e.i ensures MadeFits(c, id) {
      assert MadeFits(b, id);
    }
  }

  lemma StepKeepsInv(b: Books, e: Event)
    requires Inv(b) && Enabled(b, e)
    ensures Inv(Step(b, e))
  {
    StepTouchesOne(b, e);
    match e {
      case Begin(_, _, _) => BeginFits(b, e);
      case BeginClose(_, _) => ClosingFits(b, e);
      case ExitClose(_, _) => ClosingFits(b, e);
      case EndClose(_) => ClosingFits(b, e);
      case Register(_) => RegisteringFits(b, e);
      case CloseLoser(_) => RegisteringFits(b, e);
      case Own(_) => RegisteringFits(b, e);
      case _ => TryingFits(b, e);
    }
    OthersKeepFitting(b, Step(b, e), e.i);
  }

  /** A control that has just logged in holds nothing. */
  lemma NewControlKeepsInv(b: Books)
    requires Inv(b)
    ensures Inv(b.(work := b.work + [Work(Idle, map[], 0)]))
  {
    var c := b.(work := b.work + [Work(Idle, map[], 0)]);
    forall i | 0 <= i < |c.work| ensures MapFits(c, i) && OpFits(c, i) {
      if i < |b.work| {
        assert MapFits(b, i) && OpFits(b, i);
      }
    }
    forall n ensures EntryFits(c, n) {
      assert EntryFits(b, n);
    }
    forall id | 0 <= id < |c.made| ensures MadeFits(c, id) {
      assert MadeFits(b, id);
    }
  }

  // ---- port counting ----

  ghost function SumPorts(m: map<Name, Proxy>): nat
    decreases |m|
  {
    if m == map[] then 0
    else
      var n :| n in m;
      DropOne(m, n);
      m[n].ports + SumPorts(m - {n})
  }

  lemma DropOne(m: map<Name, Proxy>, n: Name)
    requires n in m
    ensures |m - {n}| == |m| - 1
  {
    assert (m - {n}).Keys == m.Keys - {n};
  }

  lemma AddOne(m: map<Name, Proxy>, p: Proxy)
    requires p.name !in m
    ensures |m[p.name := p]| == |m| + 1
    ensures SumPorts(m[p.name := p]) == p.ports + SumPorts(m)
  {
    var m' := m[p.name := p];
    assert m' - {p.name} == m;
    DropOne(m', p.name);
    SumWithout(m', p.name);
  }

  /** The sum does not depend on which proxy is taken out first. */
  lemma {:induction false} SumWithout(m: map<Name, Proxy>, n: Name)
    requires n in m
    ensures SumPorts(m) == m[n].ports + SumPorts(m - {n})
    decreases |m|
  {
    var k :| k in m && SumPorts(m) == m[k].ports + SumPorts(m - {k});
    DropOne(m, k);
    DropOne(m, n);
    if k != n {
      SumWithout(m - {k}, n);
      SumWithout(m - {n}, k);
      assert m - {k} - {n} == m - {n} - {k};
    }
  }

  function OpPorts(op: Op): nat {
    if op.Idle? || op.Closing? then 0 else op.p.ports
  }

  /** The counter equals the ports of everything owned or in flight and respects the
      limit; it stays zero when there is no limit. */
  ghost predicate PortsFit(w: Work, limit: nat) {
    if limit > 0 then w.used == SumPorts(w.proxies) + OpPorts(w.op) && w.used <= limit else w.used == 0
  }

  lemma OwnFits(proxies: map<Name, Proxy>, p: Proxy, used: int, limit: nat)
    requires p.name !in proxies && PortsFit(Work(Counted(p), proxies, used), limit)
    ensures PortsFit(Work(Idle, proxies[p.name := p], used), limit)
  {
    AddOne(proxies, p);
  }

  lemma StepKeepsPorts(b: Books, e: Event)
    requires Inv(b) && Enabled(b, e) && !e.ExitClose?
    requires PortsFit(b.work[e.i], b.limit)
    ensures PortsFit(Step(b, e).work[e.i], b.limit)
  {
    var w := b.work[e.i];
    match e
    case Own(_) =>
      assert OpFits(b, e.i);
      OwnFits(w.proxies, w.op.p, w.used, b.limit);
    case BeginClose(_, name) =>
      if name in w.proxies {
        SumWithout(w.proxies, name);
      }
    case _ =>
  }

  // ---- one registration without interference ----

  ghost predicate Path(b: Books, es: seq<Event>, c: Books)
    decreases |es|
  {
    if es == [] then b == c else Enabled(b, es[0]) && Path(Step(b, es[0]), es[1..], c)
  }

  lemma Then(b: Books, e: Event, es: seq<Event>, c: Books)
    requires Enabled(b, e) && Path(Step(b, e), es, c)
    ensures Path(b, [e] + es, c)
  {
    assert ([e] + es)[1..] == es;
  }

  lemma RegisterRest(b: Books, i: nat) returns (es: seq<Event>, c: Books)
    requires Inv(b) && i < |b.work| && b.work[i].op.Ran?
    ensures Path(b, es, c) && |c.work| == |b.work|
    ensures
      var w, p := b.work[i], b.work[i].op.p;
      if p.name in b.registry then
        c.registry == b.registry && c.work[i] == Work(Idle, w.proxies, w.used - Counting(b.limit, p.ports))
      else
        c.registry == b.registry[p.name := p] && c.work[i] == Work(Idle, w.proxies[p.name := p], w.used)
  {
    var b1 := Step(b, Register(i));
    StepKeepsInv(b, Register(i));
    if b1.work[i].op.Lost? {
      assert OpFits(b1, i);
      var b2 := Step(b1, CloseLoser(i));
      c := Step(b2, Rollback(i));
      Then(b2, Rollback(i), [], c);
      Then(b1, CloseLoser(i), [Rollback(i)], c);
      es := [Register(i)] + ([CloseLoser(i)] + [Rollback(i)]);
      Then(b, Register(i), [CloseLoser(i)] + [Rollback(i)], c);
    } else {
      c := Step(b1, Own(i));
      Then(b1, Own(i), [], c);
      es := [Register(i)] + [Own(i)];
      Then(b, Register(i), [Own(i)], c);
    }
  }

  /** Run back to back, the steps of a registration either install the proxy in both
      maps or give the control and the registry back as they were. */
  lemma RegisterInOneGo(b: Books, i: nat, name: Name, ports: nat, runOk: bool) returns (es: seq<Event>, c: Books)
    requires Inv(b) && i < |b.work| && b.work[i].op.Idle?
    ensures Path(b, es, c) && |c.work| == |b.work|
    ensures
      var w, p := b.work[i], Proxy(|b.made|, name, ports, i);
      if (b.limit == 0 || w.used + ports <= b.limit) && name !in b.registry && runOk then
        && c.registry == b.registry[name := p]
        && c.work[i] == Work(Idle, w.proxies[name := p], w.used + Counting(b.limit, ports))
      else c.registry == b.registry && c.work[i] == w
  {
    var e1 := Begin(i, name, ports);
    var b1 := Step(b, e1);
    StepKeepsInv(b, e1);
    if b1.work[i].op.Idle? {
      es, c := [e1] + [], b1;
      Then(b, e1, [], c);
      return;
    }
    var b2 := Step(b1, CheckExist(i));
    StepKeepsInv(b1, CheckExist(i));
    if b2.work[i].op.Failed? {
      c := Step(b2, Rollback(i));
      es := [Rollback(i)];
      Then(b2, Rollback(i), [], c);
    } else {
      assert OpFits(b2, i);
      var b3 := Step(b2, RunProxy(i, runOk));
      StepKeepsInv(b2, RunProxy(i, runOk));
      if runOk {
        es, c := RegisterRest(b3, i);
      } else {
        c := Step(b3, Rollback(i));
        es := [Rollback(i)];
        Then(b3, Rollback(i), [], c);
      }
      Then(b2, RunProxy(i, runOk), es, c);
      es := [RunProxy(i, runOk)] + es;
    }
    Then(b1, CheckExist(i), es, c);
    es := [CheckExist(i)] + es;
    Then(b, e1, es, c);
    es := [e1] + es;
  }
}
