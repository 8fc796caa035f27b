/** The server as one machine: sessions and registrations of all controls interleave
    step by step. */
module Server {
  import opened Base
  import S = Sessions
  import R = Registrations

  datatype State = State(ss: S.State, bk: R.Books)

  datatype Event = Session(se: S.Event) | Work(we: R.Event)

  function Init(limit: nat): State {
    State(S.Init, R.Books([], map[], [], limit))
  }

  /** Messages are handled by the read loop of a running control, one at a time; the
      worker of a leaving control closes what is left. */
  predicate Enabled(s: State, e: Event) {
    |s.ss.ctls| == |s.bk.work| &&
    match e
    case Session(se) =>
      && S.Enabled(s.ss, se)
      && (se.Leave? ==> s.bk.work[se.i].op.Idle?)
      && (se.Finish? ==> s.bk.work[se.i].op.Idle? && s.bk.work[se.i].proxies == map[])
    case Work(we) =>
      && R.Enabled(s.bk, we)
      && (if we.ExitClose? then s.ss.ctls[we.i].phase.Exiting?
          else if we.EndClose? then S.Live(s.ss.ctls[we.i])
          else s.ss.ctls[we.i].phase.Running?)
  }

  function Step(s: State, e: Event): State
    requires Enabled(s, e)
  {
    match e
    case Session(se) =>
      State(S.Step(s.ss, se),
            if se.Login? then s.bk.(work := s.bk.work + [R.Work(R.Idle, map[], 0)]) else s.bk)
    case Work(we) => s.(bk := R.Step(s.bk, we))
  }

  ghost predicate PhaseFits(s: State, i: nat)
    requires i < |s.ss.ctls| && i < |s.bk.work|
  {
    var w := s.bk.work[i];
    match s.ss.ctls[i].phase
    case Waiting => w == R.Work(R.Idle, map[], 0)
    case Running => R.PortsFit(w, s.bk.limit)
    case Exiting => w.op.Idle? || w.op.Closing?
    case Done => w.op.Idle? && w.proxies == map[]
  }

  ghost predicate Inv(s: State) {
    && S.Inv(s.ss) && R.Inv(s.bk) && |s.ss.ctls| == |s.bk.work|
    && forall i :: 0 <= i < |s.ss.ctls| ==> PhaseFits(s, i)
  }

  lemma StepKeepsInv(s: State, e: Event)
    requires Inv(s) && Enabled(s, e)
    ensures Inv(Step(s, e))
  {
    var t := Step(s, e);
    match e {
      case Session(se) =>
        S.StepKeepsInv(s.ss, se);
        if se.Login? {
          R.NewControlKeepsInv(s.bk);
        }
        SessionStepFits(s, se);
      case Work(we) =>
        R.StepKeepsInv(s.bk, we);
        WorkStepFits(s, we);
    }
  }

  lemma SessionStepFits(s: State, se: S.Event)
    requires Inv(s) && Enabled(s, Session(se))
    ensures forall i :: 0 <= i < |Step(s, Session(se)).ss.ctls| ==> PhaseFits(Step(s, Session(se)), i)
  {
    var t := Step(s, Session(se));
    forall i | 0 <= i < |t.ss.ctls| ensures PhaseFits(t, i) {
      if i < |s.ss.ctls| {
        assert PhaseFits(s, i);
      }
    }
  }

  lemma WorkStepFits(s: State, we: R.Event)
    requires Inv(s) && Enabled(s, Work(we))
    ensures forall i :: 0 <= i < |s.ss.ctls| ==> PhaseFits(Step(s, Work(we)), i)
  {
    var t := Step(s, Work(we));
    R.StepTouchesOne(s.bk, we);
    assert PhaseFits(s, we.i);
    if s.ss.ctls[we.i].phase.Running? {
      R.StepKeepsPorts(s.bk, we);
    }
    forall i | 0 <= i < |t.ss.ctls| ensures PhaseFits(t, i) {
      assert PhaseFits(s, i);
    }
  }

  // ---- runs ----

  ghost predicate Run(s: State, es: seq<Event>, t: State)
    decreases |es|
  {
    if es == [] then s == t else Enabled(s, es[0]) && Run(Step(s, es[0]), es[1..], t)
  }

  lemma {:induction false} RunKeepsInv(s: State, es: seq<Event>, t: State)
    requires Inv(s) && Run(s, es, t)
    ensures Inv(t)
    decreases |es|
  {
    if es != [] {
      StepKeepsInv(s, es[0]);
      RunKeepsInv(Step(s, es[0]), es[1..], t);
    }
  }

  ghost predicate Reachable(s: State) {
    exists limit, es :: Run(Init(limit), es, s)
  }

  lemma ReachableInv(s: State)
    requires Reachable(s)
    ensures Inv(s)
  {
    var limit, es :| Run(Init(limit), es, s);
    RunKeepsInv(Init(limit), es, s);
  }

  /** The session events of a run. */
  function SessionPart(es: seq<Event>): seq<S.Event> {
    if es == [] then []
    else SessionPart(es[..|es| - 1]) + if es[|es| - 1].Session? then [es[|es| - 1].se] else []
  }

  lemma {:induction false} RunInit(s: State, es: seq<Event>, t: State) returns (u: State)
    requires Run(s, es, t) && es != []
    ensures Run(s, es[..|es| - 1], u) && Enabled(u, es[|es| - 1]) && Step(u, es[|es| - 1]) == t
    decreases |es|
  {
    if |es| == 1 {
      u := s;
    } else {
      u := RunInit(Step(s, es[0]), es[1..], t);
      assert es[..|es| - 1][1..] == es[1..][..|es| - 2];
    }
  }

  /** The sessions of the server go through a run of their own, so that what is known about
      those runs holds of the server: who has logged in, in which phase each control is, who
      was disconnected, and where the index leads. */
  lemma {:induction false} SessionsFollow(limit: nat, es: seq<Event>, s: State)
    requires Run(Init(limit), es, s)
    ensures S.After(SessionPart(es)) == Some(s.ss)
    decreases |es|
  {
    if es != [] {
      var u := RunInit(Init(limit), es, s);
      SessionsFollow(limit, es[..|es| - 1], u);
      var (init, e) := (SessionPart(es[..|es| - 1]), es[|es| - 1]);
      assert e.Session? ==> (init + [e.se])[..|init|] == init;
      assert e.Work? ==> SessionPart(es) == init;
    }
  }

  // ---- what every interleaving keeps ----

  /** At most one control of a run id is started and not done; a started control has
      only finished predecessors; the index names the newest control of a run id, and
      a run id without an entry has only finished controls. */
  lemma SessionSafety(s: State)
    requires Reachable(s)
    ensures forall i, j :: 0 <= i < j < |s.ss.ctls| && s.ss.ctls[i].runID == s.ss.ctls[j].runID ==>
      s.ss.ctls[j].phase.Waiting? || s.ss.ctls[i].phase.Done?
    ensures forall r, j :: r in s.ss.index && 0 <= j < |s.ss.ctls| && s.ss.ctls[j].runID == r ==>
      j <= s.ss.index[r] < |s.ss.ctls| && s.ss.ctls[s.ss.index[r]].runID == r
    ensures forall j :: 0 <= j < |s.ss.ctls| && s.ss.ctls[j].runID !in s.ss.index ==> s.ss.ctls[j].phase.Done?
  {
    ReachableInv(s);
    forall i, j | 0 <= i < j < |s.ss.ctls| && s.ss.ctls[i].runID == s.ss.ctls[j].runID
      ensures s.ss.ctls[j].phase.Waiting? || s.ss.ctls[i].phase.Done?
    {
      assert S.Chained(s.ss, j);
    }
    forall j | 0 <= j < |s.ss.ctls| ensures S.IndexedNewest(s.ss, s.ss.ctls[j].runID) {
    }
  }

  ghost predicate Holds(s: State, i: nat, n: R.Name, p: R.Proxy) {
    && i < |s.ss.ctls| && i < |s.bk.work| && S.Live(s.ss.ctls[i])
    && n in R.Held(s.bk.work[i]) && R.Held(s.bk.work[i])[n] == p
  }

  /** The registry is the disjoint union of what the live controls hold: an entry is
      there exactly when the control that made the proxy holds it, and nobody else does. */
  lemma RegistryIsDisjointUnion(s: State, n: R.Name, p: R.Proxy)
    requires Reachable(s)
    ensures (n in s.bk.registry && s.bk.registry[n] == p) <==> Holds(s, p.ctl, n, p)
    ensures forall i, q :: Holds(s, i, n, q) && Holds(s, p.ctl, n, p) ==> i == p.ctl && q == p
  {
    ReachableInv(s);
    assert R.EntryFits(s.bk, n);
    if n in s.bk.registry {
      assert PhaseFits(s, s.bk.registry[n].ctl);
    }
    forall i, q | Holds(s, i, n, q) ensures n in s.bk.registry && s.bk.registry[n] == q && q.ctl == i {
      assert R.MapFits(s.bk, i) && R.OpFits(s.bk, i);
    }
  }

  /** A proxy whose listeners are open is in the hands of a live control, and a proxy
      that is no longer open was closed exactly once. */
  lemma ClosedExactlyOnce(s: State, id: nat)
    requires Reachable(s) && id < |s.bk.made|
    ensures
      var p := s.bk.made[id].proxy;
      && p.ctl < |s.ss.ctls| && p.ctl < |s.bk.work|
      && match s.bk.made[id].life
         case Fresh => !R.InHand(s.bk.work[p.ctl], p)
         case Open => S.Live(s.ss.ctls[p.ctl]) && R.InHand(s.bk.work[p.ctl], p)
         case Shut(times) => times == 1 && !R.InHand(s.bk.work[p.ctl], p)
  {
    ReachableInv(s);
    assert R.MadeFits(s.bk, id);
    var i := s.bk.made[id].proxy.ctl;
    assert R.MapFits(s.bk, i) && R.OpFits(s.bk, i) && PhaseFits(s, i);
  }

  /** A running control has counted exactly the ports it owns or is registering. */
  lemma PortsAreCounted(s: State, i: nat)
    requires Reachable(s) && i < |s.ss.ctls| && s.ss.ctls[i].phase.Running? && s.bk.limit > 0
    ensures i < |s.bk.work|
    ensures s.bk.work[i].used == R.SumPorts(s.bk.work[i].proxies) + R.OpPorts(s.bk.work[i].op) <= s.bk.limit
  {
    ReachableInv(s);
    assert PhaseFits(s, i);
  }

  /** Handover: a running control never finds a proxy of an older session of its own
      run id in the registry; whoever holds a name it is refused is itself or a
      control of another run id. */
  lemma HandoverIsClean(s: State, i: nat, n: R.Name)
    requires Reachable(s) && i < |s.ss.ctls| && s.ss.ctls[i].phase.Running? && n in s.bk.registry
    ensures
      var j := s.bk.registry[n].ctl;
      j < |s.ss.ctls| && (j == i || s.ss.ctls[j].runID != s.ss.ctls[i].runID)
  {
    ReachableInv(s);
    RegistryIsDisjointUnion(s, n, s.bk.registry[n]);
    var j := s.bk.registry[n].ctl;
    assert S.Chained(s.ss, i) && S.Chained(s.ss, j);
  }

  // ---- progress ----

  predicate Indexed(s: S.State, i: nat) {
    i < |s.ctls| && s.ctls[i].runID in s.index && s.index[s.ctls[i].runID] == i
  }

  /** Steps the server takes on its own, without a new login, message or disconnect; a late
      removal counts while it finds the entry of its control. */
  predicate IsCleanup(s: State, e: Event) {
    match e
    case Session(se) => se.Start? || se.Leave? || se.Finish? || (se.Forget? && Indexed(s.ss, se.i))
    case Work(we) => !we.Begin? && !we.BeginClose?
  }

  function OpRank(op: R.Op): nat {
    match op
    case Idle => 0
    case Closing(_) => 1
    case Failed(_) => 1
    case Lost(_) => 2
    case Added(_) => 4
    case Ran(_) => 5
    case Checked(_) => 6
    case Counted(_) => 7
  }

  function WorkRank(w: R.Work): nat {
    3 * |w.proxies| + OpRank(w.op)
  }

  function PhaseRank(p: S.Phase): nat {
    match p
    case Waiting => 3
    case Running => 2
    case Exiting => 1
    case Done => 0
  }

  function Rank(s: State, i: nat): nat
    requires i < |s.ss.ctls| && i < |s.bk.work|
  {
    WorkRank(s.bk.work[i]) + PhaseRank(s.ss.ctls[i].phase) + if Indexed(s.ss, i) then 1 else 0
  }

  function TotalRank(s: State, n: nat): nat
    requires n <= |s.ss.ctls| && n <= |s.bk.work|
  {
    if n == 0 then 0 else TotalRank(s, n - 1) + Rank(s, n - 1)
  }

  function Actor(s: State, e: Event): nat
    requires IsCleanup(s, e)
  {
    match e
    case Session(se) => se.i
    case Work(we) => we.i
  }

  lemma MapStepLowersRank(b: R.Books, we: R.Event)
    requires R.Inv(b) && R.Enabled(b, we) && (we.Own? || we.ExitClose?)
    ensures WorkRank(R.Step(b, we).work[we.i]) < WorkRank(b.work[we.i])
  {
    var w := b.work[we.i];
    if we.Own? {
      assert R.OpFits(b, we.i);
      R.AddOne(w.proxies, w.op.p);
    } else {
      R.DropOne(w.proxies, we.name);
    }
  }

  lemma WorkLowersRank(b: R.Books, we: R.Event)
    requires R.Inv(b) && R.Enabled(b, we) && !we.Begin? && !we.BeginClose?
    ensures WorkRank(R.Step(b, we).work[we.i]) < WorkRank(b.work[we.i])
  {
    if we.Own? || we.ExitClose? {
      MapStepLowersRank(b, we);
    }
  }

  lemma CleanupLowersRank(s: State, e: Event)
    requires Inv(s) && Enabled(s, e) && IsCleanup(s, e)
    ensures |Step(s, e).ss.ctls| == |s.ss.ctls| == |Step(s, e).bk.work|
    ensures Rank(Step(s, e), Actor(s, e)) < Rank(s, Actor(s, e))
    ensures forall i :: 0 <= i < |s.ss.ctls| && i != Actor(s, e) ==> Rank(Step(s, e), i) == Rank(s, i)
  {
    match e
    case Session(_) =>
    case Work(we) =>
      R.StepTouchesOne(s.bk, we);
      WorkLowersRank(s.bk, we);
  }

  lemma {:induction false} TotalRankLower(s: State, t: State, n: nat, a: nat)
    requires |s.ss.ctls| == |t.ss.ctls| == |s.bk.work| == |t.bk.work| && n <= |s.ss.ctls|
    requires a < |s.ss.ctls| && Rank(t, a) < Rank(s, a)
    requires forall i :: 0 <= i < |s.ss.ctls| && i != a ==> Rank(t, i) == Rank(s, i)
    ensures if a < n then TotalRank(t, n) < TotalRank(s, n) else TotalRank(t, n) == TotalRank(s, n)
  {
    if n > 0 {
      TotalRankLower(s, t, n - 1, a);
    }
  }

  ghost predicate CleanupRun(s: State, es: seq<Event>, t: State)
    decreases |es|
  {
    if es == [] then s == t
    else Enabled(s, es[0]) && IsCleanup(s, es[0]) && CleanupRun(Step(s, es[0]), es[1..], t)
  }

  /** Cleaning up always ends: no run of cleanup steps is longer than the rank. */
  lemma {:induction false} CleanupEnds(s: State, es: seq<Event>, t: State)
    requires Inv(s) && CleanupRun(s, es, t)
    ensures |s.ss.ctls| == |s.bk.work| && |es| <= TotalRank(s, |s.ss.ctls|)
    decreases |es|
  {
    if es != [] {
      var u := Step(s, es[0]);
      StepKeepsInv(s, es[0]);
      CleanupLowersRank(s, es[0]);
      TotalRankLower(s, u, |s.ss.ctls|, Actor(s, es[0]));
      CleanupEnds(u, es[1..], t);
    }
  }

  /** A control past waiting that has work left, or whose connection is gone, can step. */
  lemma NotStuck(s: State, i: nat) returns (e: Event)
    requires Inv(s) && i < |s.ss.ctls| && S.Live(s.ss.ctls[i])
    requires s.ss.ctls[i].connClosed || !s.bk.work[i].op.Idle?
    ensures IsCleanup(s, e) && Enabled(s, e)
  {
    assert PhaseFits(s, i) && R.OpFits(s.bk, i) && R.MapFits(s.bk, i);
    var w := s.bk.work[i];
    match w.op {
      case Idle =>
        if s.ss.ctls[i].phase.Running? {
          e := Session(S.Leave(i));
        } else if w.proxies == map[] {
          e := Session(S.Finish(i));
        } else {
          var n :| n in w.proxies;
          e := Work(R.ExitClose(i, n));
        }
      case Counted(_) => e := Work(R.CheckExist(i));
      case Checked(_) => e := Work(R.RunProxy(i, false));
      case Ran(_) => e := Work(R.Register(i));
      case Added(_) => e := Work(R.Own(i));
      case Lost(_) => e := Work(R.CloseLoser(i));
      case Failed(_) => e := Work(R.Rollback(i));
      case Closing(_) => e := Work(R.EndClose(i));
    }
  }

  /** No deadlock: when no cleanup step is left, nobody waits any more. Every control
      is done, or it runs with an open connection and nothing in flight, and then it is
      the newest one of its run id. */
  lemma {:induction false} QuietMeansSettled(s: State, i: nat)
    requires Reachable(s) && forall e :: IsCleanup(s, e) ==> !Enabled(s, e)
    requires i < |s.ss.ctls|
    ensures i < |s.bk.work|
    ensures s.ss.ctls[i].phase.Done?
      || (s.ss.ctls[i].phase.Running? && !s.ss.ctls[i].connClosed && s.bk.work[i].op.Idle?
          && s.ss.ctls[i].runID in s.ss.index && s.ss.index[s.ss.ctls[i].runID] == i)
    decreases i
  {
    ReachableInv(s);
    var c := s.ss.ctls[i];
    assert S.Chained(s.ss, i) && S.IndexedNewest(s.ss, c.runID);
    if c.phase.Waiting? {
      if c.prior.Some? {
        QuietMeansSettled(s, c.prior.value);
      }
      assert Enabled(s, Session(S.Start(i)));
    } else if S.Live(c) && (c.connClosed || !s.bk.work[i].op.Idle?) {
      var e := NotStuck(s, i);
    }
  }

  predicate RunsUnder(s: State, i: int, r: S.RunID) {
    0 <= i < |s.ss.ctls| && s.ss.ctls[i].runID == r && s.ss.ctls[i].phase.Running?
  }

  lemma ForgetIsDue(s: State, i: nat)
    requires |s.ss.ctls| == |s.bk.work| && i < |s.ss.ctls|
    ensures s.ss.ctls[i].phase.Done? && Indexed(s.ss, i) ==>
      IsCleanup(s, Session(S.Forget(i))) && Enabled(s, Session(S.Forget(i)))
  {
  }

  /** And the index then names exactly the run ids with a running control. */
  lemma QuietIndexIsExact(s: State, r: S.RunID)
    requires Reachable(s) && forall e :: IsCleanup(s, e) ==> !Enabled(s, e)
    ensures r in s.ss.index <==> exists i :: RunsUnder(s, i, r)
  {
    ReachableInv(s);
    assert S.IndexedNewest(s.ss, r);
    if r in s.ss.index {
      var i := s.ss.index[r];
      QuietMeansSettled(s, i);
      ForgetIsDue(s, i);
      assert RunsUnder(s, i, r);
    }
    if i :| RunsUnder(s, i, r) {
      QuietMeansSettled(s, i);
    }
  }
}
