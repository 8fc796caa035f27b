/** Control sessions on the server: login, replacement of an older session with the
    same run id, waiting for it, starting, leaving and the delayed removal from the
    index. Controls are numbered in the order in which they logged in; every step is
    one critical section of the server. */
module Sessions {
  import opened Base

  type RunID = string

  datatype Phase = Waiting | Running | Exiting | Done

  datatype Session = Session(runID: RunID, prior: Option<nat>, phase: Phase, connClosed: bool)

  datatype State = State(ctls: seq<Session>, index: map<RunID, nat>)

  datatype Event =
    | Login(runID: RunID)   // ControlManager.Add, which also replaces the old control
    | Start(i: nat)         // the wait for the old control is over
    | ConnLost(i: nat)      // the peer or the heartbeat closes the connection
    | Leave(i: nat)         // the read loop has ended, the worker cleans up
    | Finish(i: nat)        // the worker closes doneCh
    | Forget(i: nat)        // ControlManager.Del after doneCh is closed

  const Init := State([], map[])

  predicate Enabled(s: State, e: Event) {
    match e
    case Login(r) => r in s.index ==> s.index[r] < |s.ctls|
    case Start(i) =>
      i < |s.ctls| && s.ctls[i].phase.Waiting?
      && (s.ctls[i].prior.Some? ==>
            s.ctls[i].prior.value < |s.ctls| && s.ctls[s.ctls[i].prior.value].phase.Done?)
    case ConnLost(i) => i < |s.ctls|
    case Leave(i) => i < |s.ctls| && s.ctls[i].phase.Running? && s.ctls[i].connClosed
    case Finish(i) => i < |s.ctls| && s.ctls[i].phase.Exiting?
    case Forget(i) => i < |s.ctls| && s.ctls[i].phase.Done?
  }

  function WithPhase(s: State, i: nat, p: Phase): State
    requires i < |s.ctls|
  {
    s.(ctls := s.ctls[i := s.ctls[i].(phase := p)])
  }

  function Hangup(ctls: seq<Session>, i: nat): seq<Session>
    requires i < |ctls|
  {
    ctls[i := ctls[i].(connClosed := true)]
  }

  function Step(s: State, e: Event): State
    requires Enabled(s, e)
  {
    match e
    case Login(r) =>
      if r in s.index then
        State(Hangup(s.ctls, s.index[r]) + [Session(r, Some(s.index[r]), Waiting, false)], s.index[r := |s.ctls|])
      else
        State(s.ctls + [Session(r, None, Waiting, false)], s.index[r := |s.ctls|])
    case Start(i) => WithPhase(s, i, Running)
    case ConnLost(i) => s.(ctls := Hangup(s.ctls, i))
    case Leave(i) => WithPhase(s, i, Exiting)
    case Finish(i) => WithPhase(s, i, Done)
    case Forget(i) =>
      var r := s.ctls[i].runID;
      if r in s.index && s.index[r] == i then s.(index := s.index - {r}) else s
  }

  predicate Live(c: Session) {
    c.phase.Running? || c.phase.Exiting?
  }

  // ---- the invariant ----

  ghost predicate AllDoneBefore(s: State, r: RunID, n: int) {
    forall j :: 0 <= j < n && j < |s.ctls| && s.ctls[j].runID == r ==> s.ctls[j].phase.Done?
  }

  ghost predicate NoneBetween(s: State, r: RunID, lo: int, hi: int) {
    forall j :: lo < j < hi && 0 <= j < |s.ctls| ==> s.ctls[j].runID != r
  }

  /** A waiting control waits for the control just before it with the same run id; a
      control past waiting has only finished predecessors. */
  ghost predicate Chained(s: State, i: int)
    requires 0 <= i < |s.ctls|
  {
    var c := s.ctls[i];
    && (!c.phase.Waiting? ==> AllDoneBefore(s, c.runID, i))
    && match c.prior
       case None => AllDoneBefore(s, c.runID, i)
       case Some(j) => j < i && s.ctls[j].runID == c.runID && NoneBetween(s, c.runID, j, i)
  }

  /** The index entry of a run id is its newest control, and all older ones have been
      told to go; with no entry everything under the run id is over. */
  ghost predicate IndexedNewest(s: State, r: RunID) {
    if r in s.index then
      && s.index[r] < |s.ctls| && s.ctls[s.index[r]].runID == r
      && NoneBetween(s, r, s.index[r], |s.ctls|)
      && forall j :: 0 <= j < s.index[r] && s.ctls[j].runID == r ==> s.ctls[j].connClosed || s.ctls[j].phase.Done?
    else AllDoneBefore(s, r, |s.ctls|)
  }

  ghost predicate Inv(s: State) {
    && (forall i :: 0 <= i < |s.ctls| ==> Chained(s, i))
    && (forall r :: IndexedNewest(s, r))
    && (forall i :: 0 <= i < |s.ctls| && s.ctls[i].phase.Exiting? ==> s.ctls[i].connClosed)
  }

  lemma LoginKeepsInv(s: State, r: RunID)
    requires Inv(s)
    ensures Enabled(s, Login(r)) && Inv(Step(s, Login(r)))
  {
    assert IndexedNewest(s, r);
    var t := Step(s, Login(r));
    forall i | 0 <= i < |t.ctls| ensures Chained(t, i) {
      if i < |s.ctls| {
        assert Chained(s, i);
      }
    }
    forall q ensures IndexedNewest(t, q) {
      assert IndexedNewest(s, q);
    }
  }

  /** Steps that keep run ids and links, and move no control back from Done. */
  ghost predicate Forward(s: State, t: State) {
    && |t.ctls| == |s.ctls|
    && forall i :: 0 <= i < |s.ctls| ==>
        && t.ctls[i].runID == s.ctls[i].runID && t.ctls[i].prior == s.ctls[i].prior
        && (s.ctls[i].phase.Done? ==> t.ctls[i].phase.Done?)
        && (s.ctls[i].connClosed ==> t.ctls[i].connClosed)
  }

  lemma ForwardKeepsChain(s: State, t: State, i: int)
    requires Forward(s, t) && 0 <= i < |s.ctls| && Chained(s, i)
    requires s.ctls[i].phase.Waiting? && !t.ctls[i].phase.Waiting? ==> AllDoneBefore(s, s.ctls[i].runID, i)
    requires t.ctls[i].phase.Waiting? ==> s.ctls[i].phase.Waiting?
    ensures Chained(t, i)
  {
  }

  lemma ForwardKeepsIndex(s: State, t: State, r: RunID)
    requires Forward(s, t) && IndexedNewest(s, r)
    requires r in s.index <==> r in t.index
    requires r in s.index ==> s.index[r] == t.index[r]
    ensures IndexedNewest(t, r)
  {
  }

  lemma PhaseStepKeepsInv(s: State, e: Event)
    requires Inv(s) && Enabled(s, e) && !e.Login? && !e.Forget?
    ensures Inv(Step(s, e))
  {
    var t := Step(s, e);
    assert Forward(s, t);
    forall i | 0 <= i < |t.ctls| ensures Chained(t, i) {
      assert Chained(s, i);
      if e.Start? && e.i == i && s.ctls[i].prior.Some? {
        var j := s.ctls[i].prior.value;
        assert Chained(s, j);
      }
      ForwardKeepsChain(s, t, i);
    }
    forall r ensures IndexedNewest(t, r) {
      assert IndexedNewest(s, r);
      ForwardKeepsIndex(s, t, r);
    }
  }

  lemma ForgetKeepsInv(s: State, i: nat)
    requires Inv(s) && Enabled(s, Forget(i))
    ensures Inv(Step(s, Forget(i)))
  {
    var t := Step(s, Forget(i));
    assert Chained(s, i);
    forall k | 0 <= k < |t.ctls| ensures Chained(t, k) {
      assert Chained(s, k);
    }
    forall r ensures IndexedNewest(t, r) {
      assert IndexedNewest(s, r);
    }
  }

  lemma StepKeepsInv(s: State, e: Event)
    requires Inv(s) && Enabled(s, e)
    ensures Inv(Step(s, e))
  {
    match e
    case Login(r) => LoginKeepsInv(s, r);
    case Forget(i) => ForgetKeepsInv(s, i);
    case _ => PhaseStepKeepsInv(s, e);
  }

  /** At most one control of a run id has been started and is not yet done. */
  lemma OneLivePerRunID(s: State, i: nat, j: nat)
    requires Inv(s) && i < |s.ctls| && j < |s.ctls|
    requires s.ctls[i].runID == s.ctls[j].runID && Live(s.ctls[i]) && Live(s.ctls[j])
    ensures i == j
  {
    assert Chained(s, i) && Chained(s, j);
  }

  // ---- what a run has done to each control ----

  /** The state after the events, if each of them could take place. */
  function After(es: seq<Event>): Option<State> {
    if es == [] then Some(Init)
    else
      var (before, e) := (After(es[..|es| - 1]), es[|es| - 1]);
      if before.Some? && Enabled(before.value, e) then Some(Step(before.value, e)) else None
  }

  /** The run ids of the logins, in order. */
  function Logins(es: seq<Event>): seq<RunID> {
    if es == [] then []
    else Logins(es[..|es| - 1]) + if es[|es| - 1].Login? then [es[|es| - 1].runID] else []
  }

  /** The k-th event disconnects control i: the peer or the heartbeat does, or a new login
      finds it in the index. */
  ghost predicate Disconnects(es: seq<Event>, k: int, i: nat) {
    0 <= k < |es| &&
    match es[k]
    case ConnLost(j) => j == i
    case Login(r) =>
      var before := After(es[..k]);
      before.Some? && r in before.value.index && before.value.index[r] == i
    case _ => false
  }

  ghost predicate Disconnected(es: seq<Event>, i: nat) {
    exists k :: Disconnects(es, k, i)
  }

  lemma DisconnectedStep(es: seq<Event>, e: Event, i: nat)
    ensures Disconnected(es + [e], i) <==> Disconnected(es, i) || Disconnects(es + [e], |es|, i)
  {
    forall k | 0 <= k < |es| ensures Disconnects(es + [e], k, i) <==> Disconnects(es, k, i) {
      assert (es + [e])[..k] == es[..k];
    }
  }

  /** The phase that the events have brought control i to. */
  function PhaseBy(es: seq<Event>, i: nat): Phase {
    if Finish(i) in es then Done else if Leave(i) in es then Exiting else if Start(i) in es then Running else Waiting
  }

  ghost predicate ControlFits(es: seq<Event>, s: State, i: nat)
    requires |Logins(es)| == |s.ctls| && i < |s.ctls|
  {
    var c := s.ctls[i];
    && c.runID == Logins(es)[i] && c.phase == PhaseBy(es, i)
    && (c.connClosed <==> Disconnected(es, i))
  }

  /** No event speaks of a control that has not logged in. */
  ghost predicate NoneYet(es: seq<Event>, i: nat) {
    Start(i) !in es && Leave(i) !in es && Finish(i) !in es && Forget(i) !in es && !Disconnected(es, i)
  }

  ghost predicate HistoryFits(es: seq<Event>, s: State) {
    && |Logins(es)| == |s.ctls|
    && (forall i: nat :: if i < |s.ctls| then ControlFits(es, s, i) else NoneYet(es, i))
    && (forall r :: r in s.index ==> s.index[r] < |s.ctls|)
  }

  lemma HistoryStep(es: seq<Event>, s: State, e: Event, i: nat)
    requires After(es) == Some(s) && HistoryFits(es, s) && Enabled(s, e)
    ensures
      var (fs, t) := (es + [e], Step(s, e));
      |Logins(fs)| == |t.ctls| && if i < |t.ctls| then ControlFits(fs, t, i) else NoneYet(fs, i)
  {
    var fs := es + [e];
    assert fs[..|es|] == es;
    DisconnectedStep(es, e, i);
    if i < |s.ctls| {
      assert ControlFits(es, s, i);
    } else {
      assert NoneYet(es, i);
    }
  }

  lemma {:induction false} RunFitsHistory(es: seq<Event>)
    requires After(es).Some?
    ensures HistoryFits(es, After(es).value)
    decreases |es|
  {
    if es == [] {
    } else {
      var (before, e) := (es[..|es| - 1], es[|es| - 1]);
      RunFitsHistory(before);
      assert before + [e] == es;
      forall i: nat ensures
        |Logins(es)| == |After(es).value.ctls|
        && if i < |After(es).value.ctls| then ControlFits(es, After(es).value, i) else NoneYet(es, i)
      {
        HistoryStep(before, After(before).value, e, i);
      }
    }
  }

  /** Over every run: the controls are the logins in order, each under its own run id and in
      the phase that its starting, leaving and finishing have brought it to; and a control is
      disconnected if and only if its connection was lost or a later login found it in the
      index. */
  lemma HistoryIsKnown(es: seq<Event>, s: State, i: nat)
    requires After(es) == Some(s) && i < |s.ctls|
    ensures |s.ctls| == |Logins(es)| && s.ctls[i].runID == Logins(es)[i]
    ensures s.ctls[i].phase == PhaseBy(es, i)
    ensures s.ctls[i].connClosed <==> Disconnected(es, i)
  {
    RunFitsHistory(es);
    assert ControlFits(es, s, i);
  }

  /** Control i is the last one that logged in under the run id. */
  predicate LastLogin(logins: seq<RunID>, r: RunID, i: nat) {
    i < |logins| && logins[i] == r && forall j :: i < j < |logins| ==> logins[j] != r
  }

  ghost predicate EntryFits(es: seq<Event>, s: State, r: RunID, i: nat) {
    (r in s.index && s.index[r] == i) <==> LastLogin(Logins(es), r, i) && Forget(i) !in es
  }

  lemma LastLoginStep(logins: seq<RunID>, q: RunID, r: RunID, i: nat)
    ensures LastLogin(logins + [q], r, i) <==>
      if i == |logins| then q == r else LastLogin(logins, r, i) && q != r
  {
    var more := logins + [q];
    if LastLogin(logins, r, i) && q != r {
      assert forall j :: i < j < |more| ==> more[j] == if j < |logins| then logins[j] else q;
    }
    if LastLogin(more, r, i) && i < |logins| {
      assert more[|logins|] == q && forall j :: i < j < |logins| ==> more[j] == logins[j];
    }
  }

  lemma EntryStep(es: seq<Event>, s: State, e: Event, r: RunID, i: nat)
    requires After(es) == Some(s) && HistoryFits(es, s) && Enabled(s, e)
    requires EntryFits(es, s, r, i)
    ensures EntryFits(es + [e], Step(s, e), r, i)
  {
    var fs := es + [e];
    assert fs[..|es|] == es && Logins(fs) == if e.Login? then Logins(es) + [e.runID] else Logins(es);
    assert Forget(i) in fs <==> Forget(i) in es || e == Forget(i);
    if i < |s.ctls| {
      assert ControlFits(es, s, i);
    } else {
      assert NoneYet(es, i);
    }
    match e
    case Login(q) => LastLoginStep(Logins(es), q, r, i);
    case Forget(j) => assert ControlFits(es, s, j);
    case _ =>
  }

  lemma {:induction false} EntriesFit(es: seq<Event>)
    requires After(es).Some?
    ensures forall r, i: nat :: EntryFits(es, After(es).value, r, i)
    decreases |es|
  {
    if es != [] {
      var (before, e) := (es[..|es| - 1], es[|es| - 1]);
      EntriesFit(before);
      RunFitsHistory(before);
      assert before + [e] == es;
      forall r, i: nat ensures EntryFits(es, After(es).value, r, i) {
        assert EntryFits(before, After(before).value, r, i);
        EntryStep(before, After(before).value, e, r, i);
      }
    }
  }

  /** Over every run: the index leads to a control if and only if that one is the last to log
      in under its run id and has not been forgotten. */
  lemma IndexIsKnown(es: seq<Event>, s: State, r: RunID, i: nat)
    requires After(es) == Some(s)
    ensures (r in s.index && s.index[r] == i) <==> LastLogin(Logins(es), r, i) && Forget(i) !in es
  {
    EntriesFit(es);
    assert EntryFits(es, s, r, i);
  }
}
