/** When a wrapper tries to start its proxy: read off the events of a run and the messages
    sent, without looking into the wrapper. */
module ClientRetries {
  import opened Base
  import opened ProxyWrapper
  import opened ClientServer

  /** The state after the events, if each of them could take place. */
  function After(es: seq<Event>): Option<State> {
    if es == [] then Some(Init)
    else
      var (before, e) := (After(es[..|es| - 1]), es[|es| - 1]);
      if before.Some? && Enabled(before.value, e) then Some(Step(before.value, e)) else None
  }

  lemma {:induction false} RunThen(s: State, es: seq<Event>, t: State, e: Event)
    requires Run(s, es, t) && Enabled(t, e)
    ensures Run(s, es + [e], Step(t, e))
    decreases |es|
  {
    if es == [] {
      assert Run(Step(s, e), [], Step(t, e)) && ([] + [e])[1..] == [];
    } else {
      RunThen(Step(s, es[0]), es[1..], t, e);
      assert (es + [e])[1..] == es[1..] + [e];
    }
  }

  lemma {:induction false} RunInit(s: State, es: seq<Event>, t: State) returns (u: State)
    requires Run(s, es, t) && es != []
    ensures Run(s, es[..|es| - 1], u) && Enabled(u, es[|es| - 1]) && Step(u, es[|es| - 1]) == t
    decreases |es|
  {
    if |es| == 1 {
      u := s;
    } else {
      u := RunInit(Step(s, es[0]), es[1..], t);
      assert es[..|es| - 1][1..] == es[1..][..|es| - 2];
    }
  }

  lemma {:induction false} AfterIsRun(es: seq<Event>, t: State)
    ensures After(es) == Some(t) <==> Run(Init, es, t)
    decreases |es|
  {
    if es != [] {
      var (before, e) := (es[..|es| - 1], es[|es| - 1]);
      assert before + [e] == es;
      if Run(Init, es, t) {
        var u := RunInit(Init, es, t);
        AfterIsRun(before, u);
      }
      if After(es) == Some(t) {
        AfterIsRun(before, After(before).value);
        RunThen(Init, before, After(before).value, e);
      }
    }
  }

  // ---- what the events say about wrapper i ----

  function Installs(es: seq<Event>): nat {
    if es == [] then 0 else Installs(es[..|es| - 1]) + if es[|es| - 1].Install? then 1 else 0
  }

  /** The last health report of the wrapper, or else how it was installed. */
  predicate Failing(es: seq<Event>, i: nat) {
    es != [] &&
    var (before, e) := (es[..|es| - 1], es[|es| - 1]);
    match e
    case Health(j, failed) => if j == i then failed else Failing(before, i)
    case Install(healthCheck) => if Installs(before) == i then healthCheck else Failing(before, i)
    case _ => Failing(before, i)
  }

  /** What the last event has sent. */
  function News(es: seq<Event>): seq<Sent>
    requires es != []
  {
    var (u, t) := (After(es[..|es| - 1]), After(es));
    if u.Some? && t.Some? && u.value.sent <= t.value.sent then t.value.sent[|u.value.sent|..] else []
  }

  /** The last event hands an answer to the wrapper. */
  predicate Delivers(es: seq<Event>, i: nat)
    requires es != []
  {
    var u := After(es[..|es| - 1]);
    es[|es| - 1].Deliver? && u.Some? && u.value.delivering.Some? && u.value.delivering.value.0 == i
  }

  /** It is an error, or the local proxy does not start. */
  predicate DeliversError(es: seq<Event>, i: nat)
    requires es != []
  {
    Delivers(es, i) && (After(es[..|es| - 1]).value.delivering.value.1 || !es[|es| - 1].runOk)
  }

  /** The phase that the events and messages have brought the wrapper to. */
  function PhaseBy(es: seq<Event>, i: nat): Phase {
    if es == [] then New
    else
      var (before, e) := (es[..|es| - 1], es[|es| - 1]);
      var was := PhaseBy(before, i);
      match e
      case Tick(j, _) =>
        if j != i || News(es) == [] then was else if News(es)[0].msg.NewProxy? then WaitStart else CheckFailed
      case Deliver(_, _) =>
        if !Delivers(es, i) || !was.WaitStart? then was else if DeliversError(es, i) then StartErr else Running
      case Remove => if After(before).Some? && After(before).value.current == Some(i) then Closed else was
      case _ => was
  }

  /** The wrapper sends NewProxy. */
  predicate Sends(es: seq<Event>, i: nat)
    requires es != []
  {
    es[|es| - 1].Tick? && es[|es| - 1].i == i && News(es) == [Sent(i, NewProxy)]
  }

  /** The wrapper, waiting for an answer, gets an error. */
  predicate Errs(es: seq<Event>, i: nat)
    requires es != []
  {
    PhaseBy(es[..|es| - 1], i).WaitStart? && DeliversError(es, i)
  }

  /** The time of its last NewProxy. */
  function LastSend(es: seq<Event>, i: nat): Option<int> {
    if es == [] then None else if Sends(es, i) then Some(es[|es| - 1].now) else LastSend(es[..|es| - 1], i)
  }

  /** The time of its last error. */
  function LastError(es: seq<Event>, i: nat): Option<int> {
    if es == [] then None else if Errs(es, i) then Some(es[|es| - 1].now) else LastError(es[..|es| - 1], i)
  }

  ghost predicate WrapperKnown(es: seq<Event>, s: State, i: nat) {
    if i >= |s.wrappers| then PhaseBy(es, i).New? && !Failing(es, i) && s.current != Some(i)
    else
      var w := s.wrappers[i];
      && w.phase == PhaseBy(es, i) && w.unhealthy == Failing(es, i)
      && (w.phase.WaitStart? ==> LastSend(es, i) == Some(w.lastSendStartMsg))
      && (w.phase.StartErr? ==> LastError(es, i) == Some(w.lastStartErr))
  }

  ghost predicate Known(es: seq<Event>, s: State) {
    && Installs(es) == |s.wrappers|
    && (s.delivering.Some? ==> s.delivering.value.0 < |s.wrappers|)
    && (s.current.Some? ==> s.current.value < |s.wrappers|)
    && forall i: nat :: WrapperKnown(es, s, i)
  }

  lemma TickKnown(es: seq<Event>, s: State, e: Event, i: nat)
    requires After(es) == Some(s) && Known(es, s) && e.Tick? && Enabled(s, e)
    ensures WrapperKnown(es + [e], Step(s, e), i)
  {
    var fs := es + [e];
    assert fs[..|es|] == es && WrapperKnown(es, s, i);
    assert News(fs) == Tagged(e.i, Check(s.wrappers[e.i], e.now).sent);
  }

  lemma DeliverKnown(es: seq<Event>, s: State, e: Event, i: nat)
    requires After(es) == Some(s) && Known(es, s) && e.Deliver? && Enabled(s, e)
    ensures WrapperKnown(es + [e], Step(s, e), i)
  {
    var fs := es + [e];
    assert fs[..|es|] == es && WrapperKnown(es, s, i);
  }

  lemma OtherKnown(es: seq<Event>, s: State, e: Event, i: nat)
    requires After(es) == Some(s) && Known(es, s) && !e.Tick? && !e.Deliver? && Enabled(s, e)
    ensures WrapperKnown(es + [e], Step(s, e), i)
  {
    var fs := es + [e];
    assert fs[..|es|] == es && WrapperKnown(es, s, i);
  }

  lemma StepKnown(es: seq<Event>, s: State, e: Event)
    requires After(es) == Some(s) && Known(es, s) && Enabled(s, e)
    ensures Known(es + [e], Step(s, e))
  {
    assert (es + [e])[..|es|] == es;
    forall i: nat ensures WrapperKnown(es + [e], Step(s, e), i) {
      match e
      case Tick(_, _) => TickKnown(es, s, e, i);
      case Deliver(_, _) => DeliverKnown(es, s, e, i);
      case _ => OtherKnown(es, s, e, i);
    }
  }

  lemma {:induction false} AfterKnown(es: seq<Event>)
    requires After(es).Some?
    ensures Known(es, After(es).value)
    decreases |es|
  {
    if es != [] {
      var before := es[..|es| - 1];
      AfterKnown(before);
      assert before + [es[|es| - 1]] == es;
      StepKnown(before, After(before).value, es[|es| - 1]);
    }
  }

  /** Over every run: the events and messages tell the phase and the health of every wrapper,
      when a waiting one has sent its last NewProxy, and when a failed one got its error. */
  lemma PhasesAreKnown(es: seq<Event>, s: State, i: nat)
    requires Run(Init, es, s) && i < |s.wrappers|
    ensures s.wrappers[i].phase == PhaseBy(es, i) && s.wrappers[i].unhealthy == Failing(es, i)
    ensures s.wrappers[i].phase.WaitStart? ==> LastSend(es, i) == Some(s.wrappers[i].lastSendStartMsg)
    ensures s.wrappers[i].phase.StartErr? ==> LastError(es, i) == Some(s.wrappers[i].lastStartErr)
  {
    AfterIsRun(es, s);
    AfterKnown(es);
    assert WrapperKnown(es, s, i);
  }

  /** It is time to start: nothing has been sent, or the check has failed, or 20 seconds have
      gone by since the last NewProxy or 30 since the error. */
  predicate Due(es: seq<Event>, i: nat, now: int) {
    match PhaseBy(es, i)
    case New => true
    case CheckFailed => true
    case WaitStart => LastSend(es, i).Some? && now > LastSend(es, i).value + 20
    case StartErr => LastError(es, i).Some? && now > LastError(es, i).value + 30
    case _ => false
  }

  /** The retry law. In every run, a turn of a wrapper's worker sends NewProxy if and only if
      the wrapper is healthy and it is time to start, CloseProxy if and only if it is
      unhealthy and was waiting or running, and nothing otherwise. */
  lemma TickSends(es: seq<Event>, s: State, i: nat, now: int)
    requires Run(Init, es, s) && i < |s.wrappers|
    ensures
      var (failing, phase) := (Failing(es, i), PhaseBy(es, i));
      Step(s, Tick(i, now)).sent == s.sent +
        if !failing && Due(es, i, now) then [Sent(i, NewProxy)]
        else if failing && (phase.WaitStart? || phase.Running?) then [Sent(i, CloseProxy)]
        else []
  {
    PhasesAreKnown(es, s, i);
  }

  // ---- nothing stays refused ----

  predicate Startable(p: Phase) {
    p.New? || p.CheckFailed? || p.StartErr?
  }

  /** Until a healthy wrapper that is not waiting and not running tries again, nothing changes
      about it. */
  lemma StaysOrStarts(s: State, e: Event, i: nat)
    requires Enabled(s, e) && i < |s.wrappers| && Startable(s.wrappers[i].phase) && !s.wrappers[i].unhealthy
    requires !Interrupts(e, i)
    ensures
      var t := Step(s, e);
      && i < |t.wrappers|
      && (t.wrappers[i] == s.wrappers[i] || (e.Tick? && e.i == i && t.sent == s.sent + [Sent(i, NewProxy)]))
  {
  }

  /** The n-th event of a run makes the wrapper send NewProxy. */
  ghost predicate SendsAt(s: State, es: seq<Event>, i: nat, n: int)
    decreases |es|
  {
    0 <= n < |es| && Enabled(s, es[0]) &&
    if n == 0 then es[0].Tick? && es[0].i == i && Step(s, es[0]).sent == s.sent + [Sent(i, NewProxy)]
    else SendsAt(Step(s, es[0]), es[1..], i, n - 1)
  }

  lemma {:induction false} StartsAgain(s: State, es: seq<Event>, t: State, i: nat, m: nat) returns (n: nat)
    requires Run(s, es, t) && i < |s.wrappers| && Startable(s.wrappers[i].phase) && !s.wrappers[i].unhealthy
    requires forall k :: 0 <= k < |es| ==> !Interrupts(es[k], i)
    requires m < |es| && es[m].Tick? && es[m].i == i
    requires s.wrappers[i].phase.StartErr? ==> es[m].now > s.wrappers[i].lastStartErr + 30
    ensures n <= m && SendsAt(s, es, i, n)
    decreases |es|
  {
    StaysOrStarts(s, es[0], i);
    if Step(s, es[0]).wrappers[i] == s.wrappers[i] && m > 0 {
      n := StartsAgain(Step(s, es[0]), es[1..], t, i, m - 1);
      n := n + 1;
    } else {
      n := 0;
    }
  }

  /** Nobody stays refused: once the worker of a healthy wrapper that is new, has failed its
      check or shows a start error takes a turn, in the last case more than 30 seconds after
      the error, NewProxy has been sent again, whatever else happened, unless the wrapper was
      stopped or failed its health check. */
  lemma HealthyStartsAgain(before: seq<Event>, s: State, es: seq<Event>, t: State, i: nat, m: nat) returns (n: nat)
    requires Run(Init, before, s) && Run(s, es, t) && i < |s.wrappers|
    requires Startable(PhaseBy(before, i)) && !Failing(before, i)
    requires forall k :: 0 <= k < |es| ==> !Interrupts(es[k], i)
    requires m < |es| && es[m].Tick? && es[m].i == i
    requires PhaseBy(before, i).StartErr? ==>
      LastError(before, i).Some? && es[m].now > LastError(before, i).value + 30
    ensures n <= m && SendsAt(s, es, i, n)
  {
    PhasesAreKnown(before, s, i);
    n := StartsAgain(s, es, t, i, m);
  }

  /** A wrapper that waits asks again more than 20 seconds after its last NewProxy, if no answer
      is delivered meanwhile. */
  lemma WaitingAsksAgain(before: seq<Event>, s: State, es: seq<Event>, t: State, i: nat, m: nat) returns (n: nat)
    requires Run(Init, before, s) && Run(s, es, t) && i < |s.wrappers|
    requires PhaseBy(before, i).WaitStart? && !Failing(before, i)
    requires forall k :: 0 <= k < |es| ==> !Interrupts(es[k], i) && !es[k].Deliver?
    requires m < |es| && es[m].Tick? && es[m].i == i
    requires LastSend(before, i).Some? && es[m].now > LastSend(before, i).value + 20
    ensures n <= m && SendsAt(s, es, i, n)
  {
    PhasesAreKnown(before, s, i);
    n := AsksAgain(s, es, t, i, m);
  }

  lemma {:induction false} AsksAgain(s: State, es: seq<Event>, t: State, i: nat, m: nat) returns (n: nat)
    requires Run(s, es, t) && i < |s.wrappers| && s.wrappers[i].phase.WaitStart? && !s.wrappers[i].unhealthy
    requires forall k :: 0 <= k < |es| ==> !Interrupts(es[k], i) && !es[k].Deliver?
    requires m < |es| && es[m].Tick? && es[m].i == i && es[m].now > s.wrappers[i].lastSendStartMsg + 20
    ensures n <= m && SendsAt(s, es, i, n)
    decreases |es|
  {
    if Step(s, es[0]).wrappers[i] == s.wrappers[i] && m > 0 {
      n := AsksAgain(Step(s, es[0]), es[1..], t, i, m - 1);
      n := n + 1;
    } else {
      n := 0;
    }
  }
}
