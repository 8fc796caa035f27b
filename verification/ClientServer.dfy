/** All wrappers of one proxy name, one after the other, composed with the server's
    control over two first-in first-out queues. */
module ClientServer {
  import opened Base
  import opened ProxyWrapper

  datatype Sent = Sent(from: nat, msg: Message)

  /** up: messages the server has not handled; down: answers the client has not read
      (true is an error); delivering: an answer read and matched to a wrapper by name;
      held: the server's control owns the name; sent: all messages ever sent; read: all
      answers the client has read. */
  datatype State = State(
    wrappers: seq<Status>,
    current: Option<nat>,
    up: seq<Message>,
    down: seq<bool>,
    delivering: Option<(nat, bool)>,
    held: bool,
    sent: seq<Sent>,
    read: seq<bool>)

  datatype Event =
    | Install(healthCheck: bool)         // UpdateAll starts a wrapper
    | Remove                             // UpdateAll or Close stops the wrapper
    | Tick(i: nat, now: int)             // one turn of a checkWorker, stopped wrappers included
    | Health(i: nat, failed: bool)
    | Serve(accept: bool)                // the server handles the next message
    | Lookup                             // the client reads an answer and finds the wrapper
    | Deliver(runOk: bool, now: int)     // SetRunningStatus on that wrapper

  const Init := State([], None, [], [], None, false, [], [])

  predicate Enabled(s: State, e: Event) {
    match e
    case Install(_) => s.current.None?
    case Remove => s.current.Some? && s.current.value < |s.wrappers|
    case Tick(i, _) => i < |s.wrappers|
    case Health(i, _) => i < |s.wrappers|
    case Serve(accept) => s.up != [] && (accept ==> s.up[0].NewProxy? && !s.held)
    case Lookup => s.down != [] && s.delivering.None?
    case Deliver(_, _) => s.delivering.Some? && s.delivering.value.0 < |s.wrappers|
  }

  function Tagged(from: nat, ms: seq<Message>): seq<Sent> {
    seq(|ms|, k requires 0 <= k < |ms| => Sent(from, ms[k]))
  }

  function After(s: State, i: nat, o: Outcome): State
    requires i < |s.wrappers|
  {
    s.(wrappers := s.wrappers[i := o.status], up := s.up + o.sent, sent := s.sent + Tagged(i, o.sent))
  }

  function Step(s: State, e: Event): State
    requires Enabled(s, e)
  {
    match e
    case Install(h) =>
      s.(wrappers := s.wrappers + [Status(New, 0, 0, h)], current := Some(|s.wrappers|))
    case Remove => After(s, s.current.value, Stopped(s.wrappers[s.current.value])).(current := None)
    case Tick(i, now) => After(s, i, Check(s.wrappers[i], now))
    case Health(i, failed) => s.(wrappers := s.wrappers[i := s.wrappers[i].(unhealthy := failed)])
    case Serve(accept) =>
      if s.up[0].CloseProxy? then s.(up := s.up[1..], held := false)
      else s.(up := s.up[1..], held := s.held || accept, down := s.down + [!accept])
    case Lookup =>
      s.(down := s.down[1..], read := s.read + [s.down[0]],
         delivering := if s.current.Some? then Some((s.current.value, s.down[0])) else None)
    case Deliver(runOk, now) =>
      After(s, s.delivering.value.0, Answer(s.wrappers[s.delivering.value.0], s.delivering.value.1, runOk, now))
        .(delivering := None)
  }

  // ---- what every run keeps ----

  /** The last message a wrapper has sent. */
  function LastOf(sent: seq<Sent>, i: nat): Option<Message> {
    if sent == [] then None
    else if sent[|sent| - 1].from == i then Some(sent[|sent| - 1].msg)
    else LastOf(sent[..|sent| - 1], i)
  }

  /** Nothing was sent, or the last message was CloseProxy. */
  predicate Quiet(sent: seq<Sent>) {
    sent == [] || sent[|sent| - 1].msg.CloseProxy?
  }

  ghost predicate QueueIsSuffix(s: State) {
    && |s.up| <= |s.sent|
    && forall k :: 0 <= k < |s.up| ==> s.up[k] == s.sent[|s.sent| - |s.up| + k].msg
  }

  /** The server holds the name only if the last message it handled was NewProxy. */
  ghost predicate HeldFits(s: State)
    requires |s.up| <= |s.sent|
  {
    s.held ==> |s.up| < |s.sent| && s.sent[|s.sent| - |s.up| - 1].msg.NewProxy?
  }

  ghost predicate WrapperFits(s: State, i: nat)
    requires i < |s.wrappers|
  {
    && (s.current != Some(i) ==> s.wrappers[i].phase.Closed?)
    && (s.wrappers[i].phase.New? ==> LastOf(s.sent, i) == None)
    && (s.wrappers[i].phase.CheckFailed? || s.wrappers[i].phase.Closed? ==> LastOf(s.sent, i) == Some(CloseProxy))
  }

  ghost predicate Inv(s: State) {
    && QueueIsSuffix(s) && HeldFits(s)
    && (s.current.Some? ==> s.current.value == |s.wrappers| - 1 && !s.wrappers[s.current.value].phase.Closed?)
    && (s.delivering.Some? ==> s.delivering.value.0 < |s.wrappers|)
    && (forall i :: 0 <= i < |s.wrappers| ==> WrapperFits(s, i))
    && (forall k, l :: 0 <= k < l < |s.sent| ==> s.sent[k].from <= s.sent[l].from)
    && (forall k :: 0 <= k < |s.sent| ==> s.sent[k].from < |s.wrappers|)
    && (s.current.None? || s.wrappers[s.current.value].phase in {New, CheckFailed} ==> Quiet(s.sent))
  }

  lemma LastOfAppend(sent: seq<Sent>, from: nat, ms: seq<Message>, i: nat)
    requires |ms| <= 1
    ensures LastOf(sent + Tagged(from, ms), i) == if from == i && ms != [] then Some(ms[0]) else LastOf(sent, i)
  {
    if ms != [] {
      assert (sent + Tagged(from, ms))[..|sent|] == sent;
    } else {
      assert sent + Tagged(from, ms) == sent;
    }
  }

  /** A wrapper's outcome fits the invariant's demands on its phase. */
  lemma AfterKeepsInv(s: State, i: nat, o: Outcome)
    requires Inv(s) && i < |s.wrappers| && |o.sent| <= 1
    requires s.current == Some(i) || o == Outcome(s.wrappers[i], [])
    requires !o.status.phase.Closed? || o == Outcome(s.wrappers[i], [])
    requires o.status.phase.New? ==> o.sent == [] && s.wrappers[i].phase.New?
    requires o.status.phase.CheckFailed? ==> o.sent == [CloseProxy] || (o.sent == [] && s.wrappers[i].phase.CheckFailed?)
    ensures Inv(After(s, i, o))
  {
    var t := After(s, i, o);
    assert WrapperFits(s, i);
    if o.sent == [] {
      assert t.sent == s.sent && t.up == s.up;
    }
    forall j | 0 <= j < |t.wrappers| ensures WrapperFits(t, j) {
      assert WrapperFits(s, j);
      LastOfAppend(s.sent, i, o.sent, j);
    }
  }

  lemma RemoveKeepsInv(s: State)
    requires Inv(s) && Enabled(s, Remove)
    ensures Inv(Step(s, Remove))
  {
    var t := Step(s, Remove);
    var i := s.current.value;
    forall j | 0 <= j < |t.wrappers| ensures WrapperFits(t, j) {
      assert WrapperFits(s, j);
      LastOfAppend(s.sent, i, [CloseProxy], j);
    }
  }

  lemma {:induction false} NotSentYet(sent: seq<Sent>, i: nat)
    requires forall k :: 0 <= k < |sent| ==> sent[k].from != i
    ensures LastOf(sent, i) == None
  {
    if sent != [] {
      NotSentYet(sent[..|sent| - 1], i);
    }
  }

  /** Taking messages off a queue changes nothing for the wrappers. */
  lemma QueueStepKeepsInv(s: State, t: State)
    requires Inv(s) && t.wrappers == s.wrappers && t.sent == s.sent && t.current == s.current
    requires QueueIsSuffix(t) && HeldFits(t)
    requires t.delivering.Some? ==> t.delivering.value.0 < |t.wrappers|
    ensures Inv(t)
  {
    forall j | 0 <= j < |t.wrappers| ensures WrapperFits(t, j) {
      assert WrapperFits(s, j);
    }
  }

  lemma ServeKeepsQueue(s: State, accept: bool)
    requires Inv(s) && Enabled(s, Serve(accept))
    ensures QueueIsSuffix(Step(s, Serve(accept))) && HeldFits(Step(s, Serve(accept)))
  {
  }

  lemma WrapperStepKeepsInv(s: State, e: Event)
    requires Inv(s) && Enabled(s, e) && (e.Install? || e.Health?)
    ensures Inv(Step(s, e))
  {
    var t := Step(s, e);
    forall j | 0 <= j < |t.wrappers| ensures WrapperFits(t, j) {
      if j < |s.wrappers| {
        assert WrapperFits(s, j);
      } else {
        NotSentYet(s.sent, j);
      }
    }
  }

  lemma DeliverKeepsInv(s: State, runOk: bool, now: int)
    requires Inv(s) && Enabled(s, Deliver(runOk, now))
    ensures Inv(Step(s, Deliver(runOk, now)))
  {
    var i := s.delivering.value.0;
    var o := Answer(s.wrappers[i], s.delivering.value.1, runOk, now);
    assert WrapperFits(s, i);
    AfterKeepsInv(s, i, o);
    QueueStepKeepsInv(After(s, i, o), Step(s, Deliver(runOk, now)));
  }

  lemma TickKeepsInv(s: State, i: nat, now: int)
    requires Inv(s) && i < |s.wrappers|
    ensures Inv(Step(s, Tick(i, now)))
  {
    assert WrapperFits(s, i);
    AfterKeepsInv(s, i, Check(s.wrappers[i], now));
  }

  lemma StepKeepsInv(s: State, e: Event)
    requires Inv(s) && Enabled(s, e)
    ensures Inv(Step(s, e))
  {
    match e {
      case Install(_) => WrapperStepKeepsInv(s, e);
      case Health(_, _) => WrapperStepKeepsInv(s, e);
      case Remove => RemoveKeepsInv(s);
      case Tick(i, now) => TickKeepsInv(s, i, now);
      case Deliver(runOk, now) => DeliverKeepsInv(s, runOk, now);
      case Serve(accept) =>
        ServeKeepsQueue(s, accept);
        QueueStepKeepsInv(s, Step(s, e));
      case Lookup => QueueStepKeepsInv(s, Step(s, e));
    }
  }

  ghost predicate Run(s: State, es: seq<Event>, t: State)
    decreases |es|
  {
    if es == [] then s == t else Enabled(s, es[0]) && Run(Step(s, es[0]), es[1..], t)
  }

  lemma {:induction false} RunKeepsInv(s: State, es: seq<Event>, t: State)
    requires Inv(s) && Run(s, es, t)
    ensures Inv(t)
    decreases |es|
  {
    if es != [] {
      StepKeepsInv(s, es[0]);
      RunKeepsInv(Step(s, es[0]), es[1..], t);
    }
  }

  /** Once the messages are drained, a wrapper that is new or failed its check, and a
      name without wrapper, mean that this control of the server does not hold the name. */
  lemma DrainedMeansReleased(es: seq<Event>, s: State)
    requires Run(Init, es, s) && s.up == []
    requires s.current.Some? ==> s.current.value < |s.wrappers|
    requires s.current.Some? ==> s.wrappers[s.current.value].phase in {New, CheckFailed, Closed}
    ensures !s.held
  {
    RunKeepsInv(Init, es, s);
  }

  /** A stopped wrapper has CloseProxy as its last message, and every message of a
      successor comes after all of its own. */
  lemma CloseIsLastMessage(es: seq<Event>, s: State, i: nat)
    requires Run(Init, es, s) && i < |s.wrappers| && s.wrappers[i].phase.Closed?
    ensures LastOf(s.sent, i) == Some(CloseProxy)
    ensures forall k, l :: 0 <= k < |s.sent| && 0 <= l < |s.sent| && s.sent[k].from == i && s.sent[l].from > i ==> k < l
  {
    RunKeepsInv(Init, es, s);
    assert WrapperFits(s, i);
  }

  ghost predicate SilentSince(sent: seq<Sent>, n: nat, i: nat) {
    forall k :: n <= k < |sent| ==> sent[k].from != i
  }

  lemma ClosedStaysSilent(s: State, e: Event, i: nat)
    requires Enabled(s, e) && i < |s.wrappers| && s.wrappers[i].phase.Closed? && s.current != Some(i)
    ensures
      var t := Step(s, e);
      && i < |t.wrappers| && t.wrappers[i].phase.Closed?
      && s.sent <= t.sent && SilentSince(t.sent, |s.sent|, i)
  {
    if e.Deliver? {
      ClosedIsFinal(s.wrappers[i], s.delivering.value.1, e.runOk, e.now);
    }
  }

  /** Closed is absorbing, and from then on the wrapper sends nothing. */
  lemma {:induction false} ClosedForever(s: State, es: seq<Event>, t: State, i: nat)
    requires Inv(s) && Run(s, es, t) && i < |s.wrappers| && s.wrappers[i].phase.Closed?
    ensures i < |t.wrappers| && t.wrappers[i].phase.Closed?
    ensures s.sent <= t.sent && SilentSince(t.sent, |s.sent|, i)
    decreases |es|
  {
    if es != [] {
      var u := Step(s, es[0]);
      StepKeepsInv(s, es[0]);
      ClosedStaysSilent(s, es[0], i);
      ClosedForever(u, es[1..], t, i);
    }
  }

  // ---- what the client can know ----

  /** The messages the server has handled. */
  ghost function Handled(s: State): seq<Sent>
    requires |s.up| <= |s.sent|
  {
    s.sent[..|s.sent| - |s.up|]
  }

  function Starts(sent: seq<Sent>): nat {
    if sent == [] then 0 else Starts(sent[..|sent| - 1]) + if sent[|sent| - 1].msg.NewProxy? then 1 else 0
  }

  /** Message k is a NewProxy after the last CloseProxy, and its answer is an acceptance.
      Answers come in the order of the NewProxy messages; true is an error. */
  ghost predicate AcceptedAt(sent: seq<Sent>, answers: seq<bool>, k: int) {
    && 0 <= k < |sent| && (forall l :: k <= l < |sent| ==> sent[l].msg.NewProxy?)
    && Starts(sent[..k]) < |answers| && !answers[Starts(sent[..k])]
  }

  ghost predicate AcceptedSinceClose(sent: seq<Sent>, answers: seq<bool>) {
    exists k :: AcceptedAt(sent, answers, k)
  }

  /** The server holds the name exactly when it accepted a NewProxy after the last
      CloseProxy it has handled. */
  ghost predicate HeldExactly(s: State) {
    && QueueIsSuffix(s) && Starts(Handled(s)) == |s.read + s.down|
    && (s.held <==> AcceptedSinceClose(Handled(s), s.read + s.down))
  }

  lemma ClosedForgets(h: seq<Sent>, m: Sent, answers: seq<bool>)
    requires m.msg.CloseProxy?
    ensures !AcceptedSinceClose(h + [m], answers)
  {
    assert (h + [m])[|h|] == m;
  }

  lemma AnswerCounts(h: seq<Sent>, m: Sent, answers: seq<bool>, refused: bool)
    requires m.msg.NewProxy? && Starts(h) == |answers|
    ensures AcceptedSinceClose(h + [m], answers + [refused]) <==> AcceptedSinceClose(h, answers) || !refused
  {
    var (h', a') := (h + [m], answers + [refused]);
    assert h'[..|h|] == h;
    if !refused {
      assert AcceptedAt(h', a', |h|);
    }
    if k :| AcceptedAt(h, answers, k) {
      assert h'[..k] == h[..k];
      assert AcceptedAt(h', a', k);
    }
    if k :| AcceptedAt(h', a', k) {
      if k < |h| {
        assert h'[..k] == h[..k];
        StartsGrow(h, k);
        assert forall l :: k <= l < |h| ==> h[l] == h'[l];
        assert AcceptedAt(h, answers, k);
      }
    }
  }

  lemma {:induction false} StartsGrow(h: seq<Sent>, k: nat)
    requires k < |h| && h[k].msg.NewProxy?
    ensures Starts(h[..k]) < Starts(h)
  {
    var init := h[..|h| - 1];
    if k == |h| - 1 {
    } else {
      assert init[..k] == h[..k];
      StartsGrow(init, k);
    }
  }

  lemma ServeKeepsExactly(s: State, accept: bool)
    requires HeldExactly(s) && Enabled(s, Serve(accept))
    ensures HeldExactly(Step(s, Serve(accept)))
  {
    var t := Step(s, Serve(accept));
    var n := |s.sent| - |s.up|;
    var h, m := Handled(s), s.sent[n];
    assert s.up[0] == m.msg;
    assert Handled(t) == h + [m] && (h + [m])[..n] == h;
    if m.msg.CloseProxy? {
      ClosedForgets(h, m, s.read + s.down);
    } else {
      AnswerCounts(h, m, s.read + s.down, !accept);
      assert t.read + t.down == (s.read + s.down) + [!accept];
    }
  }

  lemma OtherStepKeepsExactly(s: State, e: Event)
    requires HeldExactly(s) && Enabled(s, e) && !e.Serve?
    ensures HeldExactly(Step(s, e))
  {
    var t := Step(s, e);
    assert t.read + t.down == s.read + s.down;
    assert Handled(t) == Handled(s);
  }

  lemma {:induction false} RunKeepsExactly(s: State, es: seq<Event>, t: State)
    requires HeldExactly(s) && Run(s, es, t)
    ensures HeldExactly(t)
    decreases |es|
  {
    if es != [] {
      match es[0] {
        case Serve(accept) => ServeKeepsExactly(s, accept);
        case _ => OtherStepKeepsExactly(s, es[0]);
      }
      RunKeepsExactly(Step(s, es[0]), es[1..], t);
    }
  }

  /** In every run, once the queues are drained, what the client has sent and read tells
      whether the server holds the name: exactly when a NewProxy sent after the last
      CloseProxy was accepted. */
  lemma HeldIffAccepted(es: seq<Event>, s: State)
    requires Run(Init, es, s) && s.up == [] && s.down == []
    ensures s.held <==> AcceptedSinceClose(s.sent, s.read)
  {
    RunKeepsExactly(Init, es, s);
    assert Handled(s) == s.sent && s.read + s.down == s.read;
  }

  ghost predicate ShowsRunning(s: State) {
    s.current.Some? && s.current.value < |s.wrappers| && s.wrappers[s.current.value].phase.Running?
  }

  /** The drained phase tells whether the server holds the name if and only if it is
      running just when such an acceptance was read. */
  lemma PhaseIsTrueIff(es: seq<Event>, s: State)
    requires Run(Init, es, s) && s.up == [] && s.down == []
    ensures (ShowsRunning(s) <==> s.held) <==> (ShowsRunning(s) <==> AcceptedSinceClose(s.sent, s.read))
  {
    HeldIffAccepted(es, s);
  }

  // ---- a late answer ----

  /** The wrapper shows a start error or waits, while the server holds the name: every
      further NewProxy is refused as already existing. */
  ghost predicate LockedOut(s: State, i: nat) {
    && i < |s.wrappers| && s.current == Some(i) && s.held && !s.wrappers[i].unhealthy
    && s.wrappers[i].phase in {StartErr, WaitStart}
    && (forall k :: 0 <= k < |s.up| ==> s.up[k].NewProxy?)
    && (forall k :: 0 <= k < |s.down| ==> s.down[k])
    && (s.delivering.Some? ==> s.delivering.value == (i, true))
  }

  predicate Interrupts(e: Event, i: nat) {
    e.Remove? || (e.Health? && e.i == i && e.failed)
  }

  lemma LockedOutStep(s: State, e: Event, i: nat)
    requires Inv(s) && LockedOut(s, i) && Enabled(s, e) && !Interrupts(e, i)
    ensures LockedOut(Step(s, e), i)
  {
    if e.Tick? && e.i != i {
      assert WrapperFits(s, e.i);
    }
  }

  /** Until the wrapper is stopped or its health check fails, it never runs again. */
  lemma {:induction false} LockedOutForever(s: State, es: seq<Event>, t: State, i: nat)
    requires Inv(s) && LockedOut(s, i) && Run(s, es, t)
    requires forall k :: 0 <= k < |es| ==> !Interrupts(es[k], i)
    ensures LockedOut(t, i) && !t.wrappers[i].phase.Running? && t.held
    decreases |es|
  {
    if es != [] {
      StepKeepsInv(s, es[0]);
      LockedOutStep(s, es[0], i);
      LockedOutForever(Step(s, es[0]), es[1..], t, i);
    }
  }

  /** The run that gets there: the answer to the first NewProxy is an error that takes
      longer than the response timeout, the second NewProxy is accepted. */
  const LATE_ANSWER: seq<Event> := [
    Install(false), Tick(0, 0), Serve(false), Tick(0, 21), Serve(true),
    Lookup, Deliver(true, 22), Lookup, Deliver(true, 22)]

  /** The states that run passes through. */
  function Late(k: nat): State
    requires k <= 9
  {
    var log1 := [Sent(0, NewProxy)];
    var log2 := [Sent(0, NewProxy), Sent(0, NewProxy)];
    if k == 0 then Init
    else if k == 1 then State([Status(New, 0, 0, false)], Some(0), [], [], None, false, [], [])
    else if k == 2 then State([Status(WaitStart, 0, 0, false)], Some(0), [NewProxy], [], None, false, log1, [])
    else if k == 3 then State([Status(WaitStart, 0, 0, false)], Some(0), [], [true], None, false, log1, [])
    else if k == 4 then State([Status(WaitStart, 21, 0, false)], Some(0), [NewProxy], [true], None, false, log2, [])
    else if k == 5 then State([Status(WaitStart, 21, 0, false)], Some(0), [], [true, false], None, true, log2, [])
    else if k == 6 then
      State([Status(WaitStart, 21, 0, false)], Some(0), [], [false], Some((0, true)), true, log2, [true])
    else if k == 7 then State([Status(StartErr, 21, 22, false)], Some(0), [], [false], None, true, log2, [true])
    else if k == 8 then
      State([Status(StartErr, 21, 22, false)], Some(0), [], [], Some((0, false)), true, log2, [true, false])
    else State([Status(StartErr, 21, 22, false)], Some(0), [], [], None, true, log2, [true, false])
  }

  ghost predicate LateFits(k: nat)
    requires k < 9
  {
    Enabled(Late(k), LATE_ANSWER[k]) && Step(Late(k), LATE_ANSWER[k]) == Late(k + 1)
  }

  lemma EarlyStep(k: nat)
    requires k < 4
    ensures LateFits(k)
  {
  }

  lemma LateStep(k: nat)
    requires k < 9
    ensures LateFits(k)
  {
    if k < 4 {
      EarlyStep(k);
    }
  }

  lemma {:induction false} LateRun(k: nat)
    requires k <= 9
    ensures Run(Late(k), LATE_ANSWER[k..], Late(9))
    decreases 9 - k
  {
    if k < 9 {
      LateStep(k);
      LateRun(k + 1);
      assert LATE_ANSWER[k..][1..] == LATE_ANSWER[k + 1..];
    }
  }

  /** Start error, drained queues, and yet the server holds the name: a start error
      does not mean that the name is free. */
  lemma LateAnswerLocksOut() returns (s: State)
    ensures Run(Init, LATE_ANSWER, s) && s.up == [] && s.down == [] && s.wrappers != []
    ensures LockedOut(s, 0) && s.wrappers[0].phase.StartErr?
  {
    s := LateEnd();
    LateRun(0);
    assert LATE_ANSWER == LATE_ANSWER[0..];
  }

  lemma LateEnd() returns (s: State)
    ensures s == Late(9) && s.up == [] && s.down == [] && s.wrappers != []
    ensures LockedOut(s, 0) && s.wrappers[0].phase.StartErr?
  {
    s := Late(9);
  }

  // ---- timely answers ----

  ghost predicate NothingPending(s: State) {
    NewProxy !in s.up && s.down == [] && s.delivering.None?
  }

  /** No NewProxy is sent while an earlier one has not been answered. */
  ghost predicate Timely(s: State, e: Event) {
    e.Tick? && e.i < |s.wrappers| && Check(s.wrappers[e.i], e.now).sent == [NewProxy] ==> NothingPending(s)
  }

  /** At most one start message or answer is on its way. */
  ghost predicate OnePending(s: State) {
    && (s.delivering.Some? ==> NewProxy !in s.up && s.down == [])
    && (s.down != [] ==> NewProxy !in s.up && |s.down| == 1)
    && (forall k, l :: 0 <= k < l < |s.up| ==> s.up[k].CloseProxy? || s.up[l].CloseProxy?)
  }

  /** The answer on its way, if any, is the one the waiting wrapper needs, and it tells
      the truth. */
  ghost predicate AwaitsTruth(s: State, i: nat) {
    if s.delivering.Some? then s.delivering.value.0 == i && s.up == [] && (s.held <==> !s.delivering.value.1)
    else if s.down != [] then s.up == [] && (s.held <==> !s.down[0])
    else s.up != [] && s.up[|s.up| - 1].NewProxy? && (|s.up| == 1 ==> !s.held)
  }

  ghost predicate PhaseTellsTruth(s: State, i: nat)
    requires i < |s.wrappers|
  {
    match s.wrappers[i].phase
    case WaitStart => AwaitsTruth(s, i)
    case Running => NothingPending(s) && s.up == [] && s.held
    case StartErr => NothingPending(s) && (s.up == [] ==> !s.held)
    case _ => true
  }

  ghost predicate TimelyInv(s: State) {
    Inv(s) && OnePending(s) && (s.current.Some? ==> PhaseTellsTruth(s, s.current.value))
  }

  lemma SilentTick(s: State, i: nat, now: int)
    requires i < |s.wrappers| && Check(s.wrappers[i], now) == Outcome(s.wrappers[i], [])
    ensures Step(s, Tick(i, now)) == s
  {
    assert s.sent + Tagged(i, []) == s.sent;
  }

  lemma TimelyTick(s: State, i: nat, now: int)
    requires TimelyInv(s) && Enabled(s, Tick(i, now)) && Timely(s, Tick(i, now))
    ensures TimelyInv(Step(s, Tick(i, now)))
  {
    TickKeepsInv(s, i, now);
    assert WrapperFits(s, i);
    if Check(s.wrappers[i], now).sent == [] {
      SilentTick(s, i, now);
    } else {
      TimelySend(s, i, now);
    }
  }

  lemma TimelySend(s: State, i: nat, now: int)
    requires TimelyInv(s) && s.current == Some(i) && Timely(s, Tick(i, now))
    requires Check(s.wrappers[i], now).sent != []
    ensures OnePending(Step(s, Tick(i, now))) && PhaseTellsTruth(Step(s, Tick(i, now)), i)
  {
  }

  lemma TimelyServe(s: State, accept: bool)
    requires TimelyInv(s) && Enabled(s, Serve(accept))
    ensures TimelyInv(Step(s, Serve(accept)))
  {
    StepKeepsInv(s, Serve(accept));
    if s.current.Some? {
      ServeTellsTruth(s, accept);
    }
  }

  lemma ServeTellsTruth(s: State, accept: bool)
    requires TimelyInv(s) && Enabled(s, Serve(accept)) && s.current.Some?
    ensures PhaseTellsTruth(Step(s, Serve(accept)), s.current.value)
  {
    assert s.up == [s.up[0]] + s.up[1..];
  }

  lemma TimelyQueues(s: State, e: Event)
    requires TimelyInv(s) && Enabled(s, e) && !e.Tick? && !e.Deliver? && !e.Serve?
    ensures TimelyInv(Step(s, e))
  {
    StepKeepsInv(s, e);
  }

  lemma TimelyDeliver(s: State, runOk: bool, now: int)
    requires TimelyInv(s) && Enabled(s, Deliver(runOk, now))
    ensures TimelyInv(Step(s, Deliver(runOk, now)))
  {
    StepKeepsInv(s, Deliver(runOk, now));
    assert WrapperFits(s, s.delivering.value.0);
  }

  ghost predicate TimelyRun(s: State, es: seq<Event>, t: State)
    decreases |es|
  {
    if es == [] then s == t
    else Enabled(s, es[0]) && Timely(s, es[0]) && TimelyRun(Step(s, es[0]), es[1..], t)
  }

  lemma {:induction false} TimelyRunKeepsInv(s: State, es: seq<Event>, t: State)
    requires TimelyInv(s) && TimelyRun(s, es, t)
    ensures TimelyInv(t)
    decreases |es|
  {
    if es != [] {
      match es[0] {
        case Tick(i, now) => TimelyTick(s, i, now);
        case Deliver(runOk, now) => TimelyDeliver(s, runOk, now);
        case Serve(accept) => TimelyServe(s, accept);
        case _ => TimelyQueues(s, es[0]);
      }
      TimelyRunKeepsInv(Step(s, es[0]), es[1..], t);
    }
  }

  /** When answers come before the next attempt, the phase of a drained wrapper that is
      not waiting says exactly whether the server holds the name. */
  lemma TimelyPhaseIsTrue(es: seq<Event>, s: State)
    requires TimelyRun(Init, es, s) && s.up == []
    requires s.current.Some? ==> s.current.value < |s.wrappers| && !s.wrappers[s.current.value].phase.WaitStart?
    ensures s.held <==> ShowsRunning(s)
    ensures s.down == [] ==> (ShowsRunning(s) <==> AcceptedSinceClose(s.sent, s.read))
  {
    TimelyRunKeepsInv(Init, es, s);
    TimelyRunIsRun(Init, es, s);
    if s.down == [] {
      PhaseIsTrueIff(es, s);
    }
  }

  lemma {:induction false} TimelyRunIsRun(s: State, es: seq<Event>, t: State)
    requires TimelyRun(s, es, t)
    ensures Run(s, es, t)
    decreases |es|
  {
    if es != [] {
      TimelyRunIsRun(Step(s, es[0]), es[1..], t);
    }
  }
}
