/** The client side of one proxy: the phase machine of a wrapper and what it sends. */
module ProxyWrapper {

  datatype Phase = New | WaitStart | StartErr | Running | CheckFailed | Closed

  datatype Message = NewProxy | CloseProxy

  /** Seconds, as in waitResponseTimeout and startErrTimeout. */
  const WAIT_RESPONSE_TIMEOUT := 20
  const START_ERR_TIMEOUT := 30

  datatype Status = Status(phase: Phase, lastSendStartMsg: int, lastStartErr: int, unhealthy: bool)

  datatype Outcome = Outcome(status: Status, sent: seq<Message>)

  predicate WantsStart(w: Status, now: int) {
    || w.phase.New?
    || w.phase.CheckFailed?
    || (w.phase.WaitStart? && now > w.lastSendStartMsg + WAIT_RESPONSE_TIMEOUT)
    || (w.phase.StartErr? && now > w.lastStartErr + START_ERR_TIMEOUT)
  }

  /** One turn of checkWorker. */
  function Check(w: Status, now: int): Outcome {
    if !w.unhealthy then
      if WantsStart(w, now) then Outcome(w.(phase := WaitStart, lastSendStartMsg := now), [NewProxy])
      else Outcome(w, [])
    else if w.phase.Running? || w.phase.WaitStart? then Outcome(w.(phase := CheckFailed), [CloseProxy])
    else Outcome(w, [])
  }

  /** SetRunningStatus with the server's answer and the result of the local Run. */
  function Answer(w: Status, respErr: bool, runOk: bool, now: int): Outcome {
    if !w.phase.WaitStart? then Outcome(w, [])
    else if respErr then Outcome(w.(phase := StartErr, lastStartErr := now), [])
    else if !runOk then Outcome(w.(phase := StartErr, lastStartErr := now), [CloseProxy])
    else Outcome(w.(phase := Running), [])
  }

  function Stopped(w: Status): Outcome {
    Outcome(w.(phase := Closed), [CloseProxy])
  }

  /** Closed is absorbing and silent. */
  lemma ClosedIsFinal(w: Status, respErr: bool, runOk: bool, now: int)
    requires w.phase.Closed?
    ensures Check(w, now) == Outcome(w, []) && Answer(w, respErr, runOk, now) == Outcome(w, [])
  {
  }

  class Wrapper {
    var phase: Phase
    var lastSendStartMsg: int
    var lastStartErr: int
    var unhealthy: bool
    /** Everything handed to the message transporter so far. */
    var outbox: seq<Message>

    function View(): Status
      reads this
    {
      Status(phase, lastSendStartMsg, lastStartErr, unhealthy)
    }

    constructor (healthCheck: bool)
      ensures View() == Status(New, 0, 0, healthCheck) && outbox == []
    {
      phase, lastSendStartMsg, lastStartErr, unhealthy, outbox := New, 0, 0, healthCheck, [];
    }

    method CheckOnce(now: int)
      modifies this
      ensures View() == Check(old(View()), now).status
      ensures outbox == old(outbox) + Check(old(View()), now).sent
    {
      if !unhealthy {
        if phase.New? || phase.CheckFailed?
          || (phase.WaitStart? && now > lastSendStartMsg + WAIT_RESPONSE_TIMEOUT)
          || (phase.StartErr? && now > lastStartErr + START_ERR_TIMEOUT)
        {
          phase := WaitStart;
          lastSendStartMsg := now;
          outbox := outbox + [NewProxy];
        }
      } else if phase.Running? || phase.WaitStart? {
        outbox := outbox + [CloseProxy];
        phase := CheckFailed;
      }
    }

    method SetRunningStatus(respErr: bool, runOk: bool, now: int) returns (ok: bool)
      modifies this
      ensures View() == Answer(old(View()), respErr, runOk, now).status
      ensures outbox == old(outbox) + Answer(old(View()), respErr, runOk, now).sent
      ensures ok <==> old(phase).WaitStart? && phase.Running?
    {
      if !phase.WaitStart? {
        return false;
      }
      if respErr {
        phase := StartErr;
        lastStartErr := now;
        return false;
      }
      if !runOk {
        outbox := outbox + [CloseProxy];
        phase := StartErr;
        lastStartErr := now;
        return false;
      }
      phase := Running;
      return true;
    }

    /** A wrapper is stopped once: closing its channels again would panic. */
    method Stop()
      requires !phase.Closed?
      modifies this
      ensures View() == Stopped(old(View())).status
      ensures outbox == old(outbox) + Stopped(old(View())).sent
    {
      phase := Closed;
      outbox := outbox + [CloseProxy];
    }

    method SetHealth(failed: bool)
      modifies this`unhealthy
      ensures unhealthy == failed
    {
      unhealthy := failed;
    }
  }
}
