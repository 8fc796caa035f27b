/** Retry delays that back off: a few fast retries per window of time, then delays that
    grow by a factor up to a maximum. Durations are reals; the clock and the random draw
    of each call are inputs. */
module Backoff {

  const SECOND: real := 1000000000.0

  datatype Options = Options(duration: real, factor: real, jitter: real, maxDuration: real, initDurationIfFail: real,
                             fastRetryCount: int, fastRetryDelay: real, fastRetryJitter: real, fastRetryWindow: real)

  /** A zero time means never. */
  datatype State = State(lastCalledTime: real, consecutiveErrCount: nat, fastRetryCutoffTime: real,
                         countsInFastRetryWindow: nat)

  const INIT := State(0.0, 0, 0.0, 1)

  /** One call: whether the last try failed, the clock and the random draw. */
  datatype Call = Call(err: bool, now: real, draw: real)

  function EmptyOr(v: real, fallback: real): real {
    if v == 0.0 then fallback else v
  }

  function Jitter(d: real, maxFactor: real, draw: real): real {
    d + draw * (if maxFactor <= 0.0 then 1.0 else maxFactor) * d
  }

  predicate IsFast(o: Options, s: State, c: Call) {
    s.lastCalledTime != 0.0 && o.fastRetryCount > 0 && c.err && s.countsInFastRetryWindow + 1 <= o.fastRetryCount
  }

  predicate IsReset(o: Options, s: State, c: Call) {
    s.lastCalledTime != 0.0 && o.fastRetryCount > 0 && c.err && s.countsInFastRetryWindow + 1 > o.fastRetryCount
    && c.now > s.fastRetryCutoffTime
  }

  function Next(o: Options, s: State, c: Call): State {
    if s.lastCalledTime == 0.0 then s.(lastCalledTime := c.now)
    else
      var t := s.(lastCalledTime := c.now, consecutiveErrCount := if c.err then s.consecutiveErrCount + 1 else 0);
      if IsReset(o, s, c) then t.(fastRetryCutoffTime := c.now + o.fastRetryWindow, countsInFastRetryWindow := 0)
      else if o.fastRetryCount > 0 && c.err then t.(countsInFastRetryWindow := s.countsInFastRetryWindow + 1)
      else t
  }

  function Cap(max: real, d: real): real {
    if max > 0.0 && d > max then max else d
  }

  function Factor(o: Options): real {
    if o.factor == 0.0 then 1.0 else o.factor
  }

  /** What the first error in a row starts from. */
  function Start(o: Options, previous: real): real {
    EmptyOr(EmptyOr(o.initDurationIfFail, previous), SECOND)
  }

  /** Grown by the factor and jittered, before the maximum applies. */
  function Raw(o: Options, base: real, draw: real): real {
    var d := if o.factor != 0.0 then base * o.factor else base;
    if o.jitter > 0.0 then Jitter(d, o.jitter, draw) else d
  }

  function Grown(o: Options, base: real, draw: real): real {
    Cap(o.maxDuration, Raw(o, base, draw))
  }

  function Delay(o: Options, s: State, previous: real, c: Call): real {
    if s.lastCalledTime == 0.0 || !c.err then o.duration
    else if IsFast(o, s, c) then Jitter(o.fastRetryDelay, o.fastRetryJitter, c.draw)
    else Grown(o, if s.consecutiveErrCount == 0 then Start(o, previous) else EmptyOr(previous, SECOND), c.draw)
  }

  /** The delays of a run; each call is told the delay before. */
  function Delays(o: Options, s: State, previous: real, calls: seq<Call>): (ds: seq<real>)
    ensures |ds| == |calls|
    decreases |calls|
  {
    if calls == [] then []
    else
      var d := Delay(o, s, previous, calls[0]);
      [d] + Delays(o, Next(o, s, calls[0]), d, calls[1..])
  }

  class FastBackoffImpl {
    const options: Options
    var lastCalledTime: real
    var consecutiveErrCount: nat
    var fastRetryCutoffTime: real
    var countsInFastRetryWindow: nat

    function View(): State
      reads this
    {
      State(lastCalledTime, consecutiveErrCount, fastRetryCutoffTime, countsInFastRetryWindow)
    }

    constructor (options: Options)
      ensures this.options == options && View() == INIT
    {
      this.options := options;
      lastCalledTime, consecutiveErrCount, fastRetryCutoffTime, countsInFastRetryWindow := 0.0, 0, 0.0, 1;
    }

    method Backoff(previousDuration: real, c: Call) returns (d: real)
      modifies this
      ensures View() == Next(options, old(View()), c)
      ensures d == Delay(options, old(View()), previousDuration, c)
    {
      if lastCalledTime == 0.0 {
        lastCalledTime := c.now;
        return options.duration;
      }
      lastCalledTime := c.now;
      if c.err {
        consecutiveErrCount := consecutiveErrCount + 1;
      } else {
        consecutiveErrCount := 0;
      }
      if options.fastRetryCount > 0 && c.err {
        countsInFastRetryWindow := countsInFastRetryWindow + 1;
        if countsInFastRetryWindow <= options.fastRetryCount {
          return Jitter(options.fastRetryDelay, options.fastRetryJitter, c.draw);
        }
        if c.now > fastRetryCutoffTime {
          fastRetryCutoffTime := c.now + options.fastRetryWindow;
          countsInFastRetryWindow := 0;
        }
      }
      if c.err {
        var duration := previousDuration;
        if consecutiveErrCount == 1 {
          duration := EmptyOr(options.initDurationIfFail, previousDuration);
        }
        duration := EmptyOr(duration, SECOND);
        if options.factor != 0.0 {
          duration := duration * options.factor;
        }
        if options.jitter > 0.0 {
          duration := Jitter(duration, options.jitter, c.draw);
        }
        if options.maxDuration > 0.0 && duration > options.maxDuration {
          duration := options.maxDuration;
        }
        return duration;
      }
      return options.duration;
    }
  }

  // ---- the retry loop ----

  /** One try of the function, with the clock and the draw of the call that goes with it. */
  datatype Try = Try(done: bool, err: bool, now: real, draw: real)

  /** The calls the loop makes: after each try when sliding, else before each try and
      about the try before. */
  function Calls(tries: seq<Try>, sliding: bool, previousError: bool): seq<Call> {
    if tries == [] then []
    else
      var t := tries[0];
      if sliding then
        if t.done then [] else [Call(t.err, t.now, t.draw)] + Calls(tries[1..], sliding, t.err)
      else
        [Call(previousError, t.now, t.draw)] + if t.done then [] else Calls(tries[1..], sliding, t.err)
  }

  /** The stop channel closes after the given tries. */
  method BackoffUntil(backoff: FastBackoffImpl, first: Call, tries: seq<Try>, sliding: bool)
    returns (delays: seq<real>)
    requires !first.err
    modifies backoff
    ensures delays ==
      Delays(backoff.options, Next(backoff.options, old(backoff.View()), first), 0.0, Calls(tries, sliding, false))
  {
    var delay, previousError := 0.0, false;
    delays := [];
    var _ := backoff.Backoff(delay, first);
    ghost var s0 := backoff.View();
    ghost var all := Delays(backoff.options, s0, 0.0, Calls(tries, sliding, false));
    assert tries[0..] == tries;
    for i := 0 to |tries|
      invariant all == delays + Delays(backoff.options, backoff.View(), delay, Calls(tries[i..], sliding, previousError))
    {
      assert tries[i..][1..] == tries[i + 1..];
      var t := tries[i];
      ghost var rest := if t.done then [] else Calls(tries[i + 1..], sliding, t.err);
      if !sliding {
        OneMore(backoff.options, backoff.View(), delay, Call(previousError, t.now, t.draw), rest, delays);
        delay := backoff.Backoff(delay, Call(previousError, t.now, t.draw));
        delays := delays + [delay];
      }
      if t.done {
        return;
      }
      previousError := t.err;
      if sliding {
        OneMore(backoff.options, backoff.View(), delay, Call(previousError, t.now, t.draw), rest, delays);
        delay := backoff.Backoff(delay, Call(previousError, t.now, t.draw));
        delays := delays + [delay];
      }
    }
  }

  lemma OneMore(o: Options, s: State, previous: real, c: Call, rest: seq<Call>, delays: seq<real>)
    ensures
      var d := Delay(o, s, previous, c);
      delays + Delays(o, s, previous, [c] + rest) == (delays + [d]) + Delays(o, Next(o, s, c), d, rest)
  {
    var d := Delay(o, s, previous, c);
    assert ([c] + rest)[1..] == rest;
    assert delays + ([d] + Delays(o, Next(o, s, c), d, rest)) == (delays + [d]) + Delays(o, Next(o, s, c), d, rest);
  }

  // ---- fast retries are rate limited ----

  function FastRetries(o: Options, s: State, calls: seq<Call>): nat
    decreases |calls|
  {
    if calls == [] then 0
    else (if IsFast(o, s, calls[0]) then 1 else 0) + FastRetries(o, Next(o, s, calls[0]), calls[1..])
  }

  /** The times of the counter resets. */
  function Resets(o: Options, s: State, calls: seq<Call>): seq<real>
    decreases |calls|
  {
    if calls == [] then []
    else
      (if IsReset(o, s, calls[0]) then [calls[0].now] else []) + Resets(o, Next(o, s, calls[0]), calls[1..])
  }

  function Left(o: Options, s: State): nat {
    if s.countsInFastRetryWindow <= o.fastRetryCount then o.fastRetryCount - s.countsInFastRetryWindow else 0
  }

  lemma {:induction false} FastFrom(o: Options, s: State, calls: seq<Call>)
    requires o.fastRetryCount > 0
    ensures FastRetries(o, s, calls) <= Left(o, s) + o.fastRetryCount * |Resets(o, s, calls)|
    decreases |calls|
  {
    if calls != [] {
      var t := Next(o, s, calls[0]);
      FastFrom(o, t, calls[1..]);
      if IsReset(o, s, calls[0]) {
        var k := |Resets(o, t, calls[1..])|;
        assert o.fastRetryCount * (k + 1) == o.fastRetryCount * k + o.fastRetryCount;
      }
    }
  }

  ghost predicate Apart(times: seq<real>, window: real) {
    forall i :: 0 <= i < |times| - 1 ==> times[i + 1] > times[i] + window
  }

  lemma {:induction false} ResetsFrom(o: Options, s: State, calls: seq<Call>)
    ensures Apart(Resets(o, s, calls), o.fastRetryWindow)
    ensures Resets(o, s, calls) != [] ==> Resets(o, s, calls)[0] > s.fastRetryCutoffTime
    decreases |calls|
  {
    if calls != [] {
      ResetsFrom(o, Next(o, s, calls[0]), calls[1..]);
    }
  }

  /** The time of n windows. */
  function Windows(n: nat, window: real): real {
    if n == 0 then 0.0 else Windows(n - 1, window) + window
  }

  lemma {:induction false} WindowsIsProduct(n: nat, window: real)
    ensures Windows(n, window) == n as real * window
  {
    if n > 0 {
      WindowsIsProduct(n - 1, window);
      assert n as real * window == (n - 1) as real * window + window;
    }
  }

  lemma {:induction false} ApartSpans(times: seq<real>, window: real)
    requires times != [] && Apart(times, window)
    ensures times[|times| - 1] >= times[0] + Windows(|times| - 1, window)
  {
    if |times| > 1 {
      var init := times[..|times| - 1];
      forall i | 0 <= i < |init| - 1 ensures init[i + 1] > init[i] + window {
        assert times[i + 1] > times[i] + window;
      }
      ApartSpans(init, window);
      assert times[|times| - 2 + 1] > times[|times| - 2] + window;
    }
  }

  lemma {:induction false} ResetsAreCalls(o: Options, s: State, calls: seq<Call>, r: real)
    requires r in Resets(o, s, calls)
    ensures exists i :: 0 <= i < |calls| && calls[i].now == r
    decreases |calls|
  {
    if IsReset(o, s, calls[0]) && r == calls[0].now {
    } else {
      ResetsAreCalls(o, Next(o, s, calls[0]), calls[1..], r);
      var i :| 0 <= i < |calls[1..]| && calls[1..][i].now == r;
      assert calls[i + 1].now == r;
    }
  }

  ghost predicate Monotone(calls: seq<Call>) {
    forall i, j :: 0 <= i <= j < |calls| ==> calls[i].now <= calls[j].now
  }

  /** Over every run from the start: with n fast retries allowed there are at most n - 1 of
      them before the first reset of the counter and n after each reset. */
  lemma FastRetriesAreLimited(o: Options, calls: seq<Call>)
    requires o.fastRetryCount > 0
    ensures FastRetries(o, INIT, calls) <= o.fastRetryCount - 1 + o.fastRetryCount * |Resets(o, INIT, calls)|
  {
    FastFrom(o, INIT, calls);
  }

  /** Resets are more than the window apart, so there is at most one for each window of
      elapsed time and one more. */
  lemma ResetsAreLimited(o: Options, calls: seq<Call>)
    requires Monotone(calls) && Resets(o, INIT, calls) != []
    ensures calls != [] && Apart(Resets(o, INIT, calls), o.fastRetryWindow)
    ensures Windows(|Resets(o, INIT, calls)| - 1, o.fastRetryWindow) <= calls[|calls| - 1].now - calls[0].now
  {
    ResetsFrom(o, INIT, calls);
    var times := Resets(o, INIT, calls);
    ApartSpans(times, o.fastRetryWindow);
    ResetIsWithin(o, calls, times[0]);
    ResetIsWithin(o, calls, times[|times| - 1]);
  }

  /** Fast retries are linear in the elapsed time: with n of them per window W, those past
      the first 2n - 1 take at least W for each n. */
  lemma FastRetriesAreLinear(o: Options, calls: seq<Call>)
    requires o.fastRetryCount > 0 && o.fastRetryWindow >= 0.0 && Monotone(calls) && calls != []
    ensures (FastRetries(o, INIT, calls) - (2 * o.fastRetryCount - 1)) as real * o.fastRetryWindow
      <= o.fastRetryCount as real * (calls[|calls| - 1].now - calls[0].now)
  {
    var elapsed := calls[|calls| - 1].now - calls[0].now;
    LinearIn(o, calls, FastRetries(o, INIT, calls), o.fastRetryCount, o.fastRetryWindow, elapsed);
  }

  lemma LinearIn(o: Options, calls: seq<Call>, fast: nat, n: nat, window: real, elapsed: real)
    requires Monotone(calls) && calls != [] && elapsed == calls[|calls| - 1].now - calls[0].now
    requires fast == FastRetries(o, INIT, calls) && n == o.fastRetryCount > 0 && window == o.fastRetryWindow >= 0.0
    ensures (fast - (2 * n - 1)) as real * window <= n as real * elapsed
  {
    var r := |Resets(o, INIT, calls)|;
    FastWithin(o, calls, n, r);
    if r > 0 {
      var k := r - 1;
      ResetsSpan(o, calls, k, window, elapsed);
      SpanBound(fast, n, r, k, window, elapsed);
    } else {
      NoSpanBound(fast, n, window, elapsed);
    }
  }

  lemma FastWithin(o: Options, calls: seq<Call>, n: nat, r: nat)
    requires n == o.fastRetryCount > 0 && r == |Resets(o, INIT, calls)|
    ensures FastRetries(o, INIT, calls) <= n - 1 + n * r
  {
    FastRetriesAreLimited(o, calls);
  }

  lemma ResetsSpan(o: Options, calls: seq<Call>, r: nat, window: real, elapsed: real)
    requires Monotone(calls) && calls != [] && r == |Resets(o, INIT, calls)| - 1
    requires window == o.fastRetryWindow && elapsed == calls[|calls| - 1].now - calls[0].now
    ensures r as real * window <= elapsed
  {
    ResetsAreLimited(o, calls);
    WindowsIsProduct(r, window);
  }

  lemma NoSpanBound(fast: nat, n: nat, window: real, elapsed: real)
    requires fast <= n - 1 && window >= 0.0 && 0.0 <= elapsed
    ensures (fast - (2 * n - 1)) as real * window <= n as real * elapsed
  {
    MulMonotone((fast - (2 * n - 1)) as real, 0.0, window);
    MulMonotone(0.0, elapsed, n as real);
  }

  lemma SpanBound(fast: nat, n: nat, r: nat, k: nat, window: real, elapsed: real)
    requires r == k + 1 && fast <= n - 1 + n * r && window >= 0.0 && k as real * window <= elapsed
    ensures (fast - (2 * n - 1)) as real * window <= n as real * elapsed
  {
    assert n * r == n * k + n;
    CastProduct(n, k);
    MulMonotone((fast - (2 * n - 1)) as real, n as real * k as real, window);
    assert (n as real * k as real) * window == n as real * (k as real * window);
    MulMonotone(k as real * window, elapsed, n as real);
  }

  lemma {:induction false} CastProduct(n: nat, r: nat)
    ensures (n * r) as real == n as real * r as real
  {
    if n > 0 {
      CastProduct(n - 1, r);
      assert n * r == (n - 1) * r + r;
      assert n as real * r as real == (n - 1) as real * r as real + r as real;
    }
  }

  lemma ResetIsWithin(o: Options, calls: seq<Call>, r: real)
    requires Monotone(calls) && r in Resets(o, INIT, calls)
    ensures calls != [] && calls[0].now <= r <= calls[|calls| - 1].now
  {
    ResetsAreCalls(o, INIT, calls, r);
    var i :| 0 <= i < |calls| && calls[i].now == r;
    assert calls[0].now <= calls[i].now <= calls[|calls| - 1].now;
  }

  ghost predicate Errors(calls: seq<Call>) {
    forall i :: 0 <= i < |calls| ==> calls[i].err && calls[i].now != 0.0 && 0.0 <= calls[i].draw <= 1.0
  }

  /** The fast retries are really given: errors are retried fast while the count lasts. */
  lemma {:induction false} ErrorsAreFastWhileTheyLast(o: Options, s: State, calls: seq<Call>)
    requires s.lastCalledTime != 0.0 && s.countsInFastRetryWindow + |calls| <= o.fastRetryCount
    requires Errors(calls)
    ensures FastRetries(o, s, calls) == |calls|
    decreases |calls|
  {
    if calls != [] {
      ErrorsAreFastWhileTheyLast(o, Next(o, s, calls[0]), calls[1..]);
    }
  }

  // ---- delays off the fast path ----

  function StateAt(o: Options, s: State, calls: seq<Call>, i: nat): State
    requires i <= |calls|
    decreases i
  {
    if i == 0 then s else StateAt(o, Next(o, s, calls[0]), calls[1..], i - 1)
  }

  /** In any run, a delay after an error is at most the maximum unless the retry is fast,
      and a fast retry stays within its jitter. */
  lemma {:induction false} DelaysAreBounded(o: Options, s: State, previous: real, calls: seq<Call>, i: nat)
    requires i < |calls| && 0.0 <= calls[i].draw <= 1.0 && o.fastRetryDelay >= 0.0
    ensures
      var (d, t, c) := (Delays(o, s, previous, calls)[i], StateAt(o, s, calls, i), calls[i]);
      if t.lastCalledTime == 0.0 || !c.err then d == o.duration
      else if IsFast(o, t, c) then
        var share := if o.fastRetryJitter > 0.0 then o.fastRetryJitter else 1.0;
        o.fastRetryDelay <= d <= o.fastRetryDelay + share * o.fastRetryDelay
      else o.maxDuration > 0.0 ==> d <= o.maxDuration
    decreases i
  {
    if i == 0 {
      JitterWithin(o.fastRetryDelay, o.fastRetryJitter, calls[0].draw);
    } else {
      DelaysAreBounded(o, Next(o, s, calls[0]), Delay(o, s, previous, calls[0]), calls[1..], i - 1);
    }
  }

  lemma MulMonotone(a: real, b: real, k: real)
    requires a <= b && k >= 0.0
    ensures a * k <= b * k
  {
  }

  lemma JitterWithin(d: real, maxFactor: real, draw: real)
    requires 0.0 <= draw <= 1.0 && d >= 0.0
    ensures d <= Jitter(d, maxFactor, draw) <= Jitter(d, maxFactor, 1.0)
  {
    var m := if maxFactor <= 0.0 then 1.0 else maxFactor;
    MulMonotone(0.0, draw, m);
    MulMonotone(0.0, draw * m, d);
    MulMonotone(draw, 1.0, m);
    MulMonotone(draw * m, 1.0 * m, d);
  }

  /** The k-th term of the geometric sequence that starts at b. */
  function Geometric(b: real, x: real, k: nat): real {
    if k == 0 then b else Geometric(b, x, k - 1) * x
  }

  /** The k-th delay when every error multiplies it by x: a growing sequence is cut off at
      the maximum, a shrinking one is cut off once, at its first term. */
  function Closed(max: real, b: real, x: real, k: nat): real
    requires k > 0
  {
    if x >= 1.0 then Cap(max, Geometric(b, x, k)) else Geometric(Cap(max, b * x), x, k - 1)
  }

  lemma ProductIsPositive(a: real, b: real, product: real)
    requires a > 0.0 && b > 0.0 && product == a * b
    ensures product > 0.0 && (b < 1.0 ==> product <= a) && (b >= 1.0 ==> product >= a)
  {
    MulMonotone(if b < 1.0 then b else 1.0, if b < 1.0 then 1.0 else b, a);
  }

  lemma GeometricNext(b: real, x: real, n: nat)
    ensures Geometric(b, x, n + 1) == Geometric(b, x, n) * x
  {
  }

  lemma {:induction false} GeometricIsPositive(b: real, x: real, k: nat)
    requires b > 0.0 && x > 0.0
    ensures Geometric(b, x, k) > 0.0
    ensures x < 1.0 ==> Geometric(b, x, k) <= b
  {
    if k > 0 {
      GeometricIsPositive(b, x, k - 1);
      GeometricNext(b, x, k - 1);
      ProductIsPositive(Geometric(b, x, k - 1), x, Geometric(b, x, k));
    }
  }

  lemma CapGrows(max: real, lo: real, lo': real, d: real, g: real)
    requires d <= g && Cap(max, lo) <= d && (lo <= d ==> lo' <= g)
    ensures Cap(max, lo') <= Cap(max, g)
  {
  }

  /** The delay d is above the bound lo and grows to g; the bound grows to lo'. */
  lemma GrowingBelow(max: real, x: real, lo: real, lo': real, d: real, low: real, g: real)
    requires x >= 1.0 && d > 0.0 && lo' == lo * x && low == d * x <= g && Cap(max, lo) <= d
    ensures Cap(max, lo') <= Cap(max, g)
  {
    ProductIsPositive(d, x, low);
    if lo <= d {
      MulMonotone(lo, d, x);
    }
    CapGrows(max, lo, lo', d, g);
  }

  lemma GrowingAbove(max: real, x: real, hi: real, hi': real, d: real, high: real, g: real)
    requires x >= 1.0 && hi' == hi * x && high == d * x >= g && d <= Cap(max, hi)
    ensures Cap(max, g) <= Cap(max, hi')
  {
    MulMonotone(d, hi, x);
  }

  /** The delay d after k errors in a row is at least the k-th term. */
  lemma AtLeastNext(max: real, b: real, x: real, k: nat, d: real, low: real, g: real)
    requires b > 0.0 && x > 0.0 && k > 0 && d > 0.0 && Closed(max, b, x, k) <= d && low == d * x <= g
    ensures Closed(max, b, x, k + 1) <= Cap(max, g)
  {
    if x >= 1.0 {
      GeometricIsPositive(b, x, k);
      GeometricNext(b, x, k);
      GrowingBelow(max, x, Geometric(b, x, k), Geometric(b, x, k + 1), d, low, g);
    } else {
      var c := Cap(max, b * x);
      ProductIsPositive(b, x, b * x);
      ShrinkingBelow(max, c, x, k, d, low, g);
    }
  }

  lemma ShrinkingBelow(max: real, c: real, x: real, k: nat, d: real, low: real, g: real)
    requires 0.0 < c == Cap(max, c) && 0.0 < x < 1.0 && k > 0
    requires Geometric(c, x, k - 1) <= d && low == d * x <= g
    ensures Geometric(c, x, k) <= Cap(max, g)
  {
    GeometricIsPositive(c, x, k);
    GeometricNext(c, x, k - 1);
    MulMonotone(Geometric(c, x, k - 1), d, x);
  }

  /** And at most the k-th term with full jitter. */
  lemma AtMostNext(max: real, b: real, x: real, k: nat, d: real, high: real, g: real)
    requires b > 0.0 && x > 0.0 && k > 0 && d <= Closed(max, b, x, k) && high == d * x >= g
    ensures Cap(max, g) <= Closed(max, b, x, k + 1)
  {
    if x >= 1.0 {
      GeometricNext(b, x, k);
      GrowingAbove(max, x, Geometric(b, x, k), Geometric(b, x, k + 1), d, high, g);
    } else {
      ShrinkingAbove(max, Cap(max, b * x), x, k, d, high, g);
    }
  }

  lemma ShrinkingAbove(max: real, c: real, x: real, k: nat, d: real, high: real, g: real)
    requires x > 0.0 && k > 0 && d <= Geometric(c, x, k - 1) && high == d * x >= g
    ensures Cap(max, g) <= Geometric(c, x, k)
  {
    GeometricNext(c, x, k - 1);
    MulMonotone(d, Geometric(c, x, k - 1), x);
  }

  lemma FirstTerm(max: real, b: real, x: real, raw: real)
    requires raw == b * x
    ensures Closed(max, b, x, 1) == Cap(max, raw)
  {
    GeometricNext(b, x, 0);
  }

  /** Grown by the factor f and jittered by at most the share j. */
  function Grow(f: real, j: real, d: real, draw: real): real {
    if j > 0.0 then Jitter(d * f, j, draw) else d * f
  }

  /** The largest growth per error that jitter allows. */
  function Reach(f: real, j: real): real {
    f * (1.0 + if j > 0.0 then j else 0.0)
  }

  lemma GrowWithin(f: real, j: real, d: real, draw: real)
    requires f > 0.0 && 0.0 <= draw <= 1.0 && d > 0.0
    ensures d * f <= Grow(f, j, d, draw) <= d * Reach(f, j) && Reach(f, j) >= f
  {
    ProductIsPositive(d, f, d * f);
    if j > 0.0 {
      JitterWithin(d * f, j, draw);
      assert Jitter(d * f, j, 1.0) == d * f + j * (d * f);
      assert d * Reach(f, j) == d * f + j * (d * f);
      MulMonotone(1.0, 1.0 + j, f);
    }
  }

  lemma RawIsGrow(o: Options, d: real, draw: real)
    ensures Raw(o, d, draw) == Grow(Factor(o), o.jitter, d, draw)
  {
    assert d * Factor(o) == if o.factor != 0.0 then d * o.factor else d;
  }

  /** The delay d after k errors in a row lies between no jitter and full jitter. */
  ghost predicate Between(max: real, f: real, r: real, b: real, d: real, k: nat)
    requires k > 0
  {
    0.0 < d && Closed(max, b, f, k) <= d <= Closed(max, b, r, k)
  }

  lemma BetweenNext(max: real, f: real, r: real, b: real, d: real, k: nat, g: real)
    requires 0.0 < f <= r && b > 0.0 && k > 0 && Between(max, f, r, b, d, k) && d * f <= g <= d * r
    ensures Between(max, f, r, b, Cap(max, g), k + 1)
  {
    ProductIsPositive(d, f, d * f);
    AtLeastNext(max, b, f, k, d, d * f, g);
    AtMostNext(max, b, r, k, d, d * r, g);
  }

  lemma FirstBetween(max: real, f: real, r: real, b: real, g: real)
    requires 0.0 < f && b > 0.0 && b * f <= g <= b * r
    ensures Between(max, f, r, b, Cap(max, g), 1)
  {
    ProductIsPositive(b, f, b * f);
    FirstTerm(max, b, f, b * f);
    FirstTerm(max, b, r, b * r);
  }

  ghost predicate Within(o: Options, b: real, d: real, k: nat)
    requires k > 0
  {
    Between(o.maxDuration, Factor(o), Reach(Factor(o), o.jitter), b, d, k)
  }

  lemma GrownWithin(o: Options, f: real, r: real, b: real, d: real, k: nat, draw: real)
    requires f == Factor(o) > 0.0 && r == Reach(f, o.jitter) && 0.0 <= draw <= 1.0
    requires b > 0.0 && k > 0 && Between(o.maxDuration, f, r, b, d, k)
    ensures Between(o.maxDuration, f, r, b, Grown(o, d, draw), k + 1)
  {
    RawIsGrow(o, d, draw);
    GrowWithin(f, o.jitter, d, draw);
    BetweenNext(o.maxDuration, f, r, b, d, k, Grow(f, o.jitter, d, draw));
  }

  lemma FirstGrown(o: Options, f: real, r: real, b: real, draw: real)
    requires f == Factor(o) > 0.0 && r == Reach(f, o.jitter) && 0.0 <= draw <= 1.0 && b > 0.0
    ensures Between(o.maxDuration, f, r, b, Grown(o, b, draw), 1)
  {
    RawIsGrow(o, b, draw);
    GrowWithin(f, o.jitter, b, draw);
    FirstBetween(o.maxDuration, f, r, b, Grow(f, o.jitter, b, draw));
  }

  /** Jitter spreads the delay evenly: no draw leaves it, a full draw adds the whole share. */
  lemma JitterSpreads(d: real, maxFactor: real)
    ensures
      var share := if maxFactor > 0.0 then maxFactor else 1.0;
      && Jitter(d, maxFactor, 0.0) == d && Jitter(d, maxFactor, 1.0) == d + share * d
      && Jitter(d, maxFactor, 0.5) - d == Jitter(d, maxFactor, 1.0) - Jitter(d, maxFactor, 0.5)
  {
  }

  /** What an error that is not retried fast starts from: the start delay when it is the first
      in a row, else the delay before. */
  function Base(o: Options, s: State, previous: real): real {
    if s.consecutiveErrCount == 0 then Start(o, previous) else EmptyOr(previous, SECOND)
  }

  ghost predicate NoneFast(o: Options, s: State, calls: seq<Call>) {
    forall i: nat :: i < |calls| ==> !IsFast(o, StateAt(o, s, calls, i), calls[i])
  }

  lemma NoneFastNext(o: Options, s: State, calls: seq<Call>)
    requires calls != [] && NoneFast(o, s, calls)
    ensures !IsFast(o, s, calls[0]) && NoneFast(o, Next(o, s, calls[0]), calls[1..])
  {
    assert StateAt(o, s, calls, 0) == s;
    var t := Next(o, s, calls[0]);
    forall i: nat | i < |calls[1..]| ensures !IsFast(o, StateAt(o, t, calls[1..], i), calls[1..][i]) {
      assert !IsFast(o, StateAt(o, s, calls, i + 1), calls[i + 1]);
    }
  }

  /** Whatever the fast retries: the k-th error in a row that is not retried fast waits between
      its base times the factor to the k and the same with full jitter, as far as the maximum
      allows. */
  lemma SlowErrorsBackOff(o: Options, s: State, previous: real, calls: seq<Call>, k: nat)
    requires Factor(o) > 0.0 && Errors(calls) && NoneFast(o, s, calls) && k < |calls|
    requires s.lastCalledTime != 0.0 && Base(o, s, previous) > 0.0
    ensures
      var (max, b, d) := (o.maxDuration, Base(o, s, previous), Delays(o, s, previous, calls)[k]);
      Closed(max, b, Factor(o), k + 1) <= d <= Closed(max, b, Reach(Factor(o), o.jitter), k + 1)
  {
    var b := Base(o, s, previous);
    NoneFastNext(o, s, calls);
    FirstGrown(o, Factor(o), Reach(Factor(o), o.jitter), b, calls[0].draw);
    if k > 0 {
      LaterErrors(o, Next(o, s, calls[0]), Delay(o, s, previous, calls[0]), calls[1..], k - 1, b, 1);
    }
  }

  /** With fast retries off, the k-th error in a row waits between the start delay times
      the factor to the k and the same with full jitter, as far as the maximum allows. */
  lemma ErrorsBackOff(o: Options, s: State, previous: real, calls: seq<Call>, k: nat)
    requires o.fastRetryCount <= 0 && Factor(o) > 0.0 && Errors(calls) && k < |calls|
    requires s.lastCalledTime != 0.0 && s.consecutiveErrCount == 0 && Start(o, previous) > 0.0
    ensures
      var (max, b, d) := (o.maxDuration, Start(o, previous), Delays(o, s, previous, calls)[k]);
      Closed(max, b, Factor(o), k + 1) <= d <= Closed(max, b, Reach(Factor(o), o.jitter), k + 1)
  {
    SlowErrorsBackOff(o, s, previous, calls, k);
  }

  lemma {:induction false} LaterErrors(o: Options, s: State, d: real, calls: seq<Call>, k: nat, b: real, n: nat)
    requires Factor(o) > 0.0 && Errors(calls) && NoneFast(o, s, calls) && k < |calls|
    requires s.lastCalledTime != 0.0 && s.consecutiveErrCount > 0 && b > 0.0 && n > 0 && Within(o, b, d, n)
    ensures Within(o, b, Delays(o, s, d, calls)[k], n + k + 1)
    decreases k
  {
    NoneFastNext(o, s, calls);
    GrownWithin(o, Factor(o), Reach(Factor(o), o.jitter), b, d, n, calls[0].draw);
    if k > 0 {
      LaterErrors(o, Next(o, s, calls[0]), Delay(o, s, d, calls[0]), calls[1..], k - 1, b, n + 1);
    }
  }

  /** Without jitter the delay is exact. */
  lemma ErrorsBackOffExactly(o: Options, s: State, previous: real, calls: seq<Call>, k: nat)
    requires o.fastRetryCount <= 0 && Factor(o) > 0.0 && o.jitter <= 0.0 && Errors(calls) && k < |calls|
    requires s.lastCalledTime != 0.0 && s.consecutiveErrCount == 0 && Start(o, previous) > 0.0
    ensures Delays(o, s, previous, calls)[k] == Closed(o.maxDuration, Start(o, previous), Factor(o), k + 1)
  {
    ErrorsBackOff(o, s, previous, calls, k);
    assert Reach(Factor(o), o.jitter) == Factor(o);
  }

  // ---- fast and slow retries together ----

  lemma {:induction false} DelaysFrom(o: Options, s: State, previous: real, calls: seq<Call>, i: nat, j: nat)
    requires 0 < i && i + j < |calls|
    ensures Delays(o, s, previous, calls)[i + j] ==
      Delays(o, StateAt(o, s, calls, i), Delays(o, s, previous, calls)[i - 1], calls[i..])[j]
    decreases i
  {
    var (t, d) := (Next(o, s, calls[0]), Delay(o, s, previous, calls[0]));
    if i > 1 {
      DelaysFrom(o, t, d, calls[1..], i - 1, j);
      assert calls[1..][i - 1..] == calls[i..];
    } else {
      assert StateAt(o, t, calls[1..], 0) == t;
    }
  }

  lemma {:induction false} StateFrom(o: Options, s: State, calls: seq<Call>, i: nat, j: nat)
    requires i + j <= |calls|
    ensures StateAt(o, s, calls, i + j) == StateAt(o, StateAt(o, s, calls, i), calls[i..], j)
    decreases i
  {
    if i > 0 {
      StateFrom(o, Next(o, s, calls[0]), calls[1..], i - 1, j);
      assert calls[1..][i - 1..] == calls[i..];
    } else {
      assert calls[0..] == calls;
    }
  }

  /** No call is late enough for a reset of the fast retries. */
  ghost predicate WithinWindow(s: State, calls: seq<Call>) {
    forall i :: 0 <= i < |calls| ==> calls[i].now <= s.fastRetryCutoffTime
  }

  /** In a run of errors within the window, exactly those are retried fast for which the count
      lasts. */
  lemma {:induction false} FastExactlyFirst(o: Options, s: State, calls: seq<Call>, i: nat)
    requires o.fastRetryCount > 0 && s.lastCalledTime != 0.0 && Errors(calls) && WithinWindow(s, calls) && i < |calls|
    ensures
      var t := StateAt(o, s, calls, i);
      && (IsFast(o, t, calls[i]) <==> i < Left(o, s)) && !IsReset(o, t, calls[i])
      && t.lastCalledTime != 0.0 && t.fastRetryCutoffTime == s.fastRetryCutoffTime
      && t.consecutiveErrCount == s.consecutiveErrCount + i
      && t.countsInFastRetryWindow == s.countsInFastRetryWindow + i
    decreases i
  {
    if i > 0 {
      FastExactlyFirst(o, Next(o, s, calls[0]), calls[1..], i - 1);
    }
  }

  /** An error past the count and past the window is not retried fast, but starts a new window
      in which the next n errors, and only those, are. */
  lemma ResetRefills(o: Options, s: State, c: Call, calls: seq<Call>, i: nat)
    requires o.fastRetryCount > 0 && s.lastCalledTime != 0.0 && c.err && c.now != 0.0
    requires s.countsInFastRetryWindow >= o.fastRetryCount && c.now > s.fastRetryCutoffTime
    requires Errors(calls) && i < |calls| && forall j :: 0 <= j < |calls| ==> calls[j].now <= c.now + o.fastRetryWindow
    ensures !IsFast(o, s, c)
    ensures IsFast(o, StateAt(o, Next(o, s, c), calls, i), calls[i]) <==> i < o.fastRetryCount
  {
    FastExactlyFirst(o, Next(o, s, c), calls, i);
  }

  /** The errors after the fast ones. */
  lemma SlowAfterFast(o: Options, s: State, calls: seq<Call>, left: nat)
    requires o.fastRetryCount > 0 && s.lastCalledTime != 0.0 && Errors(calls) && WithinWindow(s, calls)
    requires left == Left(o, s) < |calls|
    ensures
      var t := StateAt(o, s, calls, left);
      t.lastCalledTime != 0.0 && t.consecutiveErrCount == s.consecutiveErrCount + left
      && NoneFast(o, t, calls[left..]) && Errors(calls[left..])
  {
    var t := StateAt(o, s, calls, left);
    FastExactlyFirst(o, s, calls, left);
    forall i: nat | i < |calls[left..]| ensures !IsFast(o, StateAt(o, t, calls[left..], i), calls[left..][i]) {
      StateFrom(o, s, calls, left, i);
      FastExactlyFirst(o, s, calls, left + i);
    }
  }

  /** A run of errors within a window: the fast retries that are left come first, each within
      its jitter, and after the last of them the delays back off from it. */
  lemma ErrorsInWindow(o: Options, s: State, previous: real, calls: seq<Call>, k: nat)
    requires o.fastRetryCount > 0 && s.lastCalledTime != 0.0 && Errors(calls) && WithinWindow(s, calls)
    requires k < |calls| && Factor(o) > 0.0 && o.fastRetryDelay > 0.0 && Left(o, s) > 0
    ensures
      var (ds, left) := (Delays(o, s, previous, calls), Left(o, s));
      var share := if o.fastRetryJitter > 0.0 then o.fastRetryJitter else 1.0;
      if k < left then o.fastRetryDelay <= ds[k] <= o.fastRetryDelay + share * o.fastRetryDelay
      else
        Closed(o.maxDuration, ds[left - 1], Factor(o), k - left + 1) <= ds[k]
        <= Closed(o.maxDuration, ds[left - 1], Reach(Factor(o), o.jitter), k - left + 1)
  {
    var (ds, left) := (Delays(o, s, previous, calls), Left(o, s));
    FastExactlyFirst(o, s, calls, k);
    DelaysAreBounded(o, s, previous, calls, k);
    if k >= left {
      FastExactlyFirst(o, s, calls, left - 1);
      DelaysAreBounded(o, s, previous, calls, left - 1);
      SlowAfterFast(o, s, calls, left);
      DelaysFrom(o, s, previous, calls, left, k - left);
      SlowErrorsBackOff(o, StateAt(o, s, calls, left), ds[left - 1], calls[left..], k - left);
    }
  }

  /** And when none is left the delays back off from the start. */
  lemma ErrorsPastFast(o: Options, s: State, previous: real, calls: seq<Call>, k: nat)
    requires o.fastRetryCount > 0 && s.lastCalledTime != 0.0 && Errors(calls) && WithinWindow(s, calls)
    requires k < |calls| && Factor(o) > 0.0 && Base(o, s, previous) > 0.0 && Left(o, s) == 0
    ensures
      var (b, d) := (Base(o, s, previous), Delays(o, s, previous, calls)[k]);
      Closed(o.maxDuration, b, Factor(o), k + 1) <= d <= Closed(o.maxDuration, b, Reach(Factor(o), o.jitter), k + 1)
  {
    SlowAfterFast(o, s, calls, 0);
    assert calls[0..] == calls && StateAt(o, s, calls, 0) == s;
    SlowErrorsBackOff(o, s, previous, calls, k);
  }

  /** A success starts the back-off anew: the next error is the first in a row again. */
  lemma {:induction false} SuccessStartsOver(o: Options, s: State, calls: seq<Call>, i: nat)
    requires i < |calls| && !calls[i].err && forall j :: 0 <= j < |calls| ==> calls[j].now != 0.0
    requires s.lastCalledTime == 0.0 ==> s.consecutiveErrCount == 0
    ensures StateAt(o, s, calls, i + 1).consecutiveErrCount == 0
    ensures StateAt(o, s, calls, i + 1).lastCalledTime != 0.0
    decreases i
  {
    if i > 0 {
      SuccessStartsOver(o, Next(o, s, calls[0]), calls[1..], i - 1);
    } else {
      assert StateAt(o, Next(o, s, calls[0]), calls[1..], 0) == Next(o, s, calls[0]);
    }
  }

  lemma SlowAfterSuccess(o: Options, calls: seq<Call>, i: nat, k: nat, f: real, r: real, b: real)
    requires f == Factor(o) > 0.0 && r == Reach(f, o.jitter)
    requires i + 1 + k < |calls| && !calls[i].err && Errors(calls[i + 1..])
    requires forall j :: 0 <= j < |calls| ==> calls[j].now != 0.0
    requires NoneFast(o, StateAt(o, INIT, calls, i + 1), calls[i + 1..]) && b == Start(o, o.duration) > 0.0
    ensures
      var d := Delays(o, INIT, 0.0, calls)[i + 1 + k];
      Closed(o.maxDuration, b, f, k + 1) <= d <= Closed(o.maxDuration, b, r, k + 1)
  {
    var s := StateAt(o, INIT, calls, i + 1);
    SuccessStartsOver(o, INIT, calls, i);
    SuccessWaits(o, INIT, 0.0, calls, i);
    DelaysFrom(o, INIT, 0.0, calls, i + 1, k);
    SlowErrorsBackOff(o, s, o.duration, calls[i + 1..], k);
  }

  /** Over every run from the start: the k-th of the errors that follow a success, none of them
      retried fast, waits b f^k, or with full jitter b r^k. The factor f is 1 if none is given;
      b is the initial duration for failures, else the duration, else a second. */
  lemma BackOffAfterSuccess(o: Options, calls: seq<Call>, i: nat, k: nat, f: real, r: real, b: real)
    requires f == (if o.factor == 0.0 then 1.0 else o.factor) > 0.0
    requires r == f * (1.0 + if o.jitter > 0.0 then o.jitter else 0.0)
    requires 0.0 < b == if o.initDurationIfFail != 0.0 then o.initDurationIfFail
                        else if o.duration != 0.0 then o.duration else 1000000000.0
    requires i + 1 + k < |calls| && !calls[i].err && Errors(calls[i + 1..])
    requires forall j :: 0 <= j < |calls| ==> calls[j].now != 0.0
    requires NoneFast(o, StateAt(o, INIT, calls, i + 1), calls[i + 1..])
    ensures
      var d := Delays(o, INIT, 0.0, calls)[i + 1 + k];
      Closed(o.maxDuration, b, f, k + 1) <= d <= Closed(o.maxDuration, b, r, k + 1)
  {
    ReachIs(f, o.jitter, r);
    SlowAfterSuccess(o, calls, i, k, f, r, b);
  }

  lemma ReachIs(f: real, jitter: real, r: real)
    requires r == f * (1.0 + if jitter > 0.0 then jitter else 0.0)
    ensures r == Reach(f, jitter)
  {
  }

  lemma {:induction false} SuccessWaits(o: Options, s: State, previous: real, calls: seq<Call>, i: nat)
    requires i < |calls| && !calls[i].err
    ensures Delays(o, s, previous, calls)[i] == o.duration
    decreases i
  {
    if i > 0 {
      SuccessWaits(o, Next(o, s, calls[0]), Delay(o, s, previous, calls[0]), calls[1..], i - 1);
    }
  }
}
