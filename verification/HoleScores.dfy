/** The score list behind NAT hole punching recommendations: take the first best entry
    and lower it, reward a reported success up to a cap. */
module HoleScores {
  import opened Base

  datatype Score = Score(mode: int, index: int, score: int)

  const MAX_SCORE := 10

  ghost predicate Capped(s: seq<Score>) {
    forall j :: 0 <= j < |s| ==> s[j].score <= MAX_SCORE
  }

  /** slices.MaxFunc: the first entry of maximal score. */
  ghost predicate IsFirstMax(s: seq<Score>, p: int) {
    && 0 <= p < |s|
    && (forall j :: 0 <= j < |s| ==> s[j].score <= s[p].score)
    && (forall j :: 0 <= j < p ==> s[j].score < s[p].score)
  }

  lemma {:induction false} SomeFirstMax(s: seq<Score>) returns (p: nat)
    requires s != []
    ensures IsFirstMax(s, p)
  {
    p := 0;
    if |s| > 1 {
      var init, last := s[..|s| - 1], |s| - 1;
      var q := SomeFirstMax(init);
      assert forall j :: 0 <= j < last ==> init[j] == s[j];
      p := if s[last].score > s[q].score then last else q;
    }
  }

  lemma FirstMaxExists(s: seq<Score>)
    requires s != []
    ensures exists p: nat :: IsFirstMax(s, p)
  {
    var p := SomeFirstMax(s);
  }

  ghost function FirstMax(s: seq<Score>): (p: nat)
    requires s != []
    ensures IsFirstMax(s, p)
  {
    FirstMaxExists(s);
    var p: nat :| IsFirstMax(s, p);
    p
  }

  lemma OneFirstMax(s: seq<Score>, p: nat, q: nat)
    requires IsFirstMax(s, p) && IsFirstMax(s, q)
    ensures p == q
  {
    assert s[p].score <= s[q].score && s[q].score <= s[p].score;
  }

  ghost function Lowered(s: seq<Score>): (t: seq<Score>)
    requires s != []
  {
    s[FirstMax(s) := s[FirstMax(s)].(score := s[FirstMax(s)].score - 1)]
  }

  predicate Reported(e: Score, mode: int, index: int) {
    e.mode == mode && e.index == index
  }

  /** The first entry with the mode and index gains two, up to the cap. */
  function Rewarded(s: seq<Score>, mode: int, index: int): (t: seq<Score>)
    ensures |t| == |s|
  {
    if s == [] then []
    else if Reported(s[0], mode, index) then [s[0].(score := Min(s[0].score + 2, MAX_SCORE))] + s[1..]
    else [s[0]] + Rewarded(s[1..], mode, index)
  }

  function ReportGain(s: seq<Score>, mode: int, index: int): int {
    if s == [] then 0
    else if Reported(s[0], mode, index) then Min(s[0].score + 2, MAX_SCORE) - s[0].score
    else ReportGain(s[1..], mode, index)
  }

  /** A report changes at most one entry, and that one by at most two upwards. */
  lemma {:induction false} RewardedAt(s: seq<Score>, mode: int, index: int) returns (p: int)
    requires Capped(s)
    ensures -1 <= p < |s|
    ensures p == -1 ==> Rewarded(s, mode, index) == s
    ensures ReportGain(s, mode, index) == if p == -1 then 0 else Min(s[p].score + 2, MAX_SCORE) - s[p].score
    ensures p >= 0 ==>
      && Reported(s[p], mode, index)
      && Rewarded(s, mode, index) == s[p := s[p].(score := Min(s[p].score + 2, MAX_SCORE))]
    ensures forall j :: 0 <= j < |s| && (p == -1 || j < p) ==> !Reported(s[j], mode, index)
  {
    if s == [] {
      p := -1;
    } else if Reported(s[0], mode, index) {
      p := 0;
    } else {
      var q := RewardedAt(s[1..], mode, index);
      p := if q == -1 then -1 else q + 1;
      assert s == [s[0]] + s[1..];
    }
  }

  lemma UpdateSplits(s: seq<Score>, i: nat, e: Score)
    requires i < |s|
    ensures s[i := e] == s[..i] + ([e] + s[i..][1..])
  {
  }

  class MakeHoleRecords {
    var scores: seq<Score>
    var lastUpdateTime: int

    constructor (scores: seq<Score>, now: int)
      ensures this.scores == scores && lastUpdateTime == now
    {
      this.scores, lastUpdateTime := scores, now;
    }

    method ReportSuccess(mode: int, index: int, now: int)
      modifies this
      ensures scores == Rewarded(old(scores), mode, index)
      ensures lastUpdateTime == now
    {
      lastUpdateTime := now;
      for i := 0 to |scores|
        invariant scores == old(scores)
        invariant Rewarded(scores, mode, index) == scores[..i] + Rewarded(scores[i..], mode, index)
      {
        assert scores[i..][1..] == scores[i + 1..];
        if Reported(scores[i], mode, index) {
          UpdateSplits(scores, i, scores[i].(score := Min(scores[i].score + 2, MAX_SCORE)));
          scores := scores[i := scores[i].(score := Min(scores[i].score + 2, MAX_SCORE))];
          return;
        }
      }
    }

    /** With no entries the answer is mode 0 and index 0. */
    method Recommand(now: int) returns (mode: int, index: int)
      modifies this
      ensures old(scores) == [] ==> scores == [] && (mode, index) == (0, 0) && lastUpdateTime == old(lastUpdateTime)
      ensures old(scores) != [] ==>
        && scores == Lowered(old(scores)) && lastUpdateTime == now
        && (mode, index) == (old(scores)[FirstMax(old(scores))].mode, old(scores)[FirstMax(old(scores))].index)
    {
      if |scores| == 0 {
        return 0, 0;
      }
      var best := 0;
      for i := 1 to |scores|
        invariant IsFirstMax(scores[..i], best)
      {
        if scores[i].score > scores[best].score {
          best := i;
        }
      }
      assert scores[..|scores|] == scores;
      assert IsFirstMax(scores, FirstMax(scores));
      scores := scores[best := scores[best].(score := scores[best].score - 1)];
      lastUpdateTime := now;
      return scores[best].mode, scores[best].index;
    }
  }

  // ---- runs ----

  datatype Op = Recommend | Report(mode: int, index: int)

  ghost function Apply(s: seq<Score>, op: Op): (t: seq<Score>)
    requires s != []
    ensures |t| == |s|
  {
    match op
    case Recommend => Lowered(s)
    case Report(m, i) => Rewarded(s, m, i)
  }

  ghost function Final(s: seq<Score>, ops: seq<Op>): (t: seq<Score>)
    requires s != []
    ensures |t| == |s|
    decreases |ops|
  {
    if ops == [] then s else Final(Apply(s, ops[0]), ops[1..])
  }

  /** The positions recommended during a run. */
  ghost function Picks(s: seq<Score>, ops: seq<Op>): seq<nat>
    requires s != []
    decreases |ops|
  {
    if ops == [] then []
    else (if ops[0].Recommend? then [FirstMax(s)] else []) + Picks(Apply(s, ops[0]), ops[1..])
  }

  function Recommendations(ops: seq<Op>): nat {
    if ops == [] then 0 else (if ops[0].Recommend? then 1 else 0) + Recommendations(ops[1..])
  }

  function Reports(ops: seq<Op>): nat {
    if ops == [] then 0 else (if ops[0].Report? then 1 else 0) + Reports(ops[1..])
  }

  lemma ApplyKeepsCapped(s: seq<Score>, op: Op)
    requires s != [] && Capped(s)
    ensures Capped(Apply(s, op))
  {
    if op.Report? {
      var p := RewardedAt(s, op.mode, op.index);
    }
  }

  /** No score ever exceeds the cap. */
  lemma {:induction false} AlwaysCapped(s: seq<Score>, ops: seq<Op>)
    requires s != [] && Capped(s)
    ensures Capped(Final(s, ops))
    decreases |ops|
  {
    if ops != [] {
      ApplyKeepsCapped(s, ops[0]);
      AlwaysCapped(Apply(s, ops[0]), ops[1..]);
    }
  }

  // ---- sums over the list ----

  function Total(s: seq<Score>): int {
    if s == [] then 0 else Total(s[..|s| - 1]) + s[|s| - 1].score
  }

  lemma {:induction false} TotalUpdate(s: seq<Score>, p: nat, e: Score)
    requires p < |s|
    ensures Total(s[p := e]) == Total(s) - s[p].score + e.score
  {
    var init := s[..|s| - 1];
    if p == |s| - 1 {
      assert s[p := e][..|s| - 1] == init;
    } else {
      TotalUpdate(init, p, e);
      assert s[p := e][..|s| - 1] == init[p := e];
    }
  }

  /** What an operation adds: a report of a known behaviour two, or what is left up to the cap. */
  function Gain(s: seq<Score>, op: Op): int {
    match op
    case Recommend => 0
    case Report(m, i) => ReportGain(s, m, i)
  }

  ghost function Gains(s: seq<Score>, ops: seq<Op>): int
    requires s != []
    decreases |ops|
  {
    if ops == [] then 0 else Gain(s, ops[0]) + Gains(Apply(s, ops[0]), ops[1..])
  }

  lemma TotalAfter(s: seq<Score>, op: Op)
    requires s != [] && Capped(s)
    ensures Total(Apply(s, op)) == Total(s) - (if op.Recommend? then 1 else 0) + Gain(s, op)
    ensures 0 <= Gain(s, op) <= if op.Report? then 2 else 0
  {
    match op
    case Recommend =>
      TotalUpdate(s, FirstMax(s), s[FirstMax(s)].(score := s[FirstMax(s)].score - 1));
    case Report(m, i) =>
      var p := RewardedAt(s, m, i);
      if p >= 0 {
        TotalUpdate(s, p, s[p].(score := Min(s[p].score + 2, MAX_SCORE)));
      }
  }

  /** Conservation: every recommendation takes one from the total, every report puts
      back between nothing and two. */
  lemma {:induction false} TotalIsConserved(s: seq<Score>, ops: seq<Op>)
    requires s != [] && Capped(s)
    ensures Total(Final(s, ops)) == Total(s) - Recommendations(ops) + Gains(s, ops)
    ensures 0 <= Gains(s, ops) <= 2 * Reports(ops)
    decreases |ops|
  {
    if ops != [] {
      TotalAfter(s, ops[0]);
      ApplyKeepsCapped(s, ops[0]);
      TotalIsConserved(Apply(s, ops[0]), ops[1..]);
    }
  }

  // ---- bounded waiting ----

  function Above(a: int, b: int): nat {
    if a >= b then a - b + 1 else 0
  }

  /** How many recommendations can go to the first k entries before entry t is due. */
  function Excess(s: seq<Score>, t: nat, k: nat): nat
    requires t < |s| && k <= |s|
  {
    if k == 0 then 0
    else Excess(s, t, k - 1) + if k - 1 == t then 0 else Above(s[k - 1].score, s[t].score)
  }

  lemma {:induction false} ExcessUpdateOther(s: seq<Score>, t: nat, k: nat, p: nat, e: Score)
    requires t < |s| && k <= |s| && p < |s| && p != t
    ensures Excess(s[p := e], t, k) == Excess(s, t, k) +
      if p < k then Above(e.score, s[t].score) - Above(s[p].score, s[t].score) else 0
  {
    if k > 0 {
      ExcessUpdateOther(s, t, k - 1, p, e);
    }
  }

  lemma {:induction false} ExcessUpdateSelf(s: seq<Score>, t: nat, k: nat, e: Score)
    requires t < |s| && k <= |s| && e.score >= s[t].score
    ensures Excess(s[t := e], t, k) <= Excess(s, t, k)
  {
    if k > 0 {
      ExcessUpdateSelf(s, t, k - 1, e);
    }
  }

  lemma {:induction false} ExcessBound(s: seq<Score>, t: nat, k: nat)
    requires t < |s| && k <= |s| && Capped(s)
    ensures Excess(s, t, k) <= (if t < k then k - 1 else k) * (11 - s[t].score)
  {
    if k > 0 {
      ExcessBound(s, t, k - 1);
      var c := if t < k - 1 then k - 2 else k - 1;
      var d := 11 - s[t].score;
      assert (c + 1) * d == c * d + d;
    }
  }

  lemma PickLowersExcess(s: seq<Score>, t: nat)
    requires t < |s| && FirstMax(s) != t
    ensures Excess(Lowered(s), t, |s|) == Excess(s, t, |s|) - 1
  {
    var p := FirstMax(s);
    ExcessUpdateOther(s, t, |s|, p, s[p].(score := s[p].score - 1));
  }

  lemma ReportRaisesExcess(s: seq<Score>, t: nat, mode: int, index: int)
    requires t < |s| && Capped(s)
    ensures Excess(Rewarded(s, mode, index), t, |s|) <= Excess(s, t, |s|) + 2
  {
    var p := RewardedAt(s, mode, index);
    if p >= 0 {
      var e := s[p].(score := Min(s[p].score + 2, MAX_SCORE));
      if p == t {
        ExcessUpdateSelf(s, t, |s|, e);
      } else {
        ExcessUpdateOther(s, t, |s|, p, e);
      }
    }
  }

  lemma {:induction false} SkippedAtMost(s: seq<Score>, ops: seq<Op>, t: nat)
    requires t < |s| && Capped(s) && t !in Picks(s, ops)
    ensures Recommendations(ops) <= Excess(s, t, |s|) + 2 * Reports(ops)
    decreases |ops|
  {
    if ops != [] {
      ApplyKeepsCapped(s, ops[0]);
      SkippedAtMost(Apply(s, ops[0]), ops[1..], t);
      match ops[0]
      case Recommend =>
        assert FirstMax(s) in Picks(s, ops);
        PickLowersExcess(s, t);
      case Report(m, i) => ReportRaisesExcess(s, t, m, i);
    }
  }

  /** Bounded waiting: in any run with k reports, an entry of score x in a list of n
      entries is recommended within (n-1)(11-x) + 2k + 1 recommendations. */
  lemma NobodyStarves(s: seq<Score>, ops: seq<Op>, t: nat)
    requires t < |s| && Capped(s)
    requires Recommendations(ops) >= (|s| - 1) * (11 - s[t].score) + 2 * Reports(ops) + 1
    ensures t in Picks(s, ops)
  {
    if t !in Picks(s, ops) {
      SkippedAtMost(s, ops, t);
      ExcessBound(s, t, |s|);
    }
  }

  // ---- runs without reports ----

  ghost function LoweredTimes(s: seq<Score>, i: nat): (t: seq<Score>)
    requires s != []
    ensures |t| == |s|
  {
    if i == 0 then s else Lowered(LoweredTimes(s, i - 1))
  }

  lemma {:induction false} LoweredTwice(s: seq<Score>, i: nat, j: nat)
    requires s != []
    ensures LoweredTimes(LoweredTimes(s, i), j) == LoweredTimes(s, i + j)
  {
    if j > 0 {
      LoweredTwice(s, i, j - 1);
      SameNext(LoweredTimes(s, i), j, s, i + j);
    }
  }

  lemma SameNext(s: seq<Score>, i: nat, t: seq<Score>, j: nat)
    requires s != [] && t != [] && i > 0 && j > 0 && LoweredTimes(s, i - 1) == LoweredTimes(t, j - 1)
    ensures LoweredTimes(s, i) == LoweredTimes(t, j)
  {
  }

  lemma LoweredNext(s: seq<Score>, i: nat)
    requires s != [] && i > 0
    ensures LoweredTimes(s, i) == Lowered(LoweredTimes(s, i - 1))
  {
  }

  /** Scores after i recommendations when q full rounds and r further calls are done. */
  ghost predicate Round(s: seq<Score>, c: int, q: nat, r: nat) {
    forall j :: 0 <= j < |s| ==> s[j].score == c - q - (if j < r then 1 else 0)
  }

  lemma RoundStep(s: seq<Score>, c: int, q: nat, r: nat)
    requires r < |s| && Round(s, c, q, r)
    ensures FirstMax(s) == r
    ensures Round(Lowered(s), c, q, r + 1)
    ensures r + 1 == |s| ==> Round(Lowered(s), c, q + 1, 0)
  {
    OneFirstMax(s, r, FirstMax(s));
  }

  lemma {:induction false} RoundAfter(s: seq<Score>, c: int, i: nat, q: nat, r: nat)
    requires s != [] && Round(s, c, 0, 0)
    requires i == q * |s| + r && r < |s|
    ensures Round(LoweredTimes(s, i), c, q, r)
    decreases i
  {
    var n := |s|;
    if r > 0 {
      RoundAfter(s, c, i - 1, q, r - 1);
      RoundStep(LoweredTimes(s, i - 1), c, q, r - 1);
    } else if q > 0 {
      MulAtLeast(q, n);
      assert i - 1 == (q - 1) * n + (n - 1);
      RoundAfter(s, c, i - 1, q - 1, n - 1);
      RoundStep(LoweredTimes(s, i - 1), c, q - 1, n - 1);
    }
  }

  /** From equal scores the i-th recommendation is entry i mod n. */
  lemma RoundRobin(s: seq<Score>, c: int, i: nat)
    requires s != [] && forall j :: 0 <= j < |s| ==> s[j].score == c
    ensures Round(LoweredTimes(s, i), c, i / |s|, i % |s|)
    ensures FirstMax(LoweredTimes(s, i)) == i % |s|
  {
    RoundAfter(s, c, i, i / |s|, i % |s|);
    RoundStep(LoweredTimes(s, i), c, i / |s|, i % |s|);
  }

  lemma NextInTurn(s: seq<Score>, c: int, i: nat, n: nat)
    requires s != [] && n == |s| && forall j :: 0 <= j < |s| ==> s[j].score == c
    ensures FirstMax(LoweredTimes(s, i)) == i % n
  {
    RoundRobin(s, c, i);
  }

  /** Distance of the scores from the level m, added up. */
  function Surplus(s: seq<Score>, m: int): int {
    if s == [] then 0 else Surplus(s[..|s| - 1], m) + s[|s| - 1].score - m
  }

  lemma {:induction false} SurplusIsDistance(s: seq<Score>, m: int)
    ensures Surplus(s, m) == Total(s) - m * |s|
  {
    if s != [] {
      SurplusIsDistance(s[..|s| - 1], m);
      assert m * |s| == m * (|s| - 1) + m;
    }
  }

  lemma {:induction false} SurplusUpdate(s: seq<Score>, m: int, p: nat, e: Score)
    requires p < |s|
    ensures Surplus(s[p := e], m) == Surplus(s, m) - s[p].score + e.score
  {
    var init := s[..|s| - 1];
    if p == |s| - 1 {
      assert s[p := e][..|s| - 1] == init;
    } else {
      SurplusUpdate(init, m, p, e);
      assert s[p := e][..|s| - 1] == init[p := e];
    }
  }

  ghost predicate AtLeast(s: seq<Score>, m: int) {
    forall j :: 0 <= j < |s| ==> s[j].score >= m
  }

  lemma {:induction false} SurplusZero(s: seq<Score>, m: int)
    requires AtLeast(s, m)
    ensures Surplus(s, m) >= 0
    ensures Surplus(s, m) == 0 <==> forall j :: 0 <= j < |s| ==> s[j].score == m
  {
    if s != [] {
      SurplusZero(s[..|s| - 1], m);
    }
  }

  /** The list levels out: after exactly the surplus over a lower bound, all scores are
      equal to that bound. */
  lemma {:induction false} LevelsOut(s: seq<Score>, m: int, d: nat)
    requires s != [] && AtLeast(s, m) && d == Surplus(s, m)
    ensures forall j :: 0 <= j < |s| ==> LoweredTimes(s, d)[j].score == m
    decreases d
  {
    SurplusZero(s, m);
    if d > 0 {
      var p := FirstMax(s);
      var t := Lowered(s);
      SurplusUpdate(s, m, p, s[p].(score := s[p].score - 1));
      LevelsOut(t, m, d - 1);
      LoweredTwice(s, 1, d - 1);
      assert LoweredTimes(s, 1) == Lowered(LoweredTimes(s, 0));
    }
  }

  /** From any scores: once leveled, the calls go round the list in order, so that every
      n consecutive calls try each entry exactly once. */
  lemma EventuallyRoundRobin(s: seq<Score>, m: int, i: nat)
    requires s != [] && AtLeast(s, m)
    ensures Surplus(s, m) >= 0
    ensures FirstMax(LoweredTimes(s, Surplus(s, m) + i)) == i % |s|
  {
    SurplusZero(s, m);
    var d := Surplus(s, m);
    LevelsOut(s, m, d);
    NextInTurn(LoweredTimes(s, d), m, i, |s|);
    LoweredTwice(s, d, i);
  }

  /** The entry the i-th call recommends, counting from zero. */
  ghost function PickAt(s: seq<Score>, i: nat): nat
    requires s != []
  {
    FirstMax(LoweredTimes(s, i))
  }

  /** Entry a is due before entry b: a better score, or the same one further up the list. */
  predicate DueBefore(s: seq<Score>, a: int, b: int) {
    0 <= a < |s| && 0 <= b < |s| && (s[a].score > s[b].score || (s[a].score == s[b].score && a < b))
  }

  /** Without reports, an entry is not recommended before every entry that is due before it
      has been. */
  lemma {:induction false} DueComesFirst(s: seq<Score>, a: nat, b: nat, k: nat) returns (j: nat)
    requires DueBefore(s, a, b) && PickAt(s, k) == b
    ensures j < k && PickAt(s, j) == a
    decreases k
  {
    var p := FirstMax(s);
    assert IsFirstMax(s, p) && p != b;
    if p == a {
      j := 0;
    } else {
      LoweredTwice(s, 1, k - 1);
      assert LoweredTimes(s, 1) == Lowered(LoweredTimes(s, 0));
      j := DueComesFirst(Lowered(s), a, b, k - 1);
      LoweredTwice(s, 1, j);
      j := j + 1;
    }
  }

  /** From then on every n consecutive calls try each entry exactly once. */
  lemma EachOncePerRound(s: seq<Score>, m: int, start: nat, t: nat)
    requires s != [] && AtLeast(s, m) && t < |s|
    requires Surplus(s, m) <= start
    ensures exists k :: start <= k < start + |s| && PickAt(s, k) == t
    ensures forall k, l :: start <= k < l < start + |s| ==> PickAt(s, k) != PickAt(s, l)
  {
    SurplusZero(s, m);
    var d, n := Surplus(s, m), |s|;
    OncePerRound(start - d, n, t);
    var i := Turn(start - d, n, t);
    PickIsTurn(s, m, d + i, i, n);
    forall k, l | start <= k < l < start + |s| ensures PickAt(s, k) != PickAt(s, l) {
      PickIsTurn(s, m, k, k - d, n);
      PickIsTurn(s, m, l, l - d, n);
      DistinctInRound(start - d, n, k - d, l - d);
    }
  }

  lemma PickIsTurn(s: seq<Score>, m: int, k: nat, i: nat, n: nat)
    requires s != [] && AtLeast(s, m) && k == Surplus(s, m) + i && n == |s|
    ensures PickAt(s, k) == i % n
  {
    EventuallyRoundRobin(s, m, i);
  }

  // ---- how low scores get ----

  /** One recommendation takes one from the surplus, and keeps a bound exactly while some
      score is above it. */
  lemma LoweredKeepsBoundIff(s: seq<Score>, m: int)
    requires s != [] && AtLeast(s, m)
    ensures Surplus(Lowered(s), m) == Surplus(s, m) - 1
    ensures AtLeast(Lowered(s), m) <==> Surplus(s, m) > 0
  {
    var p := FirstMax(s);
    SurplusUpdate(s, m, p, s[p].(score := s[p].score - 1));
    SurplusZero(s, m);
    assert IsFirstMax(s, p);
    assert Lowered(s)[p].score == s[p].score - 1;
  }

  /** Without reports a bound lasts for exactly as many calls as the scores are above it,
      added up. */
  lemma {:induction false} BoundLastsIff(s: seq<Score>, m: int, i: nat)
    requires s != [] && AtLeast(s, m)
    ensures AtLeast(LoweredTimes(s, i), m) <==> i <= Surplus(s, m)
    ensures i <= Surplus(s, m) ==> Surplus(LoweredTimes(s, i), m) == Surplus(s, m) - i
    decreases i
  {
    SurplusZero(s, m);
    if i > 0 {
      var t := LoweredTimes(s, i - 1);
      BoundLastsIff(s, m, i - 1);
      LoweredNext(s, i);
      if i <= Surplus(s, m) + 1 {
        LoweredKeepsBoundIff(t, m);
      } else {
        LoweredStaysBelow(t, m);
      }
    }
  }

  lemma LoweredStaysBelow(s: seq<Score>, m: int)
    requires s != [] && !AtLeast(s, m)
    ensures !AtLeast(Lowered(s), m)
  {
    var j :| 0 <= j < |s| && s[j].score < m;
    assert Lowered(s)[j].score <= s[j].score;
  }

  lemma {:induction false} FinalAppend(s: seq<Score>, ops: seq<Op>, op: Op)
    requires s != []
    ensures Final(s, ops + [op]) == Apply(Final(s, ops), op)
    decreases |ops|
  {
    if ops == [] {
      assert Final(Apply(s, op), []) == Apply(s, op);
    } else {
      FinalAppend(Apply(s, ops[0]), ops[1..], op);
      assert (ops + [op])[1..] == ops[1..] + [op];
    }
  }

  /** The surplus after a run: less the recommendations, plus the gains. */
  lemma SurplusAfter(s: seq<Score>, ops: seq<Op>, m: int)
    requires s != [] && Capped(s)
    ensures Surplus(Final(s, ops), m) == Surplus(s, m) - Recommendations(ops) + Gains(s, ops)
  {
    TotalIsConserved(s, ops);
    SurplusIsDistance(s, m);
    SurplusIsDistance(Final(s, ops), m);
  }

  ghost predicate BoundHolds(s: seq<Score>, ops: seq<Op>, m: int)
    requires s != []
  {
    forall i :: 0 <= i <= |ops| ==> AtLeast(Final(s, ops[..i]), m)
  }

  /** Up to each point of the run, recommendations outnumber gains by the surplus at most. */
  ghost predicate NeverOverdrawn(s: seq<Score>, ops: seq<Op>, m: int)
    requires s != []
  {
    forall i :: 0 <= i <= |ops| ==> Recommendations(ops[..i]) - Gains(s, ops[..i]) <= Surplus(s, m)
  }

  /** All along a run, with any reports, the scores stay at or above a bound if and only if
      recommendations less gains never exceed the surplus over it. */
  lemma BoundHoldsIff(s: seq<Score>, ops: seq<Op>, m: int)
    requires s != [] && Capped(s) && AtLeast(s, m)
    ensures BoundHolds(s, ops, m) <==> NeverOverdrawn(s, ops, m)
  {
    forall i | 0 <= i <= |ops| && AtLeast(Final(s, ops[..i]), m)
      ensures Recommendations(ops[..i]) - Gains(s, ops[..i]) <= Surplus(s, m)
    {
      SurplusAfter(s, ops[..i], m);
      SurplusZero(Final(s, ops[..i]), m);
    }
    if NeverOverdrawn(s, ops, m) {
      forall i | 0 <= i <= |ops| ensures AtLeast(Final(s, ops[..i]), m) {
        StaysAbove(s, ops, m, i);
      }
    }
  }

  lemma {:induction false} StaysAbove(s: seq<Score>, ops: seq<Op>, m: int, i: nat)
    requires s != [] && Capped(s) && AtLeast(s, m) && NeverOverdrawn(s, ops, m) && i <= |ops|
    ensures AtLeast(Final(s, ops[..i]), m)
    decreases i
  {
    if i == 0 {
      assert ops[..0] == [];
    } else {
      StaysAbove(s, ops, m, i - 1);
      var t := Final(s, ops[..i - 1]);
      assert ops[..i - 1] + [ops[i - 1]] == ops[..i];
      FinalAppend(s, ops[..i - 1], ops[i - 1]);
      SurplusAfter(s, ops[..i], m);
      AlwaysCapped(s, ops[..i - 1]);
      ApplyStaysAbove(t, ops[i - 1], m);
    }
  }

  lemma ApplyStaysAbove(s: seq<Score>, op: Op, m: int)
    requires s != [] && Capped(s) && AtLeast(s, m) && Surplus(Apply(s, op), m) >= 0
    ensures AtLeast(Apply(s, op), m)
  {
    match op
    case Recommend => LoweredKeepsBoundIff(s, m);
    case Report(mode, index) =>
      var p := RewardedAt(s, mode, index);
  }

  /** There is no lower bound: after n * q calls without a success every entry of a list
      that started level has lost q. */
  lemma ScoresFallForever(s: seq<Score>, c: int, q: nat)
    requires s != [] && forall j :: 0 <= j < |s| ==> s[j].score == c
    ensures forall j :: 0 <= j < |s| ==> LoweredTimes(s, q * |s|)[j].score == c - q
  {
    RoundRobin(s, c, q * |s|);
    DivModUnique(q * |s|, |s|, q, 0);
  }
}
