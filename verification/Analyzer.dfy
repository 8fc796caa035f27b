/** Hole punching decisions: the behaviour tables, the score list a pair of NAT features
    starts with, and which side sends. */
module Analyzer {
  import opened Base
  import opened HoleScores

  datatype NatType = EasyNAT | HardNAT

  datatype Behavior = NoChange | IPChanged | PortChanged | BothChanged

  datatype NatFeature = NatFeature(
    natType: NatType,
    behavior: Behavior,
    portsDifference: int,
    regularPortsChange: bool,
    publicNetwork: bool)

  datatype Role = NoRole | Sender | Receiver

  datatype Recommended = Recommended(
    role: Role,
    ttl: int,
    sendDelayMs: int,
    portsRangeNumber: int,
    portsRandomNumber: int,
    listenRandomPorts: int)

  type Pair = (Recommended, Recommended)

  function Send(delay: int, range: int, random: int): Recommended {
    Recommended(Sender, 0, delay, range, random, 0)
  }

  function Receive(ttl: int, range: int, listen: int): Recommended {
    Recommended(Receiver, ttl, 0, range, 0, listen)
  }

  const MODE0: seq<Pair> := [
    (Send(0, 0, 0), Receive(7, 0, 0)),
    (Receive(7, 0, 0), Send(0, 0, 0)),
    (Send(0, 0, 0), Receive(4, 0, 0)),
    (Receive(4, 0, 0), Send(0, 0, 0)),
    (Send(0, 0, 0), Receive(0, 0, 0)),
    (Receive(0, 0, 0), Send(0, 0, 0)),
    (Send(5000, 0, 0), Receive(0, 0, 0)),
    (Send(10000, 0, 0), Receive(0, 0, 0)),
    (Receive(0, 0, 0), Send(5000, 0, 0)),
    (Receive(0, 0, 0), Send(10000, 0, 0))]

  const MODE1: seq<Pair> := [
    (Send(0, 0, 0), Receive(7, 10, 0)),
    (Send(2000, 0, 0), Receive(7, 10, 0)),
    (Send(0, 0, 0), Receive(4, 10, 0)),
    (Send(2000, 0, 0), Receive(4, 10, 0)),
    (Send(0, 0, 0), Receive(0, 10, 0)),
    (Send(2000, 0, 0), Receive(0, 10, 0))]

  const MODE2: seq<Pair> := [
    (Send(3000, 0, 1000), Receive(7, 0, 256)),
    (Send(3000, 0, 1000), Receive(4, 0, 256)),
    (Send(3000, 0, 1000), Receive(0, 0, 256))]

  const MODE3: seq<Pair> := [
    (Send(0, 10, 0), Receive(7, 10, 0)),
    (Send(0, 10, 0), Receive(4, 10, 0)),
    (Send(0, 10, 0), Receive(0, 10, 0)),
    (Receive(7, 10, 0), Send(0, 10, 0)),
    (Receive(4, 10, 0), Send(0, 10, 0)),
    (Receive(0, 10, 0), Send(0, 10, 0))]

  const MODE4: seq<Pair> := [
    (Send(3000, 0, 1000), Receive(7, 2, 256)),
    (Send(3000, 0, 1000), Receive(4, 2, 256)),
    (Send(3000, 0, 1000), Receive(0, 2, 256))]

  /** Unknown modes fall back to mode 0. */
  function BehaviorsOf(mode: int): seq<Pair> {
    if mode == 1 then MODE1
    else if mode == 2 then MODE2
    else if mode == 3 then MODE3
    else if mode == 4 then MODE4
    else MODE0
  }

  const NOTHING := Recommended(NoRole, 0, 0, 0, 0, 0)

  /** An index past the table gives empty behaviours. */
  function BehaviorAt(mode: int, index: nat): Pair {
    if index >= |BehaviorsOf(mode)| then (NOTHING, NOTHING) else BehaviorsOf(mode)[index]
  }

  /** getBehaviorScoresByMode2: one entry for each row, scored by the role of its first side. */
  function ScoresOf(mode: int, senderScore: int, receiverScore: int): (r: seq<Score>)
    ensures |r| == |BehaviorsOf(mode)|
  {
    var table := BehaviorsOf(mode);
    seq(|table|, i requires 0 <= i < |table| =>
      Score(mode, i, if table[i].0.role.Sender? then senderScore else receiverScore))
  }

  method BuildScores(mode: int, senderScore: int, receiverScore: int) returns (scores: seq<Score>)
    ensures scores == ScoresOf(mode, senderScore, receiverScore)
  {
    var behaviors := BehaviorsOf(mode);
    scores := [];
    for i := 0 to |behaviors|
      invariant |scores| == i
      invariant forall j :: 0 <= j < i ==> scores[j] == ScoresOf(mode, senderScore, receiverScore)[j]
    {
      var score := receiverScore;
      if behaviors[i].0.role.Sender? {
        score := senderScore;
      }
      scores := scores + [Score(mode, i, score)];
    }
  }

  function HardCount(c: NatFeature, v: NatFeature): nat {
    (if c.natType.HardNAT? then 1 else 0) + (if v.natType.HardNAT? then 1 else 0)
  }

  /** Regular port changes count for hard NATs only. */
  function RegularCount(c: NatFeature, v: NatFeature): nat {
    (if c.natType.HardNAT? && c.regularPortsChange then 1 else 0)
    + (if v.natType.HardNAT? && v.regularPortsChange then 1 else 0)
  }

  function HardIn(features: seq<NatFeature>): nat {
    if features == [] then 0
    else HardIn(features[..|features| - 1]) + if features[|features| - 1].natType.HardNAT? then 1 else 0
  }

  function RegularIn(features: seq<NatFeature>): nat {
    if features == [] then 0
    else
      var last := features[|features| - 1];
      RegularIn(features[..|features| - 1]) + if last.natType.HardNAT? && last.regularPortsChange then 1 else 0
  }

  method ClassifyFeatureCount(features: seq<NatFeature>) returns (easy: nat, hard: nat, regular: nat)
    ensures easy + hard == |features| && hard == HardIn(features) && regular == RegularIn(features)
  {
    easy, hard, regular := 0, 0, 0;
    for i := 0 to |features|
      invariant easy + hard == i && hard == HardIn(features[..i]) && regular == RegularIn(features[..i])
    {
      assert features[..i + 1][..i] == features[..i];
      if features[i].natType.EasyNAT? {
        easy := easy + 1;
      } else {
        hard := hard + 1;
        if features[i].regularPortsChange {
          regular := regular + 1;
        }
      }
    }
    assert features[..|features|] == features;
  }

  lemma PairCounts(c: NatFeature, v: NatFeature)
    ensures HardIn([c, v]) == HardCount(c, v) && RegularIn([c, v]) == RegularCount(c, v)
  {
    assert [c, v][..1] == [c] && [c][..0] == [];
    assert HardIn([c]) == (if c.natType.HardNAT? then 1 else 0);
    assert RegularIn([c]) == (if c.natType.HardNAT? && c.regularPortsChange then 1 else 0);
  }

  function Mode0Scores(c: NatFeature, v: NatFeature): seq<Score> {
    if c.publicNetwork then ScoresOf(0, 0, 1)
    else if v.publicNetwork then ScoresOf(0, 1, 0)
    else ScoresOf(0, 0, 0)
  }

  function InitialScores(c: NatFeature, v: NatFeature): seq<Score> {
    var hard, regular := HardCount(c, v), RegularCount(c, v);
    if hard == 0 then Mode0Scores(c, v)
    else if hard == 1 && regular == 1 then ScoresOf(1, 0, 0) + ScoresOf(2, 0, 0) + Mode0Scores(c, v)
    else if hard == 1 && regular == 0 then ScoresOf(2, 0, 0) + ScoresOf(1, 0, 0) + Mode0Scores(c, v)
    else if hard == 2 && regular == 2 then ScoresOf(3, 0, 0) + ScoresOf(4, 0, 0)
    else if hard == 2 && regular == 1 then ScoresOf(4, 0, 0)
    else ScoresOf(0, 1, 1) + ScoresOf(1, 1, 1) + ScoresOf(3, 1, 1)
  }

  method NewMakeHoleRecords(c: NatFeature, v: NatFeature, now: int) returns (r: MakeHoleRecords)
    ensures fresh(r) && r.scores == InitialScores(c, v) && r.lastUpdateTime == now
    ensures Starts(c, v, r.scores, RowsOf(ModesOf(ClassOf(c, v))))
  {
    InitialIs(c, v);
    var easy, hard, regular := ClassifyFeatureCount([c, v]);
    PairCounts(c, v);
    var mode0 := BuildMode0(c, v);
    var scores: seq<Score> := [];
    if easy == 2 {
      scores := mode0;
    } else if hard == 1 {
      var mode1 := BuildScores(1, 0, 0);
      var mode2 := BuildScores(2, 0, 0);
      scores := (if regular == 1 then mode1 + mode2 else mode2 + mode1) + mode0;
    } else if regular == 2 {
      var mode3 := BuildScores(3, 0, 0);
      var mode4 := BuildScores(4, 0, 0);
      scores := mode3 + mode4;
    } else if regular == 1 {
      scores := BuildScores(4, 0, 0);
    } else {
      mode0 := BuildScores(0, 1, 1);
      var mode1 := BuildScores(1, 1, 1);
      var mode3 := BuildScores(3, 1, 1);
      scores := mode0 + mode1 + mode3;
    }
    r := new MakeHoleRecords(scores, now);
  }

  method BuildMode0(c: NatFeature, v: NatFeature) returns (scores: seq<Score>)
    ensures scores == Mode0Scores(c, v)
  {
    if c.publicNetwork {
      scores := BuildScores(0, 0, 1);
    } else if v.publicNetwork {
      scores := BuildScores(0, 1, 0);
    } else {
      scores := BuildScores(0, 0, 0);
    }
  }

  // ---- which entries a pair of features can have ----

  /** What the analysis key fixes of a pair of features. */
  datatype Class = Class(cType: NatType, cRegular: bool, vType: NatType, vRegular: bool)

  function ClassOf(c: NatFeature, v: NatFeature): Class {
    Class(c.natType, c.regularPortsChange, v.natType, v.regularPortsChange)
  }

  /** Mode 2 needs exactly one hard NAT, mode 4 a hard NAT with regular port changes,
      mode 1 needs some hard NAT, mode 3 two of them. */
  predicate ModeFits(k: Class, mode: int) {
    match mode
    case 0 => true
    case 1 => k.cType.HardNAT? || k.vType.HardNAT?
    case 2 => k.cType != k.vType
    case 3 => k.cType.HardNAT? && k.vType.HardNAT?
    case 4 => k.cType.HardNAT? && k.vType.HardNAT? && (k.cRegular || k.vRegular)
    case _ => false
  }

  ghost predicate EntryFits(k: Class, e: Score) {
    ModeFits(k, e.mode) && 0 <= e.index < |BehaviorsOf(e.mode)|
  }

  /** A row of a behaviour table: its mode and index. */
  type Row = (int, int)

  function RowOf(e: Score): Row {
    (e.mode, e.index)
  }

  /** The modes tried for a class of pairs, in order: for one hard NAT it depends on whether
      that one changes its ports regularly, for two on how many of them do. */
  function ModesOf(k: Class): seq<int> {
    match (k.cType, k.vType)
    case (EasyNAT, EasyNAT) => [0]
    case (HardNAT, EasyNAT) => if k.cRegular then [1, 2, 0] else [2, 1, 0]
    case (EasyNAT, HardNAT) => if k.vRegular then [1, 2, 0] else [2, 1, 0]
    case (HardNAT, HardNAT) =>
      if k.cRegular && k.vRegular then [3, 4] else if k.cRegular || k.vRegular then [4] else [0, 1, 3]
  }

  function TableRows(mode: int): seq<Row> {
    seq(|BehaviorsOf(mode)|, i => (mode, i))
  }

  function RowsOf(modes: seq<int>): seq<Row> {
    if modes == [] then [] else TableRows(modes[0]) + RowsOf(modes[1..])
  }

  lemma {:induction false} RowsAre(modes: seq<int>, r: Row)
    ensures r in RowsOf(modes) <==> r.0 in modes && 0 <= r.1 < |BehaviorsOf(r.0)|
  {
    if modes != [] {
      RowsAre(modes[1..], r);
      if 0 <= r.1 < |BehaviorsOf(r.0)| && r.0 == modes[0] {
        assert TableRows(modes[0])[r.1] == r;
      }
    }
  }

  lemma DistinctThen(a: seq<Row>, b: seq<Row>)
    requires Distinct(a) && Distinct(b) && forall r :: r in a ==> r !in b
    ensures Distinct(a + b)
  {
    var s := a + b;
    forall i, j | 0 <= i < j < |s| ensures s[i] != s[j] {
      assert i < |a| ==> s[i] in a;
      assert j >= |a| ==> s[j] in b;
    }
  }

  lemma {:induction false} RowsAreDistinct(modes: seq<int>)
    requires Distinct(modes)
    ensures Distinct(RowsOf(modes))
  {
    if modes != [] {
      RowsAreDistinct(modes[1..]);
      forall r | r in TableRows(modes[0]) ensures r !in RowsOf(modes[1..]) {
        RowsAre(modes[1..], r);
      }
      DistinctThen(TableRows(modes[0]), RowsOf(modes[1..]));
    }
  }

  ghost predicate Shows(s: seq<Score>, rows: seq<Row>) {
    |s| == |rows| && forall j :: 0 <= j < |s| ==> RowOf(s[j]) == rows[j]
  }

  /** The list has exactly the rows of the modes of its class, in their order. */
  ghost predicate ListFits(k: Class, s: seq<Score>) {
    s != [] && Capped(s) && Shows(s, RowsOf(ModesOf(k)))
  }

  lemma EntryOf(k: Class, s: seq<Score>, j: nat)
    requires ListFits(k, s) && j < |s|
    ensures EntryFits(k, s[j])
  {
    RowsAre(ModesOf(k), RowOf(s[j]));
  }

  /** So each row of these modes is there once, and no other is there. */
  lemma EachRowOnce(k: Class, s: seq<Score>, r: Row)
    requires ListFits(k, s)
    ensures r.0 in ModesOf(k) && 0 <= r.1 < |BehaviorsOf(r.0)| <==> exists j :: 0 <= j < |s| && RowOf(s[j]) == r
    ensures forall j, l :: 0 <= j < l < |s| ==> RowOf(s[j]) != RowOf(s[l])
  {
    RowsAre(ModesOf(k), r);
    RowsAreDistinct(ModesOf(k));
    if j :| 0 <= j < |RowsOf(ModesOf(k))| && RowsOf(ModesOf(k))[j] == r {
      assert RowOf(s[j]) == r;
    }
  }

  /** What a row starts with: one where nothing promises much, and one for rows of mode 0
      that let a side on a public network receive. */
  function StartScore(c: NatFeature, v: NatFeature, r: Row): int {
    if c.natType.HardNAT? && v.natType.HardNAT? then if c.regularPortsChange || v.regularPortsChange then 0 else 1
    else if r.0 != 0 || !(0 <= r.1 < |MODE0|) then 0
    else if c.publicNetwork then if MODE0[r.1].0.role.Receiver? then 1 else 0
    else if v.publicNetwork then if MODE0[r.1].1.role.Receiver? then 1 else 0
    else 0
  }

  ghost predicate Starts(c: NatFeature, v: NatFeature, s: seq<Score>, rows: seq<Row>) {
    Shows(s, rows) && forall j :: 0 <= j < |s| ==> s[j].score == StartScore(c, v, rows[j])
  }

  lemma StartsThen(c: NatFeature, v: NatFeature, s: seq<Score>, rows: seq<Row>, t: seq<Score>, more: seq<Row>)
    requires Starts(c, v, s, rows) && Starts(c, v, t, more)
    ensures Starts(c, v, s + t, rows + more)
  {
  }

  lemma TableStarts(c: NatFeature, v: NatFeature, mode: int, x: int, y: int)
    requires forall i :: 0 <= i < |BehaviorsOf(mode)| ==>
      StartScore(c, v, (mode, i)) == if BehaviorsOf(mode)[i].0.role.Sender? then x else y
    ensures Starts(c, v, ScoresOf(mode, x, y), TableRows(mode))
  {
  }

  lemma Mode0Rows(i: nat)
    requires i < |MODE0|
    ensures MODE0[i].0.role.Sender? <==> MODE0[i].1.role.Receiver?
    ensures MODE0[i].0.role.Sender? <==> !MODE0[i].0.role.Receiver?
  {
  }

  lemma Mode0Starts(c: NatFeature, v: NatFeature)
    requires c.natType.EasyNAT? || v.natType.EasyNAT?
    ensures Starts(c, v, Mode0Scores(c, v), TableRows(0))
  {
    forall i: nat | i < |MODE0| ensures MODE0[i].0.role.Sender? <==> MODE0[i].1.role.Receiver?
      ensures MODE0[i].0.role.Sender? <==> !MODE0[i].0.role.Receiver?
    {
      Mode0Rows(i);
    }
    if c.publicNetwork {
      TableStarts(c, v, 0, 0, 1);
    } else if v.publicNetwork {
      TableStarts(c, v, 0, 1, 0);
    } else {
      TableStarts(c, v, 0, 0, 0);
    }
  }

  lemma ThreeModes(a: int, b: int, d: int)
    ensures RowsOf([a]) == TableRows(a)
    ensures RowsOf([a, b]) == TableRows(a) + TableRows(b)
    ensures RowsOf([a, b, d]) == TableRows(a) + TableRows(b) + TableRows(d)
  {
    assert [a][1..] == [] && [a, b][1..] == [b] && [b][1..] == [] && [a, b, d][1..] == [b, d] && [b, d][1..] == [d];
    assert [d][1..] == [] && RowsOf([d]) == TableRows(d) + [];
  }

  lemma OneHardStarts(c: NatFeature, v: NatFeature)
    requires c.natType != v.natType
    ensures Starts(c, v, ScoresOf(1, 0, 0) + ScoresOf(2, 0, 0) + Mode0Scores(c, v), RowsOf([1, 2, 0]))
    ensures Starts(c, v, ScoresOf(2, 0, 0) + ScoresOf(1, 0, 0) + Mode0Scores(c, v), RowsOf([2, 1, 0]))
  {
    Mode0Starts(c, v);
    TableStarts(c, v, 1, 0, 0);
    TableStarts(c, v, 2, 0, 0);
    ThreeModes(1, 2, 0);
    ThreeModes(2, 1, 0);
    StartsThen(c, v, ScoresOf(1, 0, 0), TableRows(1), ScoresOf(2, 0, 0), TableRows(2));
    StartsThen(c, v, ScoresOf(2, 0, 0), TableRows(2), ScoresOf(1, 0, 0), TableRows(1));
    StartsThen(c, v, ScoresOf(1, 0, 0) + ScoresOf(2, 0, 0), TableRows(1) + TableRows(2),
               Mode0Scores(c, v), TableRows(0));
    StartsThen(c, v, ScoresOf(2, 0, 0) + ScoresOf(1, 0, 0), TableRows(2) + TableRows(1),
               Mode0Scores(c, v), TableRows(0));
  }

  lemma TwoHardStart(c: NatFeature, v: NatFeature)
    requires c.natType.HardNAT? && v.natType.HardNAT?
    ensures Starts(c, v, InitialScores(c, v), RowsOf(ModesOf(ClassOf(c, v))))
  {
    var x := if c.regularPortsChange || v.regularPortsChange then 0 else 1;
    TableStarts(c, v, 0, x, x);
    TableStarts(c, v, 1, x, x);
    TableStarts(c, v, 3, x, x);
    TableStarts(c, v, 4, x, x);
    ThreeModes(0, 1, 3);
    ThreeModes(3, 4, 0);
    ThreeModes(4, 0, 0);
    StartsThen(c, v, ScoresOf(0, x, x), TableRows(0), ScoresOf(1, x, x), TableRows(1));
    StartsThen(c, v, ScoresOf(0, x, x) + ScoresOf(1, x, x), TableRows(0) + TableRows(1),
               ScoresOf(3, x, x), TableRows(3));
    StartsThen(c, v, ScoresOf(3, x, x), TableRows(3), ScoresOf(4, x, x), TableRows(4));
  }

  /** The list a pair starts with: the rows of its modes in order, with their first scores. */
  lemma InitialIs(c: NatFeature, v: NatFeature)
    ensures Starts(c, v, InitialScores(c, v), RowsOf(ModesOf(ClassOf(c, v))))
  {
    if c.natType.HardNAT? && v.natType.HardNAT? {
      TwoHardStart(c, v);
    } else if c.natType != v.natType {
      OneHardStarts(c, v);
    } else {
      Mode0Starts(c, v);
      ThreeModes(0, 0, 0);
    }
  }

  lemma SomeRows(k: Class)
    ensures |RowsOf(ModesOf(k))| > 0
  {
    assert |TableRows(ModesOf(k)[0])| > 0;
  }

  lemma InitialFits(c: NatFeature, v: NatFeature)
    ensures ListFits(ClassOf(c, v), InitialScores(c, v))
  {
    InitialIs(c, v);
    SomeRows(ClassOf(c, v));
  }

  lemma ApplyKeepsFitting(k: Class, s: seq<Score>, op: Op)
    requires ListFits(k, s)
    ensures ListFits(k, Apply(s, op))
  {
    ApplyKeepsCapped(s, op);
    if op.Report? {
      var p := RewardedAt(s, op.mode, op.index);
    }
  }

  // ---- roles ----

  /** The swap at the end of GetRecommandBehaviors: client first, visitor second. */
  function Assign(mode: int, index: nat, c: NatFeature, v: NatFeature): Pair {
    var (a, b) := BehaviorAt(mode, index);
    var swap :=
      match mode
      case 1 => c.natType.EasyNAT?
      case 2 => c.natType.HardNAT?
      case 4 => !c.regularPortsChange
      case _ => false;
    if swap then (b, a) else (a, b)
  }

  method SwapSides(mode: int, index: nat, c: NatFeature, v: NatFeature)
    returns (cBehavior: Recommended, vBehavior: Recommended)
    ensures (cBehavior, vBehavior) == Assign(mode, index, c, v)
  {
    var (a, b) := BehaviorAt(mode, index);
    cBehavior, vBehavior := a, b;
    if mode == 1 {
      // the rows let their first side send: that must be the hard one
      if c.natType.EasyNAT? {
        cBehavior, vBehavior := vBehavior, cBehavior;
      }
    } else if mode == 2 {
      // here the second side, which receives, must be the hard one
      if c.natType.HardNAT? {
        cBehavior, vBehavior := vBehavior, cBehavior;
      }
    } else if mode == 4 {
      // the sending first side must have regular port changes
      if !c.regularPortsChange {
        cBehavior, vBehavior := vBehavior, cBehavior;
      }
    }
  }

  ghost predicate OneSender(p: Pair) {
    (p.0.role.Sender? && p.1.role.Receiver?) || (p.0.role.Receiver? && p.1.role.Sender?)
  }

  ghost predicate RolesFit(mode: int, c: NatFeature, v: NatFeature, p: Pair) {
    && OneSender(p)
    && (mode == 1 && HardCount(c, v) == 1 ==> (p.0.role.Sender? <==> c.natType.HardNAT?))
    && (mode == 2 ==> HardCount(c, v) == 1 && (p.0.role.Receiver? <==> c.natType.HardNAT?))
    && (mode == 4 ==> if p.0.role.Sender? then c.regularPortsChange else v.regularPortsChange)
    && (mode == 0 || mode == 3 ==> p in BehaviorsOf(mode))
  }

  lemma RowsHaveOneSender(mode: int, i: nat)
    requires i < |BehaviorsOf(mode)|
    ensures OneSender(BehaviorsOf(mode)[i])
    ensures mode in {1, 2, 4} ==> BehaviorsOf(mode)[i].0.role.Sender?
  {
  }

  /** What the rows ask of the two sides. Only receivers have a time to live, 7, 4 or none, and
      only senders wait. In mode 2 and 4 the sender tries 1000 random ports against 256 open
      ones; ranges of ports are tried by the receiver in mode 1 and 4 and by both in mode 3. */
  lemma RowsAsk(mode: int, i: nat)
    requires 0 <= mode <= 4 && i < |BehaviorsOf(mode)|
    ensures
      var (a, b) := BehaviorsOf(mode)[i];
      var (s, r) := if a.role.Sender? then (a, b) else (b, a);
      && s.ttl == 0 && s.listenRandomPorts == 0 && r.sendDelayMs == 0 && r.portsRandomNumber == 0
      && r.ttl in {7, 4, 0} && (s.sendDelayMs > 0 ==> mode in {0, 1, 2, 4})
      && (mode == 2 || mode == 4 <==> s.portsRandomNumber == 1000)
      && (mode == 2 || mode == 4 <==> r.listenRandomPorts == 256)
      && (mode == 2 || mode == 4 <==> s.sendDelayMs == 3000)
      && r.portsRangeNumber == (match mode case 1 => 10 case 3 => 10 case 4 => 2 case _ => 0)
      && s.portsRangeNumber == (if mode == 3 then 10 else 0)
  {
  }

  /** For an entry of the right list: a row of its table, one sender and one receiver,
      the hard side sends in mode 1 and receives in mode 2, and in mode 4 the sender has
      regular port changes. */
  lemma RolesAreRight(mode: int, index: nat, c: NatFeature, v: NatFeature)
    requires ModeFits(ClassOf(c, v), mode) && index < |BehaviorsOf(mode)|
    ensures RolesFit(mode, c, v, Assign(mode, index, c, v))
    ensures
      var p := Assign(mode, index, c, v);
      && (p == BehaviorsOf(mode)[index] || (p.1, p.0) == BehaviorsOf(mode)[index])
      && (mode == 0 || mode == 3 ==> p == BehaviorsOf(mode)[index])
  {
    RowsHaveOneSender(mode, index);
  }

  /** The mode of the first recommendation. With a side on a public network and at most one
      hard NAT it is mode 0; otherwise one hard NAT means mode 1 if that one changes its ports
      regularly and mode 2 if not, and two mean mode 3, 4 or 0 with two, one or none that do. */
  predicate FirstModeFits(c: NatFeature, v: NatFeature, mode: int) {
    match (c.natType, v.natType)
    case (EasyNAT, EasyNAT) => mode == 0
    case (HardNAT, EasyNAT) =>
      mode == if c.publicNetwork || v.publicNetwork then 0 else if c.regularPortsChange then 1 else 2
    case (EasyNAT, HardNAT) =>
      mode == if c.publicNetwork || v.publicNetwork then 0 else if v.regularPortsChange then 1 else 2
    case (HardNAT, HardNAT) =>
      mode == if c.regularPortsChange && v.regularPortsChange then 3
              else if c.regularPortsChange || v.regularPortsChange then 4 else 0
  }

  predicate Prefers(c: NatFeature, v: NatFeature) {
    (c.natType.EasyNAT? || v.natType.EasyNAT?) && (c.publicNetwork || v.publicNetwork)
  }

  lemma FirstRow(k: Class)
    ensures |RowsOf(ModesOf(k))| > 0 && RowsOf(ModesOf(k))[0] == (ModesOf(k)[0], 0)
  {
    assert |TableRows(ModesOf(k)[0])| > 0;
  }

  lemma FirstModeIs(c: NatFeature, v: NatFeature)
    ensures
      var s := InitialScores(c, v);
      s != [] && FirstModeFits(c, v, s[FirstMax(s)].mode)
  {
    var s := InitialScores(c, v);
    InitialIs(c, v);
    FirstRow(ClassOf(c, v));
    if Prefers(c, v) {
      PublicSideReceivesFirst(c, v);
    } else {
      assert IsFirstMax(s, 0);
      OneFirstMax(s, 0, FirstMax(s));
    }
  }

  /** With at most one hard NAT the side on a public network receives first. */
  lemma PublicSideReceivesFirst(c: NatFeature, v: NatFeature)
    requires (c.natType.EasyNAT? || v.natType.EasyNAT?) && (c.publicNetwork || v.publicNetwork)
    ensures
      var s := InitialScores(c, v);
      s != [] &&
      var e := s[FirstMax(s)];
      && e.mode == 0 && 0 <= e.index < |MODE0|
      && if c.publicNetwork then Assign(0, e.index, c, v).0.role.Receiver?
         else Assign(0, e.index, c, v).1.role.Receiver?
  {
    var (s, k) := (InitialScores(c, v), ClassOf(c, v));
    InitialFits(c, v);
    InitialIs(c, v);
    var r := (0, if c.publicNetwork then 1 else 0);
    assert MODE0[0].1.role.Receiver? && MODE0[1].0.role.Receiver?;
    EachRowOnce(k, s, r);
    var j :| 0 <= j < |s| && RowOf(s[j]) == r;
    assert s[j].score == 1 && s[j].score <= s[FirstMax(s)].score;
    assert StartScore(c, v, RowOf(s[FirstMax(s)])) == 1;
  }

  // ---- the order of recommendations ----

  function PosIn(modes: seq<int>, mode: int): nat {
    if modes == [] || modes[0] == mode then 0 else 1 + PosIn(modes[1..], mode)
  }

  /** Row a is further up than row b: an earlier mode, or a lower index of the same mode. */
  predicate Precedes(modes: seq<int>, a: Row, b: Row) {
    PosIn(modes, a.0) < PosIn(modes, b.0) || (a.0 == b.0 && a.1 < b.1)
  }

  ghost predicate RowAt(modes: seq<int>, j: nat, r: Row) {
    j < |RowsOf(modes)| && RowsOf(modes)[j] == r
  }

  lemma RowSplits(modes: seq<int>, j: nat, r: Row)
    requires modes != [] && Distinct(modes) && RowAt(modes, j, r)
    ensures
      var n := |BehaviorsOf(modes[0])|;
      if j < n then r == (modes[0], j) else RowAt(modes[1..], j - n, r) && r.0 != modes[0]
  {
    var n := |TableRows(modes[0])|;
    if j >= n {
      RowsAre(modes[1..], r);
    }
  }

  lemma {:induction false} PrecedesInRows(modes: seq<int>, j: nat, a: Row, l: nat, b: Row)
    requires Distinct(modes) && RowAt(modes, j, a) && RowAt(modes, l, b) && Precedes(modes, a, b)
    ensures j < l
  {
    var n := |BehaviorsOf(modes[0])|;
    RowSplits(modes, j, a);
    RowSplits(modes, l, b);
    if j >= n && l >= n {
      PrecedesInRows(modes[1..], j - n, a, l - n, b);
    }
  }

  /** Row a is due before row b: it starts with a better score, or is further up. */
  predicate Due(c: NatFeature, v: NatFeature, a: Row, b: Row) {
    StartScore(c, v, a) > StartScore(c, v, b)
    || (StartScore(c, v, a) == StartScore(c, v, b) && Precedes(ModesOf(ClassOf(c, v)), a, b))
  }

  /** Without reports, a row of a pair's modes is not recommended before every row that is due
      before it has been. */
  lemma RecommendedInOrder(c: NatFeature, v: NatFeature, a: Row, i: nat) returns (j: nat)
    requires InitialScores(c, v) != [] && a in RowsOf(ModesOf(ClassOf(c, v)))
    requires Due(c, v, a, RowOf(InitialScores(c, v)[PickAt(InitialScores(c, v), i)]))
    ensures j < i && RowOf(InitialScores(c, v)[PickAt(InitialScores(c, v), j)]) == a
  {
    var (s, modes) := (InitialScores(c, v), ModesOf(ClassOf(c, v)));
    InitialIs(c, v);
    var p :| 0 <= p < |RowsOf(modes)| && RowsOf(modes)[p] == a;
    var q := PickAt(s, i);
    if Precedes(modes, a, RowOf(s[q])) {
      PrecedesInRows(modes, p, a, q, RowOf(s[q]));
    }
    j := DueComesFirst(s, p, q, i);
  }

  // ---- the analyzer ----

  datatype Side = Side(ip: string, natType: NatType, behavior: Behavior, regularPortsChange: bool)

  /** The hashed fields of the analysis key: visitor, then client. */
  datatype Key = Key(v: Side, c: Side)

  function SideOf(ip: string, f: NatFeature): Side {
    Side(ip, f.natType, f.behavior, f.regularPortsChange)
  }

  function ClassOfKey(k: Key): Class {
    Class(k.c.natType, k.c.regularPortsChange, k.v.natType, k.v.regularPortsChange)
  }

  ghost predicate KeyOf(k: Key, c: NatFeature, v: NatFeature) {
    k.c == SideOf(k.c.ip, c) && k.v == SideOf(k.v.ip, v)
  }

  class Analyzer {
    var records: map<Key, MakeHoleRecords>
    const dataReserveDuration: int

    function Lists(): set<MakeHoleRecords>
      reads this
    {
      set k | k in records :: records[k]
    }

    ghost predicate Valid()
      reads this, Lists()
    {
      && (forall k :: k in records ==> ListFits(ClassOfKey(k), records[k].scores))
      && (forall k, l :: k in records && l in records && records[k] == records[l] ==> k == l)
    }

    constructor (dataReserveDuration: int)
      ensures Valid() && records == map[]
      ensures this.dataReserveDuration == dataReserveDuration
    {
      records := map[];
      this.dataReserveDuration := dataReserveDuration;
    }

    /** The list of a key, made from the features at its first use. */
    method RecordsFor(key: Key, c: NatFeature, v: NatFeature, now: int) returns (list: MakeHoleRecords)
      requires Valid() && KeyOf(key, c, v)
      modifies this
      ensures Valid()
      ensures key in records && records[key] == list
      ensures records == old(records)[key := list] && fresh(Lists() - old(Lists()))
      ensures
        if key in old(records) then list == old(records[key]) else fresh(list) && list.scores == InitialScores(c, v)
    {
      if key !in records {
        var made := NewMakeHoleRecords(c, v, now);
        InitialFits(c, v);
        records := records[key := made];
      }
      list := records[key];
    }

    /** One recommendation from the list of the key; the other lists stay. */
    method RecommandFor(key: Key, c: NatFeature, v: NatFeature, now: int) returns (mode: int, index: int)
      requires Valid() && KeyOf(key, c, v)
      modifies this, Lists()
      ensures Valid()
      ensures records.Keys == old(records.Keys) + {key}
      ensures forall k :: k in old(records) && k != key ==>
        records[k] == old(records[k]) && records[k].scores == old(records[k].scores)
        && records[k].lastUpdateTime == old(records[k].lastUpdateTime)
      ensures
        var list := if key in old(records) then old(records[key].scores) else InitialScores(c, v);
        list != [] && records[key].scores == Lowered(list) && records[key].lastUpdateTime == now
        && list[FirstMax(list)].mode == mode && list[FirstMax(list)].index == index
      ensures ModeFits(ClassOf(c, v), mode) && 0 <= index < |BehaviorsOf(mode)|
      ensures fresh(Lists() - old(Lists()))
    {
      var list := RecordsFor(key, c, v, now);
      mode, index := RecommandIn(key, now);
    }

    /** One recommendation from a list the analyzer has. */
    method RecommandIn(key: Key, now: int) returns (mode: int, index: int)
      requires Valid() && key in records
      modifies records[key]
      ensures Valid()
      ensures forall k :: k in records && k != key ==>
        records[k].scores == old(records[k].scores) && records[k].lastUpdateTime == old(records[k].lastUpdateTime)
      ensures
        var list := old(records[key].scores);
        list != [] && records[key].scores == Lowered(list) && records[key].lastUpdateTime == now
        && list[FirstMax(list)].mode == mode && list[FirstMax(list)].index == index
      ensures ModeFits(ClassOfKey(key), mode) && 0 <= index < |BehaviorsOf(mode)|
    {
      var list := records[key];
      ghost var before := list.scores;
      assert ListFits(ClassOfKey(key), before);
      ApplyKeepsFitting(ClassOfKey(key), before, Recommend);
      mode, index := list.Recommand(now);
      EntryOf(ClassOfKey(key), before, FirstMax(before));
      assert list.scores == Lowered(before);
    }

    /** Every recommendation is a valid table entry with the right roles; only the list
        of the key changes, by one recommendation. */
    method GetRecommandBehaviors(key: Key, c: NatFeature, v: NatFeature, now: int)
      returns (mode: int, index: int, cBehavior: Recommended, vBehavior: Recommended)
      requires Valid() && KeyOf(key, c, v)
      modifies this, Lists()
      ensures Valid()
      ensures records.Keys == old(records.Keys) + {key}
      ensures forall k :: k in old(records) && k != key ==>
        records[k] == old(records[k]) && records[k].scores == old(records[k].scores)
        && records[k].lastUpdateTime == old(records[k].lastUpdateTime)
      ensures
        var list := if key in old(records) then old(records[key].scores) else InitialScores(c, v);
        list != [] && records[key].scores == Lowered(list) && records[key].lastUpdateTime == now
        && list[FirstMax(list)].mode == mode && list[FirstMax(list)].index == index
      ensures fresh(Lists() - old(Lists()))
      ensures key !in old(records) ==> FirstModeFits(c, v, mode)
      ensures 0 <= index < |BehaviorsOf(mode)| && RolesFit(mode, c, v, (cBehavior, vBehavior))
      ensures (cBehavior, vBehavior) == Assign(mode, index, c, v)
    {
      FirstModeIs(c, v);
      mode, index := RecommandFor(key, c, v, now);
      RolesAreRight(mode, index, c, v);
      cBehavior, vBehavior := SwapSides(mode, index, c, v);
    }

    method ReportSuccess(key: Key, mode: int, index: int, now: int)
      requires Valid()
      modifies Lists()
      ensures Valid()
      ensures forall k :: k in records ==>
        records[k].scores == if k == key then Rewarded(old(records[k].scores), mode, index) else old(records[k].scores)
      ensures forall k :: k in records ==>
        records[k].lastUpdateTime == if k == key then now else old(records[k].lastUpdateTime)
    {
      if key in records {
        ApplyKeepsFitting(ClassOfKey(key), records[key].scores, Report(mode, index));
        records[key].ReportSuccess(mode, index, now);
      }
    }

    /** Drops exactly the records that were not used for longer than the reserve. */
    method Clean(now: int) returns (count: nat, total: nat)
      requires Valid()
      modifies this
      ensures Valid()
      ensures forall k :: k in records <==>
        k in old(records) && now - old(records)[k].lastUpdateTime <= dataReserveDuration
      ensures forall k :: k in records ==> records[k] == old(records)[k]
      ensures total == |old(records)| && count == total - |records|
    {
      ghost var was := records;
      total, count := DropStale(now);
      forall k | k in was ensures k in records <==> Kept(was[k], now) {
      }
    }

    method DropStale(now: int) returns (total: nat, count: nat)
      modifies this
      ensures records.Keys <= old(records).Keys && forall k :: k in records ==> records[k] == old(records)[k]
      ensures forall k :: k in old(records) ==> (k in records <==> Kept(old(records)[k], now))
      ensures total == |old(records)| && count == total - |records|
    {
      ghost var was := records;
      total, count := |records|, 0;
      var todo := records.Keys;
      while todo != {}
        invariant todo <= records.Keys <= was.Keys
        invariant forall k :: k in was && k !in todo ==> (k in records <==> Kept(was[k], now))
        invariant forall k :: k in records ==> records[k] == was[k]
        invariant count == total - |records|
        decreases todo
      {
        var key :| key in todo;
        todo := todo - {key};
        if now - records[key].lastUpdateTime > dataReserveDuration {
          OneLess(records, key);
          records := records - {key};
          count := count + 1;
        }
      }
    }

    predicate Kept(list: MakeHoleRecords, now: int)
      reads list
    {
      now - list.lastUpdateTime <= dataReserveDuration
    }
  }

  lemma OneLess(m: map<Key, MakeHoleRecords>, k: Key)
    requires k in m
    ensures |m - {k}| == |m| - 1
  {
    assert (m - {k}).Keys == m.Keys - {k};
  }

  /** The key has had i recommendations and no reports. */
  ghost predicate Asked(a: Analyzer, key: Key, c: NatFeature, v: NatFeature, i: nat)
    reads a, a.Lists()
  {
    InitialScores(c, v) != [] &&
    if i == 0 then key !in a.records
    else key in a.records && a.records[key].scores == LoweredTimes(InitialScores(c, v), i)
  }

  method NextRow(a: Analyzer, key: Key, c: NatFeature, v: NatFeature, ghost i: nat, now: int) returns (row: Row)
    requires a.Valid() && KeyOf(key, c, v) && Asked(a, key, c, v, i)
    modifies a, a.Lists()
    ensures a.Valid() && fresh(a.Lists() - old(a.Lists())) && Asked(a, key, c, v, i + 1)
    ensures row == RowOf(InitialScores(c, v)[PickAt(InitialScores(c, v), i)])
  {
    SameRows(InitialScores(c, v), i);
    var mode, index, _, _ := a.GetRecommandBehaviors(key, c, v, now);
    row := (mode, index);
  }

  ghost predicate FirstRows(c: NatFeature, v: NatFeature, rows: seq<Row>) {
    InitialScores(c, v) != [] &&
    forall j: nat :: j < |rows| ==> rows[j] == RowOf(InitialScores(c, v)[PickAt(InitialScores(c, v), j)])
  }

  lemma OneMoreRow(c: NatFeature, v: NatFeature, rows: seq<Row>, row: Row)
    requires FirstRows(c, v, rows) && row == RowOf(InitialScores(c, v)[PickAt(InitialScores(c, v), |rows|)])
    ensures FirstRows(c, v, rows + [row])
  {
  }

  lemma FirstRowsInOrder(c: NatFeature, v: NatFeature, rows: seq<Row>, i: nat, r: Row)
    requires FirstRows(c, v, rows) && i < |rows| && r in RowsOf(ModesOf(ClassOf(c, v))) && Due(c, v, r, rows[i])
    ensures r in rows[..i]
  {
    var j := RecommendedInOrder(c, v, r, i);
    assert rows[..i][j] == r;
  }

  /** No row comes before every row of the pair's modes that is due before it has come. */
  ghost predicate InOrder(c: NatFeature, v: NatFeature, rows: seq<Row>) {
    forall i: nat, r ::
      i < |rows| && r in RowsOf(ModesOf(ClassOf(c, v))) && Due(c, v, r, rows[i]) ==> r in rows[..i]
  }

  lemma RowsInOrder(c: NatFeature, v: NatFeature, rows: seq<Row>)
    requires FirstRows(c, v, rows)
    ensures InOrder(c, v, rows)
  {
    forall i: nat, r | i < |rows| && r in RowsOf(ModesOf(ClassOf(c, v))) && Due(c, v, r, rows[i])
      ensures r in rows[..i]
    {
      FirstRowsInOrder(c, v, rows, i, r);
    }
  }

  /** The first n recommendations for a new key, without reports: no row comes before every
      row of the pair's modes that is due before it has come. */
  method FirstRecommendations(a: Analyzer, key: Key, c: NatFeature, v: NatFeature, n: nat, now: int)
    returns (rows: seq<Row>)
    requires a.Valid() && KeyOf(key, c, v) && key !in a.records
    modifies a, a.Lists()
    ensures a.Valid() && |rows| == n
    ensures InOrder(c, v, rows)
  {
    InitialFits(c, v);
    rows := [];
    for i := 0 to n
      invariant a.Valid() && fresh(a.Lists() - old(a.Lists())) && Asked(a, key, c, v, i)
      invariant |rows| == i && FirstRows(c, v, rows)
    {
      var row := NextRow(a, key, c, v, i, now);
      OneMoreRow(c, v, rows, row);
      rows := rows + [row];
    }
    RowsInOrder(c, v, rows);
  }

  /** Recommending changes scores only. */
  lemma {:induction false} SameRows(s: seq<Score>, i: nat)
    requires s != []
    ensures forall j :: 0 <= j < |s| ==> RowOf(LoweredTimes(s, i)[j]) == RowOf(s[j])
    ensures LoweredTimes(s, i + 1) == Lowered(LoweredTimes(s, i))
  {
    if i > 0 {
      SameRows(s, i - 1);
    }
  }
}
