/** Port ranges as text: one printer, two parsers, and the set of ports a list denotes. */
module PortRanges {
  import opened Base
  import opened Text

  datatype PortsRange = PortsRange(start: int, end: int, single: int)

  const MIN_PORT := 1
  const MAX_PORT := 65535
  const MAX_INT64 := 0x7fff_ffff_ffff_ffff

  // ---- numbers as text ----

  function Digit(d: nat): char
    requires d < 10
  {
    ('0' as int + d) as char
  }

  predicate IsDigit(c: char) {
    '0' <= c <= '9'
  }

  function Digits(n: nat): string {
    if n < 10 then [Digit(n)] else Digits(n / 10) + [Digit(n % 10)]
  }

  /** strconv.Itoa. */
  function Itoa(n: int): string {
    if n < 0 then "-" + Digits(-n) else Digits(n)
  }

  function Value(s: string): Option<nat> {
    if s == "" then Some(0)
    else
      var c := s[|s| - 1];
      var v := Value(s[..|s| - 1]);
      if v.Some? && IsDigit(c) then Some(10 * v.value + (c as int - '0' as int)) else None
  }

  /** strconv.ParseInt in base 10 with 64 bits. */
  function ParseInt(s: string): Option<int> {
    var negative := s != "" && s[0] == '-';
    var t := if s != "" && (s[0] == '+' || s[0] == '-') then s[1..] else s;
    if t == "" || Value(t).None? then None
    else if negative then (if Value(t).value <= MAX_INT64 + 1 then Some(0 - Value(t).value) else None)
    else if Value(t).value <= MAX_INT64 then Some(Value(t).value) else None
  }

  predicate IsSpace(c: char) {
    c == ' ' || '\t' <= c <= '\r' || c == '\U{85}' || c == '\U{A0}'
  }

  /** strings.TrimSpace. */
  function Trim(s: string): string {
    if s == "" then ""
    else if IsSpace(s[0]) then Trim(s[1..])
    else if IsSpace(s[|s| - 1]) then Trim(s[..|s| - 1])
    else s
  }

  // ---- the printer ----

  function Piece(v: PortsRange): string {
    if v.single > 0 then Itoa(v.single) else Itoa(v.start) + "-" + Itoa(v.end)
  }

  function Pieces(l: seq<PortsRange>): (ps: seq<string>)
    ensures |ps| == |l| && forall i :: 0 <= i < |l| ==> ps[i] == Piece(l[i])
  {
    seq(|l|, i requires 0 <= i < |l| => Piece(l[i]))
  }

  method String(p: seq<PortsRange>) returns (s: string)
    ensures s == Join(Pieces(p), ',')
  {
    if |p| == 0 {
      return "";
    }
    var strs := [];
    for i := 0 to |p|
      invariant strs == Pieces(p[..i])
    {
      if p[i].single > 0 {
        strs := strs + [Itoa(p[i].single)];
      } else {
        strs := strs + [Itoa(p[i].start) + "-" + Itoa(p[i].end)];
      }
    }
    assert p[..|p|] == p;
    return Join(strs, ',');
  }

  // ---- the parser of ranges ----

  function ParsePiece(p: string): Option<PortsRange> {
    var nums := Split(p, '-');
    if |nums| == 1 then
      var n := ParseInt(Trim(nums[0]));
      if n.Some? then Some(PortsRange(0, 0, n.value)) else None
    else if |nums| == 2 then
      var (lo, hi) := (ParseInt(Trim(nums[0])), ParseInt(Trim(nums[1])));
      if lo.Some? && hi.Some? && lo.value <= hi.value then Some(PortsRange(lo.value, hi.value, 0)) else None
    else None
  }

  function ParsePieces(ps: seq<string>): Option<seq<PortsRange>> {
    if ps == [] then Some([])
    else
      var (v, rest) := (ParsePiece(ps[0]), ParsePieces(ps[1..]));
      if v.Some? && rest.Some? then Some([v.value] + rest.value) else None
  }

  function Parse(str: string): Option<seq<PortsRange>> {
    ParsePieces(Split(Trim(str), ','))
  }

  function After<T>(out: seq<T>, rest: Option<seq<T>>): Option<seq<T>> {
    if rest.Some? then Some(out + rest.value) else None
  }

  method NewPortsRangeSliceFromString(str: string) returns (r: Option<seq<PortsRange>>)
    ensures r == Parse(str)
  {
    var out := [];
    var numRanges := Split(Trim(str), ',');
    AfterNothing(numRanges, ParsePieces(numRanges));
    for i := 0 to |numRanges|
      invariant Parse(str) == After(out, ParsePieces(numRanges[i..]))
    {
      ghost var rest := ParsePieces(numRanges[i + 1..]);
      PieceThenRest(numRanges, i);
      var numArray := Split(numRanges[i], '-');
      match |numArray| {
        case 1 =>
          var singleNum := ParseInt(Trim(numArray[0]));
          if singleNum.None? {
            return None;
          }
          AfterOne(out, PortsRange(0, 0, singleNum.value), rest);
          out := out + [PortsRange(0, 0, singleNum.value)];
        case 2 =>
          var minNum := ParseInt(Trim(numArray[0]));
          if minNum.None? {
            return None;
          }
          var maxNum := ParseInt(Trim(numArray[1]));
          if maxNum.None? || maxNum.value < minNum.value {
            return None;
          }
          AfterOne(out, PortsRange(minNum.value, maxNum.value, 0), rest);
          out := out + [PortsRange(minNum.value, maxNum.value, 0)];
        case _ =>
          return None;
      }
    }
    assert out + [] == out;
    return Some(out);
  }

  lemma PieceThenRest(ps: seq<string>, i: nat)
    requires i < |ps|
    ensures ParsePieces(ps[i..]) ==
      if ParsePiece(ps[i]).None? then None else After([ParsePiece(ps[i]).value], ParsePieces(ps[i + 1..]))
    ensures PiecesNumbers(ps[i..]) ==
      if PieceNumbers(ps[i]).None? then None else After(PieceNumbers(ps[i]).value, PiecesNumbers(ps[i + 1..]))
  {
    assert ps[i..][1..] == ps[i + 1..];
  }

  lemma AfterNothing<S, T>(ps: seq<S>, rest: Option<seq<T>>)
    ensures ps[0..] == ps && After([], rest) == rest
  {
    if rest.Some? {
      assert [] + rest.value == rest.value;
    }
  }

  lemma AfterOne<T>(out: seq<T>, v: T, rest: Option<seq<T>>)
    ensures After(out, After([v], rest)) == After(out + [v], rest)
  {
    if rest.Some? {
      assert out + ([v] + rest.value) == (out + [v]) + rest.value;
    }
  }

  // ---- the parser of numbers ----

  function Interval(lo: int, hi: int): (ns: seq<int>)
    ensures lo <= hi ==> |ns| == hi - lo + 1
    ensures forall i :: 0 <= i < |ns| ==> ns[i] == lo + i
  {
    seq(if lo <= hi then hi - lo + 1 else 0, i => lo + i)
  }

  function PieceNumbers(p: string): Option<seq<int>> {
    var nums := Split(p, '-');
    if |nums| == 1 then
      var n := ParseInt(Trim(nums[0]));
      if n.Some? then Some([n.value]) else None
    else if |nums| == 2 then
      var (lo, hi) := (ParseInt(Trim(nums[0])), ParseInt(Trim(nums[1])));
      if lo.Some? && hi.Some? && lo.value <= hi.value then Some(Interval(lo.value, hi.value)) else None
    else None
  }

  function PiecesNumbers(ps: seq<string>): Option<seq<int>> {
    if ps == [] then Some([])
    else
      var (ns, rest) := (PieceNumbers(ps[0]), PiecesNumbers(ps[1..]));
      if ns.Some? then After(ns.value, rest) else None
  }

  function Numbers(str: string): Option<seq<int>> {
    PiecesNumbers(Split(Trim(str), ','))
  }

  method ParseRangeNumbers(rangeStr: string) returns (r: Option<seq<int>>)
    ensures r == Numbers(rangeStr)
  {
    var numbers := [];
    var numRanges := Split(Trim(rangeStr), ',');
    AfterNothing(numRanges, PiecesNumbers(numRanges));
    for i := 0 to |numRanges|
      invariant Numbers(rangeStr) == After(numbers, PiecesNumbers(numRanges[i..]))
    {
      ghost var rest := PiecesNumbers(numRanges[i + 1..]);
      PieceThenRest(numRanges, i);
      var numArray := Split(numRanges[i], '-');
      match |numArray| {
        case 1 =>
          var singleNum := ParseInt(Trim(numArray[0]));
          if singleNum.None? {
            return None;
          }
          AfterAfter(numbers, [singleNum.value], rest);
          numbers := numbers + [singleNum.value];
        case 2 =>
          var minValue := ParseInt(Trim(numArray[0]));
          if minValue.None? {
            return None;
          }
          var maxValue := ParseInt(Trim(numArray[1]));
          if maxValue.None? || maxValue.value < minValue.value {
            return None;
          }
          AfterAfter(numbers, Interval(minValue.value, maxValue.value), rest);
          numbers := AppendInterval(numbers, minValue.value, maxValue.value);
        case _ =>
          return None;
      }
    }
    assert numbers + [] == numbers;
    return Some(numbers);
  }

  method AppendInterval(numbers: seq<int>, minValue: int, maxValue: int) returns (res: seq<int>)
    requires minValue <= maxValue
    ensures res == numbers + Interval(minValue, maxValue)
  {
    res := numbers;
    for i := minValue to maxValue + 1
      invariant res == numbers + Interval(minValue, i - 1)
    {
      assert Interval(minValue, i) == Interval(minValue, i - 1) + [i];
      res := res + [i];
    }
  }

  lemma AfterAfter<T>(a: seq<T>, b: seq<T>, rest: Option<seq<T>>)
    ensures After(a, After(b, rest)) == After(a + b, rest)
  {
    if rest.Some? {
      assert a + (b + rest.value) == (a + b) + rest.value;
    }
  }

  // ---- the ports a list denotes ----

  predicate Denotes(v: PortsRange, p: int) {
    if v.single > 0 then p == v.single else v.start <= p <= v.end
  }

  /** The ports the allocator may hand out; no list means all of them. */
  ghost predicate Allows(l: seq<PortsRange>, p: int) {
    if l == [] then MIN_PORT <= p <= MAX_PORT else exists i :: 0 <= i < |l| && Denotes(l[i], p)
  }

  method AddRange(ports: set<int>, lo: int, hi: int) returns (free: set<int>)
    ensures forall p :: p in free <==> p in ports || lo <= p <= hi
  {
    free := ports;
    var i := lo;
    while i <= hi
      invariant lo <= i && (i <= hi + 1 || i == lo)
      invariant forall p :: p in free <==> p in ports || lo <= p < i
    {
      free := free + {i};
      i := i + 1;
    }
  }

  /** The loop of NewManager that fills the free ports. */
  method FreePorts(allowPorts: seq<PortsRange>) returns (free: set<int>)
    ensures forall p :: p in free <==> Allows(allowPorts, p)
    ensures allowPorts == [] ==> forall p :: p in free <==> 1 <= p <= 65535
  {
    if |allowPorts| == 0 {
      free := AddRange({}, MIN_PORT, MAX_PORT);
      return;
    }
    free := {};
    for i := 0 to |allowPorts|
      invariant forall p :: p in free <==> exists j :: 0 <= j < i && Denotes(allowPorts[j], p)
    {
      var pair := allowPorts[i];
      ghost var before := free;
      if pair.single > 0 {
        free := free + {pair.single};
      } else {
        free := AddRange(free, pair.start, pair.end);
      }
      forall p ensures p in free <==> exists j :: 0 <= j < i + 1 && Denotes(allowPorts[j], p) {
        assert p in free <==> p in before || Denotes(pair, p);
      }
    }
  }

  // ---- printing, then parsing ----

  /** A single port alone, or a range of numbers that are not negative. */
  predicate Canonical(v: PortsRange) {
    if v.single > 0 then v.start == 0 && v.end == 0 && v.single <= MAX_INT64
    else v.single == 0 && 0 <= v.start <= v.end <= MAX_INT64
  }

  lemma {:induction false} DigitsValue(n: nat)
    ensures Value(Digits(n)) == Some(n) && Digits(n) != ""
    ensures forall i :: 0 <= i < |Digits(n)| ==> IsDigit(Digits(n)[i])
  {
    if n < 10 {
      assert [Digit(n)][..0] == "";
      assert Value("") == Some(0);
    } else {
      DigitsValue(n / 10);
      assert Digits(n)[..|Digits(n)| - 1] == Digits(n / 10);
    }
  }

  lemma ParseDigits(n: nat)
    requires n <= MAX_INT64
    ensures ParseInt(Trim(Digits(n))) == Some(n) && '-' !in Digits(n) && ',' !in Digits(n)
  {
    DigitsValue(n);
    assert IsDigit(Digits(n)[0]) && IsDigit(Digits(n)[|Digits(n)| - 1]);
    assert Trim(Digits(n)) == Digits(n);
  }

  lemma ParsePair(a: string, b: string)
    requires '-' !in a && '-' !in b
    ensures Split(a + "-" + b, '-') == [a, b]
  {
    assert a + "-" + b == a + (['-'] + b);
    SplitHead(a, b, '-');
    SplitOne(b, '-');
  }

  lemma ParsePrinted(v: PortsRange)
    requires Canonical(v)
    ensures ParsePiece(Piece(v)) == Some(v) && ',' !in Piece(v)
  {
    if v.single > 0 {
      ParseDigits(v.single);
      SplitOne(Itoa(v.single), '-');
    } else {
      ParseDigits(v.start);
      ParseDigits(v.end);
      ParsePair(Itoa(v.start), Itoa(v.end));
    }
  }

  lemma {:induction false} ParsePrintedPieces(l: seq<PortsRange>)
    requires forall i :: 0 <= i < |l| ==> Canonical(l[i])
    ensures ParsePieces(Pieces(l)) == Some(l)
  {
    if l != [] {
      ParsePrinted(l[0]);
      ParsePrintedPieces(l[1..]);
      assert Pieces(l)[1..] == Pieces(l[1..]);
      assert [l[0]] + l[1..] == l;
    }
  }

  predicate Solid(s: string) {
    s != "" && !IsSpace(s[0]) && !IsSpace(s[|s| - 1])
  }

  lemma PieceIsSolid(v: PortsRange)
    requires Canonical(v)
    ensures Solid(Piece(v))
  {
    var n := if v.single > 0 then v.single else v.start;
    DigitsValue(n);
    DigitsValue(v.end);
    assert IsDigit(Digits(n)[0]) && IsDigit(Digits(n)[|Digits(n)| - 1]);
    assert IsDigit(Digits(v.end)[|Digits(v.end)| - 1]);
  }

  lemma {:induction false} JoinIsSolid(ps: seq<string>)
    requires ps != [] && forall i :: 0 <= i < |ps| ==> Solid(ps[i])
    ensures Solid(Join(ps, ','))
  {
    if |ps| > 1 {
      JoinIsSolid(ps[1..]);
    }
  }

  lemma PrintedParses(l: seq<PortsRange>)
    requires l != [] && forall i :: 0 <= i < |l| ==> Canonical(l[i])
    ensures Parse(Join(Pieces(l), ',')) == Some(l)
  {
    var ps := Pieces(l);
    forall i | 0 <= i < |ps| ensures Solid(ps[i]) && ',' !in ps[i] {
      PieceIsSolid(l[i]);
      ParsePrinted(l[i]);
    }
    JoinIsSolid(ps);
    SplitJoin(ps, ',');
    ParsePrintedPieces(l);
  }

  // ---- what parsing yields ----

  lemma {:induction false} TrimKeepsOut(s: string, c: char)
    requires c !in s
    ensures c !in Trim(s)
    decreases |s|
  {
    if s != "" {
      if IsSpace(s[0]) {
        TrimKeepsOut(s[1..], c);
      } else if IsSpace(s[|s| - 1]) {
        TrimKeepsOut(s[..|s| - 1], c);
      }
    }
  }

  lemma PieceIsCanonical(p: string)
    requires ParsePiece(p).Some?
    ensures Canonical(ParsePiece(p).value)
  {
    var nums := Split(p, '-');
    TrimKeepsOut(nums[0], '-');
    if |nums| == 2 {
      TrimKeepsOut(nums[1], '-');
    }
  }

  lemma {:induction false} PiecesAreCanonical(ps: seq<string>)
    requires ParsePieces(ps).Some?
    ensures
      var l := ParsePieces(ps).value;
      |l| == |ps| && forall i :: 0 <= i < |l| ==> Canonical(l[i])
  {
    if ps != [] {
      PieceIsCanonical(ps[0]);
      PiecesAreCanonical(ps[1..]);
    }
  }

  /** Parsing the printed form gives the list back exactly when the list is not empty
      and all its ranges are canonical. */
  lemma RoundTrip(l: seq<PortsRange>)
    ensures Parse(Join(Pieces(l), ',')) == Some(l) <==> l != [] && forall i :: 0 <= i < |l| ==> Canonical(l[i])
  {
    if l != [] && forall i :: 0 <= i < |l| ==> Canonical(l[i]) {
      PrintedParses(l);
    }
    if Parse(Join(Pieces(l), ',')) == Some(l) {
      PiecesAreCanonical(Split(Trim(Join(Pieces(l), ',')), ','));
    }
  }

  /** Whatever a text parses to, printing that and parsing again yields the same. */
  lemma PrintingNormalizes(str: string)
    requires Parse(str).Some?
    ensures Parse(Join(Pieces(Parse(str).value), ',')) == Parse(str)
  {
    PiecesAreCanonical(Split(Trim(str), ','));
    PrintedParses(Parse(str).value);
  }

  // ---- the two parsers agree ----

  ghost predicate SameNumbers(v: Option<seq<PortsRange>>, ns: Option<seq<int>>) {
    && (v.Some? <==> ns.Some?)
    && (v.Some? ==> forall p :: p in ns.value <==> exists i :: 0 <= i < |v.value| && Denotes(v.value[i], p))
  }

  lemma PieceAgrees(s: string)
    ensures ParsePiece(s).Some? <==> PieceNumbers(s).Some?
    ensures ParsePiece(s).Some? ==> forall p :: p in PieceNumbers(s).value <==> Denotes(ParsePiece(s).value, p)
  {
    if ParsePiece(s).Some? {
      PieceIsCanonical(s);
      var v := ParsePiece(s).value;
      if |Split(s, '-')| == 2 {
        forall p ensures p in Interval(v.start, v.end) <==> v.start <= p <= v.end {
          if v.start <= p <= v.end {
            assert Interval(v.start, v.end)[p - v.start] == p;
          }
        }
      }
    }
  }

  lemma {:induction false} PiecesAgree(ps: seq<string>)
    ensures SameNumbers(ParsePieces(ps), PiecesNumbers(ps))
  {
    if ps != [] {
      PieceAgrees(ps[0]);
      PiecesAgree(ps[1..]);
      if ParsePieces(ps).Some? {
        var (l, rest) := (ParsePieces(ps).value, ParsePieces(ps[1..]).value);
        forall p
          ensures (exists i :: 0 <= i < |l| && Denotes(l[i], p))
            <==> Denotes(l[0], p) || exists i :: 0 <= i < |rest| && Denotes(rest[i], p)
        {
          if i :| 0 <= i < |rest| && Denotes(rest[i], p) {
            assert l[i + 1] == rest[i];
          }
          if i :| 0 <= i < |l| && Denotes(l[i], p) {
            assert i > 0 ==> l[i] == rest[i - 1];
          }
        }
      }
    }
  }

  /** Both parsers accept the same texts, and the ports the allocator frees for the parsed
      ranges are the numbers the other parser lists. */
  lemma ParsersAgree(str: string)
    ensures Parse(str).Some? <==> Numbers(str).Some?
    ensures Parse(str).Some? ==> forall p :: p in Numbers(str).value <==> Allows(Parse(str).value, p)
  {
    PiecesAgree(Split(Trim(str), ','));
    if Parse(str).Some? {
      PiecesAreCanonical(Split(Trim(str), ','));
    }
  }

  // ---- spaces ----

  /** Tab, line feed, vertical tab, form feed, carriage return, space, next line and the
      space that does not break. */
  const SPACES := ['\t', '\n', '\U{0B}', '\U{0C}', '\r', ' ', '\U{85}', '\U{A0}']

  lemma SpaceIff(c: char)
    ensures IsSpace(c) <==> c in SPACES
  {
  }

  predicate Blank(s: string) {
    forall i :: 0 <= i < |s| ==> IsSpace(s[i])
  }

  /** A text without spaces at its ends. */
  predicate Bare(s: string) {
    s == "" || Solid(s)
  }

  /** Trimming takes the spaces off both ends, and nothing else. */
  lemma {:induction false} TrimIs(a: string, s: string, b: string)
    requires Blank(a) && Blank(b) && Bare(s)
    ensures Trim(a + s + b) == s
    decreases |a| + |b|
  {
    var t := a + s + b;
    if a != "" {
      assert t[1..] == a[1..] + s + b;
      TrimIs(a[1..], s, b);
    } else if b != "" && s == "" {
      assert t[1..] == a + s + b[1..];
      TrimIs(a, s, b[1..]);
    } else if b != "" {
      assert t[0] == s[0] && t[|t| - 1] == b[|b| - 1];
      assert t[..|t| - 1] == a + s + b[..|b| - 1];
      TrimIs(a, s, b[..|b| - 1]);
    } else {
      assert t == s;
    }
  }

  lemma {:induction false} TrimSplits(s: string) returns (a: string, b: string)
    ensures Blank(a) && Blank(b) && Bare(Trim(s)) && s == a + Trim(s) + b
    decreases |s|
  {
    a, b := "", "";
    if s != "" && IsSpace(s[0]) {
      a, b := TrimSplits(s[1..]);
      assert s == [s[0]] + (a + Trim(s) + b);
      a := [s[0]] + a;
    } else if s != "" && IsSpace(s[|s| - 1]) {
      a, b := TrimSplits(s[..|s| - 1]);
      assert s == (a + Trim(s) + b) + [s[|s| - 1]];
      b := b + [s[|s| - 1]];
    }
  }

  /** Spaces around a text do not matter. */
  lemma PaddingIsIgnored(a: string, s: string, b: string)
    requires Blank(a) && Blank(b)
    ensures Trim(a + s + b) == Trim(s)
  {
    var x, y := TrimSplits(s);
    assert a + s + b == (a + x) + Trim(s) + (y + b);
    TrimIs(a + x, Trim(s), y + b);
  }

  lemma JoinAfter(a: string, ps: seq<string>, sep: char)
    requires ps != []
    ensures Join(ps[0 := a + ps[0]], sep) == a + Join(ps, sep)
  {
    var qs := ps[0 := a + ps[0]];
    if |ps| > 1 {
      assert qs[1..] == ps[1..];
      assert (a + ps[0]) + [sep] + Join(ps[1..], sep) == a + (ps[0] + [sep] + Join(ps[1..], sep));
    }
  }

  lemma {:induction false} JoinBefore(ps: seq<string>, b: string, sep: char)
    requires ps != []
    ensures Join(ps[|ps| - 1 := ps[|ps| - 1] + b], sep) == Join(ps, sep) + b
  {
    var qs := ps[|ps| - 1 := ps[|ps| - 1] + b];
    if |ps| > 1 {
      JoinBefore(ps[1..], b, sep);
      assert qs[1..] == ps[1..][|ps| - 2 := ps[|ps| - 1] + b];
      assert ps[0] + [sep] + (Join(ps[1..], sep) + b) == (ps[0] + [sep] + Join(ps[1..], sep)) + b;
    }
  }

  /** The first part gets what is put in front, the last one what is put behind. */
  function Padded(a: string, ps: seq<string>, b: string): seq<string>
    requires ps != []
  {
    var qs := ps[0 := a + ps[0]];
    qs[|qs| - 1 := qs[|qs| - 1] + b]
  }

  lemma SplitPadded(a: string, s: string, b: string, sep: char)
    requires sep !in a && sep !in b
    ensures Split(a + s + b, sep) == Padded(a, Split(s, sep), b)
  {
    var ps := Split(s, sep);
    var qs := ps[0 := a + ps[0]];
    JoinSplit(s, sep);
    JoinAfter(a, ps, sep);
    JoinBefore(qs, b, sep);
    SplitJoin(Padded(a, ps, b), sep);
  }

  lemma BlankHasNo(a: string, c: char)
    requires Blank(a) && !IsSpace(c)
    ensures c !in a
  {
  }

  /** Spaces around a piece do not matter. */
  lemma PaddedPieceParses(a: string, p: string, b: string)
    requires Blank(a) && Blank(b)
    ensures ParsePiece(a + p + b) == ParsePiece(p)
  {
    BlankHasNo(a, '-');
    BlankHasNo(b, '-');
    SplitPadded(a, p, b, '-');
    var ps := Split(p, '-');
    if |ps| == 1 {
      PaddingIsIgnored(a, ps[0], b);
    } else if |ps| == 2 {
      PaddingIsIgnored(a, ps[0], "");
      PaddingIsIgnored("", ps[1], b);
      assert a + ps[0] + "" == a + ps[0] && "" + ps[1] + b == ps[1] + b;
    }
  }

  /** The pieces with spaces around them. */
  ghost predicate Spaced(ps: seq<string>, qs: seq<string>) {
    |qs| == |ps| && forall i :: 0 <= i < |ps| ==> SpacedPiece(ps[i], qs[i])
  }

  ghost predicate SpacedPiece(p: string, q: string) {
    exists a, b :: Blank(a) && Blank(b) && q == a + p + b
  }

  lemma {:induction false} SpacedPiecesParse(ps: seq<string>, qs: seq<string>)
    requires Spaced(ps, qs)
    ensures ParsePieces(qs) == ParsePieces(ps)
  {
    if ps != [] {
      assert SpacedPiece(ps[0], qs[0]);
      var a, b :| Blank(a) && Blank(b) && qs[0] == a + ps[0] + b;
      PaddedPieceParses(a, ps[0], b);
      assert Spaced(ps[1..], qs[1..]);
      SpacedPiecesParse(ps[1..], qs[1..]);
    }
  }

  /** What a text means is what its pieces mean: the outer spaces are ignored like all others. */
  lemma ParseIs(str: string)
    ensures Parse(str) == ParsePieces(Split(str, ','))
  {
    var a, b := TrimSplits(str);
    BlankHasNo(a, ',');
    BlankHasNo(b, ',');
    SplitPadded(a, Trim(str), b, ',');
    var ps := Split(Trim(str), ',');
    var qs := Padded(a, ps, b);
    forall i | 0 <= i < |ps| ensures SpacedPiece(ps[i], qs[i]) {
      PaddedPiece(a, ps, b, i);
    }
    SpacedPiecesParse(ps, qs);
  }

  lemma PaddedPiece(a: string, ps: seq<string>, b: string, i: nat)
    requires Blank(a) && Blank(b) && i < |ps|
    ensures SpacedPiece(ps[i], Padded(a, ps, b)[i])
  {
    var (x, y) := (if i == 0 then a else "", if i == |ps| - 1 then b else "");
    assert Padded(a, ps, b)[i] == x + ps[i] + y && Blank(x) && Blank(y);
  }

  /** Spaces around the pieces of a text do not change what it means. */
  lemma SpacesDoNotMatter(ps: seq<string>, qs: seq<string>)
    requires ps != [] && Spaced(ps, qs) && forall i :: 0 <= i < |ps| ==> ',' !in ps[i]
    ensures Parse(Join(qs, ',')) == Parse(Join(ps, ','))
  {
    forall i | 0 <= i < |qs| ensures ',' !in qs[i] {
      assert SpacedPiece(ps[i], qs[i]);
      var a, b :| Blank(a) && Blank(b) && qs[i] == a + ps[i] + b;
      BlankHasNo(a, ',');
      BlankHasNo(b, ',');
    }
    SplitJoin(ps, ',');
    SplitJoin(qs, ',');
    ParseIs(Join(ps, ','));
    ParseIs(Join(qs, ','));
    SpacedPiecesParse(ps, qs);
  }

  // ---- which texts are numbers ----

  predicate AllDigits(s: string) {
    s != "" && forall i :: 0 <= i < |s| ==> '0' <= s[i] <= '9'
  }

  lemma {:induction false} ValueIff(s: string)
    ensures Value(s).Some? <==> forall i :: 0 <= i < |s| ==> '0' <= s[i] <= '9'
  {
    if s != "" {
      ValueIff(s[..|s| - 1]);
    }
  }

  /** Digits are read as their value, with or without a sign, as far as 64 bits reach. */
  lemma SignedIs(t: string)
    requires AllDigits(t)
    ensures Value(t).Some?
    ensures
      var v: int := Value(t).value;
      && ParseInt(t) == ParseInt("+" + t) == (if v <= MAX_INT64 then Some(v) else None)
      && ParseInt("-" + t) == (if v <= MAX_INT64 + 1 then Some(-v) else None)
  {
    ValueIff(t);
    assert ("+" + t)[1..] == t && ("-" + t)[1..] == t;
  }

  /** And nothing else is a number. */
  lemma OnlySignedDigits(s: string)
    requires ParseInt(s).Some?
    ensures AllDigits(s) || (s != "" && s[0] in ['+', '-'] && AllDigits(s[1..]))
  {
    ValueIff(if s != "" && (s[0] == '+' || s[0] == '-') then s[1..] else s);
  }
}
