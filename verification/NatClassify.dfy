/** What the observed mapped addresses say about a NAT, and the ports worth trying. */
module NatClassify {
  import opened Base
  import A = Analyzer

  /** A mapped address after splitting host and port: the port keeps its text, which is
      what is compared, and its number. */
  datatype Address = Malformed | Address(ip: string, port: string, number: int)

  ghost predicate WellFormed(addrs: seq<Address>) {
    forall i :: 0 <= i < |addrs| ==> addrs[i].Address?
  }

  /** Leading addresses without an IP only move the base; comparing starts at the first
      address with one. */
  function Compared(addrs: seq<Address>): seq<Address> {
    if addrs == [] then []
    else if addrs[0].Address? && addrs[0].ip == "" then Compared(addrs[1..])
    else addrs
  }

  ghost predicate SameIP(addrs: seq<Address>)
    requires WellFormed(addrs)
  {
    forall x, y :: x in addrs && y in addrs ==> x.ip == y.ip
  }

  ghost predicate SamePort(addrs: seq<Address>)
    requires WellFormed(addrs)
  {
    forall x, y :: x in addrs && y in addrs ==> x.port == y.port
  }

  ghost predicate Spread(addrs: seq<Address>, d: int)
    requires WellFormed(addrs)
  {
    && (exists x, y :: x in addrs && y in addrs && x.number - y.number == d)
    && forall x, y :: x in addrs && y in addrs ==> x.number - y.number <= d
  }

  ghost predicate OnLocal(addrs: seq<Address>, localIPs: seq<string>)
    requires WellFormed(addrs)
  {
    exists x :: x in addrs && x.ip in localIPs
  }

  function BehaviorOf(ipChanged: bool, portChanged: bool): A.Behavior {
    if ipChanged && portChanged then A.BothChanged
    else if ipChanged then A.IPChanged
    else if portChanged then A.PortChanged
    else A.NoChange
  }

  /** The feature that the compared addresses call for. */
  ghost predicate Describes(f: A.NatFeature, addrs: seq<Address>, localIPs: seq<string>)
    requires WellFormed(addrs)
  {
    var e := Compared(addrs);
    ComparedIsSuffix(addrs);
    && (f.behavior.NoChange? <==> SameIP(e) && SamePort(e))
    && (f.behavior.IPChanged? <==> !SameIP(e) && SamePort(e))
    && (f.behavior.PortChanged? <==> SameIP(e) && !SamePort(e))
    && (f.behavior.BothChanged? <==> !SameIP(e) && !SamePort(e))
    && (f.natType.EasyNAT? <==> SameIP(e) && SamePort(e))
    && (if f.behavior.PortChanged? then
          Spread(e, f.portsDifference) && (f.regularPortsChange <==> 1 <= f.portsDifference <= 5)
        else f.portsDifference == 0 && !f.regularPortsChange)
    && (f.publicNetwork <==> OnLocal(addrs, localIPs))
  }

  lemma {:induction false} ComparedIsSuffix(addrs: seq<Address>)
    ensures |Compared(addrs)| <= |addrs| && Compared(addrs) == addrs[|addrs| - |Compared(addrs)|..]
    ensures WellFormed(addrs) ==> WellFormed(Compared(addrs))
    ensures Compared(addrs) != [] && WellFormed(addrs) ==> Compared(addrs)[0].ip != ""
    ensures forall i :: 0 <= i < |addrs| - |Compared(addrs)| ==> addrs[i].Address? && addrs[i].ip == ""
  {
    if addrs != [] && addrs[0].Address? && addrs[0].ip == "" {
      ComparedIsSuffix(addrs[1..]);
    }
  }

  lemma {:induction false} ComparedOfAppend(addrs: seq<Address>, a: Address)
    ensures Compared(addrs + [a]) == if Compared(addrs) == [] then Compared([a]) else Compared(addrs) + [a]
  {
    if addrs != [] {
      assert (addrs + [a])[1..] == addrs[1..] + [a];
      if addrs[0].Address? && addrs[0].ip == "" {
        ComparedOfAppend(addrs[1..], a);
      }
    } else {
      assert addrs + [a] == [a];
    }
  }

  /** What the loop has gathered about the addresses compared so far. */
  ghost predicate Gathered(e: seq<Address>, baseIP: string, basePort: string, lo: int, hi: int, ipChanged: bool,
                           portChanged: bool)
    requires WellFormed(e)
  {
    if e == [] then baseIP == "" && !ipChanged && !portChanged
    else
      && baseIP == e[0].ip && baseIP != "" && basePort == e[0].port
      && (ipChanged <==> exists x :: x in e && x.ip != baseIP)
      && (portChanged <==> exists x :: x in e && x.port != basePort)
      && (exists x :: x in e && x.number == hi) && (exists x :: x in e && x.number == lo)
      && forall x :: x in e ==> lo <= x.number <= hi
  }

  lemma GatherFirst(a: Address)
    requires a.Address?
    ensures WellFormed(Compared([a]))
    ensures Gathered(Compared([a]), a.ip, a.port, a.number, a.number, false, false)
  {
    assert a in [a];
  }

  lemma GatherNext(e: seq<Address>, a: Address, ip: string, port: string, lo: int, hi: int, ipC: bool, portC: bool)
    requires WellFormed(e) && a.Address? && e != [] && Gathered(e, ip, port, lo, hi, ipC, portC)
    ensures Gathered(e + [a], ip, port, if a.number < lo then a.number else lo, if a.number > hi then a.number else hi,
                     ipC || ip != a.ip, portC || port != a.port)
  {
    var t := e + [a];
    assert a in t;
    assert forall x :: x in t <==> x in e || x == a;
    var lo' := if a.number < lo then a.number else lo;
    var hi' := if a.number > hi then a.number else hi;
    var x :| x in e && x.number == lo;
    assert x in t;
    var y :| y in e && y.number == hi;
    assert y in t;
    assert exists z :: z in t && z.number == lo';
    assert exists z :: z in t && z.number == hi';
  }

  /** The classification succeeds exactly on two or more well-formed addresses and then
      names exactly which component varies. */
  method ClassifyNATFeature(addrs: seq<Address>, localIPs: seq<string>) returns (f: Option<A.NatFeature>)
    ensures f.Some? <==> |addrs| >= 2 && WellFormed(addrs)
    ensures f.Some? ==> Describes(f.value, addrs, localIPs)
  {
    if |addrs| <= 1 {
      return None;
    }
    var ipChanged, portChanged, public := false, false, false;
    var baseIP, basePort := "", "";
    var portMax, portMin := 0, 0;
    for i := 0 to |addrs|
      invariant WellFormed(addrs[..i]) && WellFormed(Compared(addrs[..i]))
      invariant public <==> OnLocal(addrs[..i], localIPs)
      invariant Gathered(Compared(addrs[..i]), baseIP, basePort, portMin, portMax, ipChanged, portChanged)
    {
      var a := addrs[i];
      if a.Malformed? {
        return None;
      }
      Extend(addrs, i, localIPs);
      if a.ip in localIPs {
        public := true;
      }
      if baseIP == "" {
        GatherFirst(a);
        baseIP, basePort, portMax, portMin := a.ip, a.port, a.number, a.number;
        continue;
      }
      GatherNext(Compared(addrs[..i]), a, baseIP, basePort, portMin, portMax, ipChanged, portChanged);
      portMax := if a.number > portMax then a.number else portMax;
      portMin := if a.number < portMin then a.number else portMin;
      if baseIP != a.ip {
        ipChanged := true;
      }
      if basePort != a.port {
        portChanged := true;
      }
    }
    assert addrs[..|addrs|] == addrs;
    var behavior := BehaviorOf(ipChanged, portChanged);
    var natType := if behavior.NoChange? then A.EasyNAT else A.HardNAT;
    var diff := if behavior.PortChanged? then portMax - portMin else 0;
    var feature := A.NatFeature(natType, behavior, diff, 1 <= diff <= 5, public);
    Conclude(addrs, localIPs, feature, baseIP, basePort, portMin, portMax, ipChanged, portChanged);
    return Some(feature);
  }

  lemma Extend(addrs: seq<Address>, i: nat, localIPs: seq<string>)
    requires i < |addrs| && addrs[i].Address? && WellFormed(addrs[..i])
    ensures WellFormed(addrs[..i + 1]) && WellFormed(Compared(addrs[..i + 1]))
    ensures Compared(addrs[..i + 1]) ==
      if Compared(addrs[..i]) == [] then Compared([addrs[i]]) else Compared(addrs[..i]) + [addrs[i]]
    ensures OnLocal(addrs[..i + 1], localIPs) <==> OnLocal(addrs[..i], localIPs) || addrs[i].ip in localIPs
  {
    assert addrs[..i + 1] == addrs[..i] + [addrs[i]];
    ComparedOfAppend(addrs[..i], addrs[i]);
    ComparedIsSuffix(addrs[..i + 1]);
    assert forall x :: x in addrs[..i + 1] <==> x in addrs[..i] || x == addrs[i];
  }

  lemma Conclude(addrs: seq<Address>, localIPs: seq<string>, f: A.NatFeature, ip: string, port: string, lo: int,
                 hi: int, ipC: bool, portC: bool)
    requires WellFormed(addrs) && WellFormed(Compared(addrs))
    requires Gathered(Compared(addrs), ip, port, lo, hi, ipC, portC)
    requires f.behavior == BehaviorOf(ipC, portC)
    requires f.natType == if f.behavior.NoChange? then A.EasyNAT else A.HardNAT
    requires f.portsDifference == if f.behavior.PortChanged? then hi - lo else 0
    requires f.regularPortsChange <==> 1 <= f.portsDifference <= 5
    requires f.publicNetwork <==> OnLocal(addrs, localIPs)
    ensures Describes(f, addrs, localIPs)
  {
    var e := Compared(addrs);
    if e != [] {
      assert e[0] in e;
      assert ipC <==> !SameIP(e);
      assert portC <==> !SamePort(e);
      var x :| x in e && x.number == hi;
      var y :| y in e && y.number == lo;
      assert x.number - y.number == hi - lo;
    }
  }

  lemma SameMembers(a: seq<Address>, b: seq<Address>)
    requires multiset(a) == multiset(b)
    ensures forall x :: x in a <==> x in b
  {
    forall x ensures x in a <==> x in b {
      assert x in a <==> x in multiset(a);
      assert x in b <==> x in multiset(b);
    }
  }

  lemma {:induction false} NothingSkipped(addrs: seq<Address>)
    requires WellFormed(addrs) && forall x :: x in addrs ==> x.ip != ""
    ensures Compared(addrs) == addrs
  {
    if addrs != [] {
      assert addrs[0] in addrs;
    }
  }

  /** With non-empty IPs the order of the addresses does not matter. */
  lemma OrderDoesNotMatter(a: seq<Address>, b: seq<Address>, localIPs: seq<string>, f: A.NatFeature, g: A.NatFeature)
    requires WellFormed(a) && WellFormed(b) && multiset(a) == multiset(b)
    requires forall x :: x in a ==> x.ip != ""
    requires Describes(f, a, localIPs) && Describes(g, b, localIPs)
    ensures f == g
  {
    SameMembers(a, b);
    NothingSkipped(a);
    NothingSkipped(b);
    assert SameIP(a) <==> SameIP(b);
    assert SamePort(a) <==> SamePort(b);
    assert OnLocal(a, localIPs) <==> OnLocal(b, localIPs);
    if f.behavior.PortChanged? {
      SpreadIsUnique(a, b, f.portsDifference, g.portsDifference);
    }
  }

  lemma SpreadIsUnique(a: seq<Address>, b: seq<Address>, d: int, e: int)
    requires WellFormed(a) && WellFormed(b) && forall x :: x in a <==> x in b
    requires Spread(a, d) && Spread(b, e)
    ensures d == e
  {
    var x, y :| x in a && y in a && x.number - y.number == d;
    var u, v :| u in b && v in b && u.number - v.number == e;
  }

  /** An easy NAT shows one and the same address everywhere. */
  lemma EasyMeansOneAddress(addrs: seq<Address>, localIPs: seq<string>, f: A.NatFeature)
    requires WellFormed(addrs) && (forall x :: x in addrs ==> x.ip != "") && Describes(f, addrs, localIPs)
    ensures f.natType.EasyNAT? <==>
      forall x, y :: x in addrs && y in addrs ==> x.ip == y.ip && x.port == y.port
  {
    NothingSkipped(addrs);
    if f.natType.EasyNAT? {
      assert SameIP(addrs) && SamePort(addrs);
    }
  }

  // ---- candidate ports ----

  datatype PortsRange = PortsRange(from: int, to: int)

  /** getRangePorts, given the port of the last mapped address if it can be read. */
  function RangePorts(port: Option<int>, difference: int, maxNumber: int): Option<PortsRange> {
    if maxNumber <= 0 || port.None? then None
    else
      var p := port.value;
      Some(PortsRange(Max(Max(p - difference - 5, p - maxNumber), 1),
                      Min(Min(p + difference + 5, p + maxNumber), 65535)))
  }

  /** As far from the observed port as the ports were apart, and five more, but not further
      than the maximum. */
  predicate Near(q: int, port: int, difference: int, maxNumber: int) {
    var d := if q < port then port - q else q - port;
    d <= difference + 5 && d <= maxNumber
  }

  /** The range is exactly the legal ports near the observed one. It stays within the legal
      ports, has at most 2 * maxNumber + 1 of them, and
      contains the observed port exactly when that one is legal. */
  lemma RangePortsAreLegal(port: Option<int>, difference: nat, maxNumber: int)
    ensures RangePorts(port, difference, maxNumber).Some? <==> maxNumber > 0 && port.Some?
    ensures
      var r := RangePorts(port, difference, maxNumber);
      r.Some? ==>
        && 1 <= r.value.from && r.value.to <= 65535
        && r.value.to - r.value.from + 1 <= 2 * maxNumber + 1
        && (r.value.from <= port.value <= r.value.to <==> 1 <= port.value <= 65535)
        && forall q ::
          r.value.from <= q <= r.value.to <==> 1 <= q <= 65535 && Near(q, port.value, difference, maxNumber)
  {
  }
}
