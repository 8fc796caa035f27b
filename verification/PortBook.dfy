/** The port allocator on values: free and used ports, and what is remembered for each
    proxy name. */
module PortBook {
  import opened Base

  type Name = string

  const DAY := 24 * 3600
  const MAX_TRIES := 5

  /** A reservation: the port, whether its holder has released it, and when. */
  datatype Record = Record(port: int, closed: bool, updateTime: int)

  /** `live` are the names whose reservation is the very record of the used port, so that
      releasing the port shows in the reservation. */
  datatype Book = Book(reserved: map<Name, Record>, live: set<Name>, used: map<int, Name>, free: set<int>)

  datatype Error = Ok | AlreadyUsed | NotAllowed | UnAvailable | NoAvailable

  /** The first available one among the first tries of a random order. */
  function FirstFree(order: seq<int>, busy: set<int>, tries: nat): Option<int>
    decreases |order|
  {
    if order == [] || tries == 0 then None
    else if order[0] !in busy then Some(order[0])
    else FirstFree(order[1..], busy, tries - 1)
  }

  /** Which port is taken, and the error. `busy` are the ports the operating system
      reports as taken, `order` is the iteration order over the free ports. */
  function Decide(b: Book, name: Name, port: int, order: seq<int>, busy: set<int>): (Option<int>, Error) {
    if port == 0 then
      if name in b.reserved && b.reserved[name].port !in busy then (Some(b.reserved[name].port), Ok)
      else
        var k := FirstFree(order, busy, MAX_TRIES);
        (k, if k.None? || k.value == 0 then NoAvailable else Ok)
    else if port in b.free then
      if port !in busy then (Some(port), Ok) else (None, UnAvailable)
    else if port in b.used then (None, AlreadyUsed)
    else (None, NotAllowed)
  }

  function OnPort(b: Book, p: int): set<Name> {
    set m | m in b.live && m in b.reserved && b.reserved[m].port == p
  }

  function Take(b: Book, name: Name, p: int, now: int): Book {
    Book(b.reserved[name := Record(p, false, now)], b.live - OnPort(b, p) + {name}, b.used[p := name], b.free - {p})
  }

  function Acquire(b: Book, name: Name, port: int, order: seq<int>, busy: set<int>, now: int): Book {
    match Decide(b, name, port, order, busy).0
    case None => b
    case Some(p) => Take(b, name, p, now)
  }

  function Release(b: Book, p: int, now: int): Book {
    if p !in b.used then b
    else
      Book(map m | m in b.reserved :: if m in OnPort(b, p) then Record(p, true, now) else b.reserved[m],
           b.live - OnPort(b, p), b.used - {p}, b.free + {p})
  }

  predicate Expired(r: Record, now: int) {
    r.closed && now - r.updateTime > DAY
  }

  function Clean(b: Book, now: int): Book {
    var gone := set m | m in b.reserved && Expired(b.reserved[m], now);
    b.(reserved := b.reserved - gone, live := b.live - gone)
  }

  // ---- what every operation keeps ----

  ghost predicate LiveFits(b: Book, m: Name) {
    && m in b.reserved && !b.reserved[m].closed
    && b.reserved[m].port in b.used && b.used[b.reserved[m].port] == m
  }

  /** Free and used ports partition the allowed ones; a live reservation is the open
      record of the port its name holds; reserved ports are allowed ports. */
  ghost predicate Inv(b: Book, allowed: set<int>) {
    && b.used.Keys !! b.free && b.used.Keys + b.free == allowed
    && (forall m :: m in b.live ==> LiveFits(b, m))
    && (forall m :: m in b.reserved ==> b.reserved[m].port in allowed)
  }

  /** No open reservation is left over from a port that went to someone else. */
  ghost predicate NoStrays(b: Book) {
    forall m :: m in b.reserved && !b.reserved[m].closed ==> m in b.live
  }

  /** The operating system reports every used port as taken. */
  predicate Honest(b: Book, busy: set<int>) {
    b.used.Keys <= busy
  }

  /** The iteration order lists exactly the free ports. */
  ghost predicate Lists(b: Book, order: seq<int>) {
    forall p :: p in order <==> p in b.free
  }

  lemma {:induction false} FirstFreeIsFree(order: seq<int>, busy: set<int>, tries: nat)
    ensures
      var k := FirstFree(order, busy, tries);
      && (k.Some? ==> k.value in order && k.value !in busy)
      && (k.None? ==> forall i :: 0 <= i < |order| && i < tries ==> order[i] in busy)
    decreases |order|
  {
    if order != [] && tries > 0 && order[0] in busy {
      FirstFreeIsFree(order[1..], busy, tries - 1);
      forall i | 0 <= i < |order| && i < tries && FirstFree(order, busy, tries).None? ensures order[i] in busy {
        if i > 0 {
          assert order[i] == order[1..][i - 1];
        }
      }
    }
  }

  /** A grant takes an allowed and available port; it is a free one, except for the
      reservation branch, which does not look at the free ports. */
  lemma GrantIsAllowed(b: Book, allowed: set<int>, name: Name, port: int, order: seq<int>, busy: set<int>)
    requires Inv(b, allowed) && Lists(b, order)
    ensures
      var (k, err) := Decide(b, name, port, order, busy);
      && (k.Some? ==> k.value in allowed && k.value !in busy)
      && (err.Ok? && port != 0 ==> k == Some(port))
      && (k.None? ==> !err.Ok?)
  {
    FirstFreeIsFree(order, busy, MAX_TRIES);
  }

  /** Exactly when a port that is already in use is handed out again: a request for any
      port by a name whose reserved port is in use but reported as available. */
  lemma DoubleGrantIff(b: Book, allowed: set<int>, name: Name, port: int, order: seq<int>, busy: set<int>)
    requires Inv(b, allowed) && Lists(b, order)
    ensures
      var k := Decide(b, name, port, order, busy).0;
      (k.Some? && k.value in b.used) <==>
        (port == 0 && name in b.reserved && b.reserved[name].port !in busy && b.reserved[name].port in b.used)
  {
    FirstFreeIsFree(order, busy, MAX_TRIES);
  }

  /** With an honest probe no port is handed out twice. */
  lemma HonestMeansExclusive(b: Book, allowed: set<int>, name: Name, port: int, order: seq<int>, busy: set<int>)
    requires Inv(b, allowed) && Lists(b, order) && Honest(b, busy)
    ensures
      var k := Decide(b, name, port, order, busy).0;
      k.Some? ==> k.value in b.free
  {
    GrantIsAllowed(b, allowed, name, port, order, busy);
    DoubleGrantIff(b, allowed, name, port, order, busy);
  }

  /** Port 0 is the first available one among the tried free ports, and any port is asked
      for by a name that cannot have its reserved port. */
  ghost predicate PicksZero(b: Book, name: Name, port: int, order: seq<int>, busy: set<int>) {
    && port == 0 && !(name in b.reserved && b.reserved[name].port !in busy)
    && 0 !in busy && exists i :: Reached(order, busy, MAX_TRIES, 0, i)
  }

  /** The i-th port of the order is p, within the tries, and all before it are taken. */
  ghost predicate Reached(order: seq<int>, busy: set<int>, tries: nat, p: int, i: int) {
    0 <= i < |order| && i < tries && order[i] == p && forall j :: 0 <= j < i ==> order[j] in busy
  }

  lemma {:induction false} FirstFreeIs(order: seq<int>, busy: set<int>, tries: nat, p: int)
    ensures FirstFree(order, busy, tries) == Some(p) <==> p !in busy && exists i :: Reached(order, busy, tries, p, i)
    decreases |order|
  {
    if order != [] && tries > 0 && order[0] in busy {
      var rest, left := order[1..], tries - 1;
      FirstFreeIs(rest, busy, left, p);
      if i :| Reached(order, busy, tries, p, i) {
        assert i > 0 ==> Reached(rest, busy, left, p, i - 1);
      }
      if i :| Reached(rest, busy, left, p, i) {
        assert Reached(order, busy, tries, p, i + 1);
      }
    } else if order != [] && tries > 0 {
      assert Reached(order, busy, tries, order[0], 0);
    }
  }

  /** A failed request changes something exactly when port 0 itself is among the allowed
      ports and is picked: then it is used up without a holder. */
  lemma FailureLeavesNoTrace(b: Book, allowed: set<int>, name: Name, port: int, order: seq<int>, busy: set<int>,
                             now: int)
    requires Inv(b, allowed) && Lists(b, order)
    ensures (!Decide(b, name, port, order, busy).1.Ok? && Acquire(b, name, port, order, busy, now) != b)
      <==> PicksZero(b, name, port, order, busy)
    ensures PicksZero(b, name, port, order, busy) ==> 0 in allowed
  {
    GrantIsAllowed(b, allowed, name, port, order, busy);
    FirstFreeIsFree(order, busy, MAX_TRIES);
    FirstFreeIs(order, busy, MAX_TRIES, 0);
    if Decide(b, name, port, order, busy).0 == Some(0) && port == 0 && PicksZero(b, name, port, order, busy) {
      assert 0 in b.free && 0 !in Take(b, name, 0, now).free;
    }
  }

  /** What a request for a certain port is answered: exactly a free and available port is
      granted, and each refusal has its own reason. */
  lemma CertainAnswerIs(b: Book, allowed: set<int>, name: Name, port: int, order: seq<int>, busy: set<int>)
    requires Inv(b, allowed) && port != 0
    ensures
      var (k, err) := Decide(b, name, port, order, busy);
      && (err.Ok? <==> port in b.free && port !in busy) && (err.Ok? ==> k == Some(port)) && (!err.Ok? ==> k == None)
      && (err.UnAvailable? <==> port in b.free && port in busy)
      && (err.AlreadyUsed? <==> port in b.used)
      && (err.NotAllowed? <==> port !in allowed)
  {
  }

  /** The reserved port is free or in use, and available. */
  predicate CanReturn(b: Book, name: Name, busy: set<int>) {
    name in b.reserved && b.reserved[name].port !in busy
  }

  /** What a request for any port is answered: the reserved port if it is available, else the
      first available one among the first five tried, and a refusal exactly when all of these
      are taken or port 0 comes first. */
  lemma AnyAnswerIs(b: Book, name: Name, order: seq<int>, busy: set<int>, p: int)
    ensures
      var (k, err) := Decide(b, name, 0, order, busy);
      && (err.Ok? || err.NoAvailable?)
      && (err.Ok? && k == Some(p) <==>
          if CanReturn(b, name, busy) then p == b.reserved[name].port
          else p != 0 && p !in busy && exists i :: Reached(order, busy, 5, p, i))
      && (err.NoAvailable? <==>
          !CanReturn(b, name, busy)
          && ((forall i :: 0 <= i < |order| && i < 5 ==> order[i] in busy)
              || (0 !in busy && exists i :: Reached(order, busy, 5, 0, i))))
  {
    FirstFreeIs(order, busy, MAX_TRIES, p);
    FirstFreeIs(order, busy, MAX_TRIES, 0);
    FirstFreeIsFree(order, busy, MAX_TRIES);
    var first := FirstFree(order, busy, MAX_TRIES);
    if first.Some? {
      FirstFreeIs(order, busy, MAX_TRIES, first.value);
      var i :| Reached(order, busy, MAX_TRIES, first.value, i);
      assert order[i] !in busy;
    }
  }

  lemma TakeKeepsInv(b: Book, allowed: set<int>, name: Name, p: int, now: int)
    requires Inv(b, allowed) && p in allowed
    ensures Inv(Take(b, name, p, now), allowed)
  {
    var t := Take(b, name, p, now);
    forall m | m in t.live
      ensures LiveFits(t, m)
    {
      assert m == name || (m in b.live && m !in OnPort(b, p));
    }
  }

  lemma TakeFreeKeepsNoStrays(b: Book, allowed: set<int>, name: Name, p: int, now: int)
    requires Inv(b, allowed) && NoStrays(b) && p in b.free
    ensures NoStrays(Take(b, name, p, now))
  {
    var t := Take(b, name, p, now);
    forall m | m in t.reserved && !t.reserved[m].closed ensures m in t.live {
      if m != name {
        assert m in b.live && b.reserved[m].port != p;
      }
    }
  }

  lemma ReleaseKeepsInv(b: Book, allowed: set<int>, p: int, now: int)
    requires Inv(b, allowed)
    ensures Inv(Release(b, p, now), allowed)
    ensures NoStrays(b) ==> NoStrays(Release(b, p, now))
  {
    var t := Release(b, p, now);
    if p in b.used {
      forall m | m in t.live
        ensures LiveFits(t, m)
      {
        assert m in b.live && m !in OnPort(b, p);
      }
    }
  }

  /** Cleaning drops exactly the closed reservations older than a day, and so no
      reservation that is the record of a port in use. */
  lemma CleanDropsExpired(b: Book, allowed: set<int>, now: int)
    requires Inv(b, allowed)
    ensures Inv(Clean(b, now), allowed) && (NoStrays(b) ==> NoStrays(Clean(b, now)))
    ensures Clean(b, now).live == b.live
    ensures forall m :: m in Clean(b, now).reserved <==>
      m in b.reserved && !(b.reserved[m].closed && now - b.reserved[m].updateTime > 24 * 3600)
    ensures forall m :: m in Clean(b, now).reserved ==> Clean(b, now).reserved[m] == b.reserved[m]
    ensures Clean(b, now).used == b.used && Clean(b, now).free == b.free
  {
  }

  // ---- runs ----

  datatype Event =
    | Acquiring(name: Name, port: int, order: seq<int>, busy: set<int>, now: int)
    | Releasing(port: int, now: int)
    | Cleaning(now: int)

  function Step(b: Book, e: Event): Book {
    match e
    case Acquiring(name, port, order, busy, now) => Acquire(b, name, port, order, busy, now)
    case Releasing(port, now) => Release(b, port, now)
    case Cleaning(now) => Clean(b, now)
  }

  /** Iteration orders list the free ports; with `honest`, probes are honest too. */
  ghost predicate Run(b: Book, es: seq<Event>, c: Book, honest: bool)
    decreases |es|
  {
    if es == [] then b == c
    else
      && (es[0].Acquiring? ==> Lists(b, es[0].order) && (honest ==> Honest(b, es[0].busy)))
      && Run(Step(b, es[0]), es[1..], c, honest)
  }

  lemma StepKeepsInv(b: Book, allowed: set<int>, e: Event, honest: bool)
    requires Inv(b, allowed) && (honest ==> NoStrays(b))
    requires e.Acquiring? ==> Lists(b, e.order) && (honest ==> Honest(b, e.busy))
    ensures Inv(Step(b, e), allowed) && (honest ==> NoStrays(Step(b, e)))
  {
    match e
    case Acquiring(name, port, order, busy, now) =>
      GrantIsAllowed(b, allowed, name, port, order, busy);
      var k := Decide(b, name, port, order, busy).0;
      if k.Some? {
        TakeKeepsInv(b, allowed, name, k.value, now);
        if honest {
          HonestMeansExclusive(b, allowed, name, port, order, busy);
          TakeFreeKeepsNoStrays(b, allowed, name, k.value, now);
        }
      }
    case Releasing(port, now) => ReleaseKeepsInv(b, allowed, port, now);
    case Cleaning(now) => CleanDropsExpired(b, allowed, now);
  }

  function Fresh(allowed: set<int>): Book {
    Book(map[], {}, map[], allowed)
  }

  /** In every run the free and used ports partition the allowed ones; with honest
      probes every open reservation is the record of a port in use. */
  lemma {:induction false} RunKeepsInv(b: Book, allowed: set<int>, es: seq<Event>, c: Book, honest: bool)
    requires Inv(b, allowed) && (honest ==> NoStrays(b)) && Run(b, es, c, honest)
    ensures Inv(c, allowed) && (honest ==> NoStrays(c))
    decreases |es|
  {
    if es != [] {
      StepKeepsInv(b, allowed, es[0], honest);
      RunKeepsInv(Step(b, es[0]), allowed, es[1..], c, honest);
    }
  }

  // ---- sticky ports ----

  /** Nobody else's business and no late cleaning. */
  predicate Leaves(e: Event, name: Name, t: int) {
    match e
    case Acquiring(other, _, _, _, _) => other != name
    case Releasing(_, _) => true
    case Cleaning(now) => now - t <= DAY
  }

  ghost predicate Remembers(b: Book, name: Name, p: int, t: int) {
    name in b.reserved && name !in b.live && b.reserved[name] == Record(p, true, t)
  }

  lemma {:induction false} StaysRemembered(b: Book, allowed: set<int>, es: seq<Event>, c: Book, name: Name, p: int,
                                           t: int)
    requires Inv(b, allowed) && Run(b, es, c, false) && Remembers(b, name, p, t)
    requires forall k :: 0 <= k < |es| ==> Leaves(es[k], name, t)
    ensures Remembers(c, name, p, t)
    decreases |es|
  {
    if es != [] {
      StepKeepsInv(b, allowed, es[0], false);
      assert Leaves(es[0], name, t);
      assert Remembers(Step(b, es[0]), name, p, t);
      StaysRemembered(Step(b, es[0]), allowed, es[1..], c, name, p, t);
    }
  }

  /** A name whose reservation is the record of its port gets that port back when it asks
      for any port, whatever others acquired and released in between and whatever was
      cleaned up to a day later, if only the port is available then. */
  lemma LivePortIsSticky(b: Book, allowed: set<int>, name: Name, t: int, es: seq<Event>, c: Book, order: seq<int>,
                         busy: set<int>)
    requires Inv(b, allowed) && name in b.live
    requires Run(Release(b, b.reserved[name].port, t), es, c, false)
    requires forall k :: 0 <= k < |es| ==> Leaves(es[k], name, t)
    requires b.reserved[name].port !in busy
    ensures Decide(c, name, 0, order, busy) == (Some(b.reserved[name].port), Ok)
  {
    var p := b.reserved[name].port;
    ReleaseKeepsInv(b, allowed, p, t);
    assert name in OnPort(b, p);
    StaysRemembered(Release(b, p, t), allowed, es, c, name, p, t);
  }

  // ---- who is remembered ----

  predicate Remembered(b: Book, p: int)
    requires p in b.used
  {
    b.used[p] in b.live && b.used[p] in b.reserved && b.reserved[b.used[p]].port == p
  }

  /** The name has the reservation of every port it holds. */
  ghost predicate RememberedFor(b: Book, m: Name) {
    forall p :: p in b.used && b.used[p] == m ==> Remembered(b, p)
  }

  /** The name is granted a port while it holds another one. */
  ghost predicate TakesSecond(b: Book, e: Event) {
    e.Acquiring? &&
    var k := Decide(b, e.name, e.port, e.order, e.busy).0;
    k.Some? && exists p :: p in b.used && p != k.value && b.used[p] == e.name
  }

  /** A step keeps a holder remembered if and only if it does not grant that one a second
      port, whatever it does to others. */
  lemma StepKeepsRememberedIff(b: Book, allowed: set<int>, e: Event, m: Name)
    requires Inv(b, allowed) && RememberedFor(b, m)
    ensures RememberedFor(Step(b, e), m) <==> !(TakesSecond(b, e) && e.name == m)
  {
    var t := Step(b, e);
    if TakesSecond(b, e) && e.name == m {
      var k := Decide(b, e.name, e.port, e.order, e.busy).0.value;
      var p :| p in b.used && p != k && b.used[p] == m;
      assert p in t.used && !Remembered(t, p);
    } else {
      forall p | p in t.used && t.used[p] == m ensures Remembered(t, p) {
        assert p in b.used && b.used[p] == m ==> Remembered(b, p);
      }
    }
  }

  ghost predicate NeverTakesSecond(b: Book, es: seq<Event>, m: Name)
    decreases |es|
  {
    es != [] ==> !(TakesSecond(b, es[0]) && es[0].name == m) && NeverTakesSecond(Step(b, es[0]), es[1..], m)
  }

  ghost predicate AlwaysRememberedFor(b: Book, es: seq<Event>, m: Name)
    decreases |es|
  {
    RememberedFor(b, m) && (es != [] ==> AlwaysRememberedFor(Step(b, es[0]), es[1..], m))
  }

  /** Over every run, whatever the probes report and whatever others take: a name is
      remembered for what it holds at every point if and only if it never takes a second
      port while it holds one. */
  lemma {:induction false} RunRemembersForIff(b: Book, allowed: set<int>, es: seq<Event>, c: Book, m: Name)
    requires Inv(b, allowed) && RememberedFor(b, m) && Run(b, es, c, false)
    ensures AlwaysRememberedFor(b, es, m) <==> NeverTakesSecond(b, es, m)
    ensures NeverTakesSecond(b, es, m) ==> RememberedFor(c, m)
    decreases |es|
  {
    if es != [] {
      StepKeepsInv(b, allowed, es[0], false);
      StepKeepsRememberedIff(b, allowed, es[0], m);
      if !(TakesSecond(b, es[0]) && es[0].name == m) {
        RunRemembersForIff(Step(b, es[0]), allowed, es[1..], c, m);
      }
    }
  }

  /** Every holder has the reservation of the port it holds. */
  ghost predicate HoldersRemembered(b: Book) {
    forall p :: p in b.used ==> Remembered(b, p)
  }

  ghost predicate NobodyTakesSecond(b: Book, es: seq<Event>)
    decreases |es|
  {
    es != [] ==> !TakesSecond(b, es[0]) && NobodyTakesSecond(Step(b, es[0]), es[1..])
  }

  ghost predicate AlwaysRemembered(b: Book, es: seq<Event>)
    decreases |es|
  {
    HoldersRemembered(b) && (es != [] ==> AlwaysRemembered(Step(b, es[0]), es[1..]))
  }

  lemma {:induction false} NobodyMeansNotThisOne(b: Book, es: seq<Event>, m: Name)
    ensures NobodyTakesSecond(b, es) ==> NeverTakesSecond(b, es, m)
    ensures AlwaysRemembered(b, es) ==> AlwaysRememberedFor(b, es, m)
    decreases |es|
  {
    if es != [] {
      NobodyMeansNotThisOne(Step(b, es[0]), es[1..], m);
    }
  }

  lemma {:induction false} SomebodyTakesSecond(b: Book, es: seq<Event>) returns (m: Name)
    requires !NobodyTakesSecond(b, es)
    ensures !NeverTakesSecond(b, es, m)
    decreases |es|
  {
    if TakesSecond(b, es[0]) {
      m := es[0].name;
    } else {
      m := SomebodyTakesSecond(Step(b, es[0]), es[1..]);
    }
  }

  lemma {:induction false} SomebodyIsForgotten(b: Book, es: seq<Event>) returns (m: Name)
    requires !AlwaysRemembered(b, es)
    ensures !AlwaysRememberedFor(b, es, m)
    decreases |es|
  {
    if p :| p in b.used && !Remembered(b, p) {
      m := b.used[p];
    } else {
      m := SomebodyIsForgotten(Step(b, es[0]), es[1..]);
    }
  }

  /** And so for all together: all holders are remembered at every point if and only if no
      name takes a second port while it holds one. */
  lemma RunRemembersIff(b: Book, allowed: set<int>, es: seq<Event>, c: Book)
    requires Inv(b, allowed) && HoldersRemembered(b) && Run(b, es, c, false)
    ensures AlwaysRemembered(b, es) <==> NobodyTakesSecond(b, es)
  {
    if !NobodyTakesSecond(b, es) {
      var m := SomebodyTakesSecond(b, es);
      NobodyMeansNotThisOne(b, es, m);
      RunRemembersForIff(b, allowed, es, c, m);
    } else if !AlwaysRemembered(b, es) {
      var m := SomebodyIsForgotten(b, es);
      NobodyMeansNotThisOne(b, es, m);
      RunRemembersForIff(b, allowed, es, c, m);
    }
  }

  /** A book reached from the start without this name taking a second port. */
  ghost predicate ReachedAlone(allowed: set<int>, es: seq<Event>, b: Book, m: Name, honest: bool) {
    Run(Fresh(allowed), es, b, honest) && NeverTakesSecond(Fresh(allowed), es, m)
  }

  lemma {:induction false} HonestRunIsRun(b: Book, es: seq<Event>, c: Book)
    requires Run(b, es, c, true)
    ensures Run(b, es, c, false)
    decreases |es|
  {
    if es != [] {
      HonestRunIsRun(Step(b, es[0]), es[1..], c);
    }
  }

  lemma ReachedRemembers(allowed: set<int>, es: seq<Event>, b: Book, m: Name, honest: bool)
    requires ReachedAlone(allowed, es, b, m, honest)
    ensures Inv(b, allowed) && RememberedFor(b, m) && (honest ==> NoStrays(b))
  {
    if honest {
      HonestRunIsRun(Fresh(allowed), es, b);
    }
    RunKeepsInv(Fresh(allowed), allowed, es, b, honest);
    RunRemembersForIff(Fresh(allowed), allowed, es, b, m);
  }

  /** Then, with honest probes, the name has an open reservation exactly when it holds a port. */
  lemma OpenReservationsAreHolders(allowed: set<int>, es: seq<Event>, b: Book, m: Name)
    requires ReachedAlone(allowed, es, b, m, true)
    ensures m in b.reserved && !b.reserved[m].closed <==> exists p :: p in b.used && b.used[p] == m
  {
    ReachedRemembers(allowed, es, b, m, true);
    if p :| p in b.used && b.used[p] == m {
      assert Remembered(b, p) && LiveFits(b, m);
    }
    if m in b.reserved && !b.reserved[m].closed {
      assert m in b.live && LiveFits(b, m);
      assert b.used[b.reserved[m].port] == m;
    }
  }

  /** In any state: cleaning leaves the holder of a port a reservation exactly when it has
      one that is the record of a port in use or not yet expired. */
  lemma CleanKeepsHolderIff(b: Book, allowed: set<int>, now: int, p: int)
    requires Inv(b, allowed) && p in b.used
    ensures
      var m := b.used[p];
      m in Clean(b, now).reserved <==> m in b.reserved && (m in b.live || !Expired(b.reserved[m], now))
  {
    if b.used[p] in b.live {
      assert LiveFits(b, b.used[p]);
    }
  }

  /** Cleaning never drops the reservation of a holder who has not itself taken a second
      port, whatever others have taken. */
  lemma CleanKeepsHolders(allowed: set<int>, es: seq<Event>, b: Book, now: int, p: int)
    requires p in b.used && ReachedAlone(allowed, es, b, b.used[p], false)
    ensures
      var m := b.used[p];
      m in Clean(b, now).reserved && Clean(b, now).reserved[m] == b.reserved[m] && b.reserved[m].port == p
  {
    ReachedRemembers(allowed, es, b, b.used[p], false);
    assert Remembered(b, p);
    CleanKeepsHolderIff(b, allowed, now, p);
  }

  /** Right after a holder released its port, with nothing busy, it gets that port back if
      and only if its reservation is for that port. */
  lemma ReleasedPortReturnsIff(b: Book, name: Name, p: int, t: int, order: seq<int>)
    requires p in b.used && b.used[p] == name && name in b.reserved
    ensures Decide(Release(b, p, t), name, 0, order, {}) == (Some(p), Ok) <==> b.reserved[name].port == p
  {
    var r := Release(b, p, t).reserved;
    assert name in r && r[name].port == b.reserved[name].port;
  }

  /** Sticky ports: a holder who has not itself taken a second port gets its port back after
      the release when it asks for any port, whatever others acquired and released before
      and since and whatever was cleaned up to a day later, if only the port is available. */
  lemma PortIsSticky(allowed: set<int>, before: seq<Event>, b: Book, p: int, t: int, es: seq<Event>, c: Book,
                     order: seq<int>, busy: set<int>)
    requires p in b.used && ReachedAlone(allowed, before, b, b.used[p], false)
    requires Run(Release(b, p, t), es, c, false)
    requires forall k :: 0 <= k < |es| ==> Leaves(es[k], b.used[p], t)
    requires p !in busy
    ensures Decide(c, b.used[p], 0, order, busy) == (Some(p), Ok)
  {
    ReachedRemembers(allowed, before, b, b.used[p], false);
    assert Remembered(b, p);
    LivePortIsSticky(b, allowed, b.used[p], t, es, c, order, busy);
  }

  // ---- runs that reach the failures ----

  /** "b" releases port 10, and "a", who asks for any port, is granted it. */
  const TAKEN_OVER: seq<Event> := [
    Acquiring("b", 10, [10], {}, 0), Releasing(10, 1), Acquiring("a", 0, [10], {}, 2)]

  const OVER := Book(map["b" := Record(10, true, 1), "a" := Record(10, false, 2)], {"a"}, map[10 := "a"], {})

  lemma TakenOver()
    ensures Run(Fresh({10}), TAKEN_OVER, OVER, true)
  {
    var b1 := Book(map["b" := Record(10, false, 0)], {"b"}, map[10 := "b"], {});
    var b2 := Book(map["b" := Record(10, true, 1)], {}, map[], {10});
    assert Decide(b2, "a", 0, [10], {}).0 == Some(10);
    assert OnPort(b1, 10) == {"b"};
    assert Step(Fresh({10}), TAKEN_OVER[0]) == b1 && Step(b1, TAKEN_OVER[1]) == b2 && Step(b2, TAKEN_OVER[2]) == OVER;
    assert Run(OVER, TAKEN_OVER[1..][1..][1..], OVER, true);
    assert Run(b2, TAKEN_OVER[1..][1..], OVER, true);
    assert Run(b1, TAKEN_OVER[1..], OVER, true);
  }

  /** From there "b" gets the used port again when the probe does not see it. */
  lemma DoubleGrantHappens()
    ensures Run(Fresh({10}), TAKEN_OVER, OVER, true)
    ensures Decide(OVER, "b", 0, [], {}) == (Some(10), Ok) && 10 in OVER.used
  {
    TakenOver();
  }

  /** Right from the start, with port 0 allowed, a failed request can use it up. */
  lemma ZeroIsLost()
    ensures Decide(Fresh({0}), "a", 0, [0], {}).1 == NoAvailable
    ensures Acquire(Fresh({0}), "a", 0, [0], {}, 1).free == {} && 0 in Acquire(Fresh({0}), "a", 0, [0], {}, 1).used
  {
    assert Decide(Fresh({0}), "a", 0, [0], {}).0 == Some(0);
  }

  /** "x" takes 10, then 11 as well, and releases 11. */
  const SECOND: seq<Event> := [
    Acquiring("x", 10, [10, 11], {}, 0), Acquiring("x", 11, [11], {10}, 1), Releasing(11, 2)]

  const HELD := Book(map["x" := Record(11, true, 2)], {}, map[10 := "x"], {11})

  function Second(k: nat): Book
    requires k <= 3
  {
    if k == 0 then Fresh({10, 11})
    else if k == 1 then Book(map["x" := Record(10, false, 0)], {"x"}, map[10 := "x"], {11})
    else if k == 2 then Book(map["x" := Record(11, false, 1)], {"x"}, map[10 := "x", 11 := "x"], {})
    else HELD
  }

  lemma FirstTaken()
    ensures Step(Second(0), SECOND[0]) == Second(1) && Lists(Second(0), [10, 11])
  {
  }

  lemma SecondTaken()
    ensures Step(Second(1), SECOND[1]) == Second(2) && Lists(Second(1), [11])
  {
  }

  lemma SecondReleased()
    ensures Step(Second(2), SECOND[2]) == Second(3)
  {
    assert OnPort(Second(2), 11) == {"x"};
  }

  lemma SecondRun()
    ensures Run(Fresh({10, 11}), SECOND, HELD, true)
  {
    FirstTaken();
    SecondTaken();
    SecondReleased();
    assert Run(Second(3), SECOND[1..][1..][1..], HELD, true);
    assert Run(Second(2), SECOND[1..][1..], HELD, true);
    assert Run(Second(1), SECOND[1..], HELD, true);
  }

  /** With honest probes, "x" then holds 10 without being remembered for it: cleaning a day
      later drops its only reservation, and after releasing 10 it gets 11 instead. */
  lemma SecondPortIsForgotten(order: seq<int>)
    ensures Run(Fresh({10, 11}), SECOND, HELD, true) && HELD.used[10] == "x" && !HoldersRemembered(HELD)
    ensures "x" !in Clean(HELD, 2 + DAY + 1).reserved
    ensures Decide(Release(HELD, 10, 3), "x", 0, order, {}) == (Some(11), Ok)
  {
    SecondRun();
    assert !Remembered(HELD, 10);
  }
}
