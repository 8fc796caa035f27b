/** The server, the TCP ports and the HTTP routes as one machine: while a registration runs
    a proxy it may open listeners and routes, and every way of closing the proxy gives them
    back one by one before the server goes on. */
module Resources {
  import opened Base
  import S = Sessions
  import R = Registrations
  import V = Server
  import B = PortBook
  import T = TcpPorts
  import W = PortWindows
  import H = HttpRoutes

  /** Something a proxy has to give back: a TCP listener or port on its way, an HTTP route,
      a seat in an HTTP group. */
  datatype Ticket = Tcp(id: nat) | Route(id: nat) | Seat(seat: H.Seat)

  /** `tickets` maps each to the proxy that has it. */
  datatype State = State(server: V.State, ports: T.State, http: H.State, tickets: map<Ticket, nat>)

  datatype Event =
    | ServerStep(ve: V.Event)
    | TcpStep(i: nat, te: T.Event)    // by the proxy that control i runs or closes
    | HttpStep(i: nat, he: H.Event)
    | CleanUp(now: int)
    | Choose(group: string)

  // ---- what a proxy may do when ----

  /** The control is inside the Run or the Close of a proxy. */
  predicate Inside(op: R.Op) {
    op.Checked? || op.Closing? || op.Failed?
  }

  predicate At(b: R.Books, i: nat) {
    i < |b.work| && Inside(b.work[i].op)
  }

  function ProxyAt(b: R.Books, i: nat): R.Proxy
    requires At(b, i)
  {
    b.work[i].op.p
  }

  predicate Has(s: State, i: nat, k: Ticket) {
    At(s.server.bk, i) && k in s.tickets && s.tickets[k] == ProxyAt(s.server.bk, i).id
  }

  predicate Starts(te: T.Event) {
    T.Acquires(te) || te.JoinGroup?
  }

  predicate Finishes(te: T.Event) {
    te.UnlistenSolo? || te.LeaveGroup? || te.Release?
  }

  ghost predicate TcpEnabled(s: State, i: nat, te: T.Event) {
    && At(s.server.bk, i) && !te.CleanUp? && T.Enabled(s.ports, te) && T.Listed(s.ports, te)
    && (Finishes(te) || s.server.bk.work[i].op.Checked?)
    && (Starts(te) || Has(s, i, Tcp(te.id)))
  }

  ghost predicate HttpEnabled(s: State, i: nat, he: H.Event) {
    && At(s.server.bk, i) && H.Enabled(s.http, he)
    && match he
       case Register(pxy, _, _, _, _, _, _) =>
         s.server.bk.work[i].op.Checked? && pxy == ProxyAt(s.server.bk, i).name
       case RegisterDirect(_, _, _) => s.server.bk.work[i].op.Checked?
       case UnRegister(pxy, group) => Has(s, i, Seat(H.Seat(group, pxy)))
       case UnRegisterDirect(id) => Has(s, i, Route(id))
       case Choose(_) => false
  }

  ghost predicate NoTicket(s: State, id: nat) {
    forall k :: k in s.tickets ==> s.tickets[k] != id
  }

  /** Nothing of the proxy is still opening. */
  ghost predicate NoFlight(s: State, id: nat) {
    forall n :: n in s.ports.flights && Tcp(n) in s.tickets ==> s.tickets[Tcp(n)] != id
  }

  /** Leaving the Run or the Close of a proxy. */
  predicate Returns(we: R.Event) {
    we.RunProxy? || we.EndClose? || we.Rollback?
  }

  /** Run succeeds with everything opened; it fails, and Close ends, with everything given
      back. */
  ghost predicate Gate(s: State, ve: V.Event) {
    ve.Work? && Returns(ve.we) && At(s.server.bk, ve.we.i) ==>
      var id := ProxyAt(s.server.bk, ve.we.i).id;
      if ve.we.RunProxy? && ve.we.ok then NoFlight(s, id) else NoTicket(s, id)
  }

  ghost predicate Enabled(s: State, ev: Event) {
    match ev
    case ServerStep(ve) => V.Enabled(s.server, ve) && Gate(s, ve)
    case TcpStep(i, te) => TcpEnabled(s, i, te)
    case HttpStep(i, he) => HttpEnabled(s, i, he)
    case CleanUp(_) => true
    case Choose(group) => H.Enabled(s.http, H.Choose(group))
  }

  predicate Present(s: T.State, n: nat) {
    n in s.solo || n in s.grouped || n in s.flights
  }

  /** The step is the last one of this listener. */
  predicate Ends(s: T.State, te: T.Event, n: nat)
    requires T.Enabled(s, te)
  {
    !Starts(te) && !te.CleanUp? && te.id == n && !Present(T.Step(s, te), n)
  }

  /** A new listener belongs to the proxy; one that is given back, or that a group failed to
      open, to nobody. */
  function TcpTickets(s: State, p: nat, te: T.Event): map<Ticket, nat>
    requires T.Enabled(s.ports, te)
  {
    var more := if T.Step(s.ports, te).next > s.ports.next then s.tickets[Tcp(s.ports.next) := p] else s.tickets;
    if !Starts(te) && !te.CleanUp? && Ends(s.ports, te, te.id) then more - {Tcp(te.id)} else more
  }

  ghost predicate Registers(s: H.State, he: H.Event) {
    he.Register? && H.Answer(H.GroupOf(s.groups, he.group), H.EventKey(he) in s.routes, he) == H.Registered
  }

  ghost function HttpTickets(s: State, p: nat, he: H.Event): map<Ticket, nat>
    requires H.Enabled(s.http, he)
  {
    match he
    case Register(pxy, _, group, _, _, _, _) =>
      if Registers(s.http, he) then s.tickets[Seat(H.Seat(group, pxy)) := p] else s.tickets
    case RegisterDirect(_, _, _) =>
      if H.Step(s.http, he).next > s.http.next then s.tickets[Route(s.http.next) := p] else s.tickets
    case UnRegister(pxy, group) => s.tickets - {Seat(H.Seat(group, pxy))}
    case UnRegisterDirect(id) => s.tickets - {Route(id)}
    case Choose(_) => s.tickets
  }

  ghost function Step(s: State, ev: Event): State
    requires Enabled(s, ev)
  {
    match ev
    case ServerStep(ve) => s.(server := V.Step(s.server, ve))
    case TcpStep(i, te) =>
      s.(ports := T.Step(s.ports, te), tickets := TcpTickets(s, ProxyAt(s.server.bk, i).id, te))
    case HttpStep(i, he) =>
      s.(http := H.Step(s.http, he), tickets := HttpTickets(s, ProxyAt(s.server.bk, i).id, he))
    case CleanUp(now) => s.(ports := T.Step(s.ports, T.CleanUp(now)))
    case Choose(group) => s.(http := H.Step(s.http, H.Choose(group)))
  }

  // ---- what every run keeps ----

  /** The proxy is being run or closed. */
  predicate InProgress(b: R.Books, id: nat) {
    && id < |b.made| && At(b, b.made[id].proxy.ctl) && ProxyAt(b, b.made[id].proxy.ctl).id == id
  }

  predicate Responsible(b: R.Books, id: nat) {
    InProgress(b, id) || (id < |b.made| && b.made[id].life.Open?)
  }

  ghost predicate Exists(ports: T.State, http: H.State, k: Ticket) {
    match k
    case Tcp(id) => Present(ports, id)
    case Route(id) => id in http.direct
    case Seat(seat) => H.IsMember(http.groups, seat)
  }

  /** Every ticket stands for something that exists, and the other way round. */
  ghost predicate TicketsFit(s: State) {
    forall k :: k in s.tickets <==> Exists(s.ports, s.http, k)
  }

  /** Whoever has a ticket is open, or being run or closed. */
  ghost predicate OwnersFit(b: R.Books, tickets: map<Ticket, nat>) {
    forall k :: k in tickets ==> Responsible(b, tickets[k])
  }

  /** A port is on its way only while its proxy is being run or closed, and on its way in
      only while it is being run. */
  ghost predicate FlightFits(b: R.Books, tickets: map<Ticket, nat>, flights: map<nat, T.Flight>, n: nat) {
    n in flights && Tcp(n) in tickets ==>
      var id := tickets[Tcp(n)];
      InProgress(b, id)
      && (flights[n].OpeningSolo? || flights[n].OpeningGroup? ==> b.work[b.made[id].proxy.ctl].op.Checked?)
  }

  ghost predicate FlightsFit(b: R.Books, tickets: map<Ticket, nat>, flights: map<nat, T.Flight>) {
    forall n: nat :: FlightFits(b, tickets, flights, n)
  }

  ghost predicate Inv(s: State, allowed: set<int>) {
    && V.Inv(s.server) && T.Sane(s.ports, allowed) && H.Inv(s.http)
    && TicketsFit(s) && OwnersFit(s.server.bk, s.tickets) && FlightsFit(s.server.bk, s.tickets, s.ports.flights)
  }

  // ---- steps of the server ----

  /** Inside a Run or a Close the server does not go on by itself. */
  lemma StaysInside(b: R.Books, we: R.Event, i: nat)
    requires R.Enabled(b, we) && At(b, i) && !(we.i == i && Returns(we))
    ensures i < |R.Step(b, we).work| && R.Step(b, we).work[i].op == b.work[i].op
  {
  }

  lemma StaysInProgress(b: R.Books, we: R.Event, id: nat)
    requires R.Inv(b) && R.Enabled(b, we) && InProgress(b, id)
    requires !(we.i == b.made[id].proxy.ctl && Returns(we))
    ensures InProgress(R.Step(b, we), id)
    ensures R.Step(b, we).made[id].proxy == b.made[id].proxy
    ensures R.Step(b, we).work[b.made[id].proxy.ctl].op == b.work[b.made[id].proxy.ctl].op
  {
    R.StepTouchesOne(b, we);
    StaysInside(b, we, b.made[id].proxy.ctl);
  }

  /** An open proxy stays open until a step starts to close it. */
  lemma StaysOpen(b: R.Books, we: R.Event, id: nat)
    requires R.Inv(b) && R.Enabled(b, we) && id < |b.made| && b.made[id].life.Open?
    ensures Responsible(R.Step(b, we), id)
  {
    R.StepTouchesOne(b, we);
    assert R.MapFits(b, we.i) && R.OpFits(b, we.i) && R.MadeFits(b, id);
  }

  /** The Run that a proxy returns from with success leaves it open. */
  lemma OpensWhenRun(b: R.Books, we: R.Event, id: nat)
    requires R.Inv(b) && R.Enabled(b, we) && InProgress(b, id) && we.i == b.made[id].proxy.ctl
    requires we.RunProxy? && we.ok
    ensures Responsible(R.Step(b, we), id)
  {
    assert R.OpFits(b, we.i);
  }

  lemma WorkKeepsOwner(s: State, we: R.Event, k: Ticket)
    requires V.Inv(s.server) && V.Enabled(s.server, V.Work(we)) && Gate(s, V.Work(we))
    requires k in s.tickets && Responsible(s.server.bk, s.tickets[k])
    ensures Responsible(R.Step(s.server.bk, we), s.tickets[k])
  {
    var (b, id) := (s.server.bk, s.tickets[k]);
    if !InProgress(b, id) {
      StaysOpen(b, we, id);
    } else if !(we.i == b.made[id].proxy.ctl && Returns(we)) {
      StaysInProgress(b, we, id);
    } else {
      OpensWhenRun(b, we, id);
    }
  }

  lemma WorkKeepsFlight(s: State, we: R.Event, n: nat)
    requires V.Inv(s.server) && V.Enabled(s.server, V.Work(we)) && Gate(s, V.Work(we))
    requires FlightFits(s.server.bk, s.tickets, s.ports.flights, n)
    ensures FlightFits(R.Step(s.server.bk, we), s.tickets, s.ports.flights, n)
  {
    if n in s.ports.flights && Tcp(n) in s.tickets {
      StaysInProgress(s.server.bk, we, s.tickets[Tcp(n)]);
    }
  }

  lemma ServerKeepsInv(s: State, allowed: set<int>, ve: V.Event)
    requires Inv(s, allowed) && Enabled(s, ServerStep(ve))
    ensures Inv(Step(s, ServerStep(ve)), allowed)
  {
    var t := Step(s, ServerStep(ve));
    V.StepKeepsInv(s.server, ve);
    forall k | k in t.tickets ensures Responsible(t.server.bk, t.tickets[k]) {
      if ve.Work? {
        WorkKeepsOwner(s, ve.we, k);
      } else {
        assert Responsible(s.server.bk, s.tickets[k]);
      }
    }
    forall n: nat ensures FlightFits(t.server.bk, t.tickets, t.ports.flights, n) {
      assert FlightFits(s.server.bk, s.tickets, s.ports.flights, n);
      if ve.Work? {
        WorkKeepsFlight(s, ve.we, n);
      }
    }
  }

  // ---- steps of the ports and the routes ----

  /** Which numbers are in use after a step. */
  lemma PresentIff(s: T.State, te: T.Event, n: nat)
    requires T.Orderly(s) && T.Enabled(s, te)
    ensures
      var t := T.Step(s, te);
      Present(t, n) <==> (Present(s, n) || (n == s.next && t.next > s.next)) && !Ends(s, te, n)
  {
    match te
    case AcquireSolo(_, _, _) =>
    case AcquireGroup(_, _, _) =>
    case _ =>
  }

  /** A flight after a step was there before, or the step is one of the same proxy. */
  lemma FlightIs(s: T.State, te: T.Event, n: nat)
    requires T.Orderly(s) && T.Enabled(s, te) && n in T.Step(s, te).flights
    ensures
      var f := T.Step(s, te).flights[n];
      || (n in s.flights && f == s.flights[n])
      || (n == s.next && T.Acquires(te))
      || (!T.Acquires(te) && !te.JoinGroup? && !te.CleanUp? && te.id == n && !f.OpeningSolo? && !f.OpeningGroup?)
  {
    match te
    case AcquireSolo(_, _, _) =>
    case AcquireGroup(_, _, _) =>
    case _ =>
  }

  lemma ActorIsInProgress(b: R.Books, i: nat)
    requires R.Inv(b) && At(b, i)
    ensures InProgress(b, ProxyAt(b, i).id) && b.made[ProxyAt(b, i).id].proxy.ctl == i
  {
    assert R.OpFits(b, i);
  }

  lemma TcpKeepsTickets(s: State, i: nat, te: T.Event)
    requires T.Orderly(s.ports) && TicketsFit(s) && Enabled(s, TcpStep(i, te))
    ensures TicketsFit(Step(s, TcpStep(i, te)))
  {
    var t := Step(s, TcpStep(i, te));
    forall k ensures k in t.tickets <==> Exists(t.ports, t.http, k) {
      assert k in s.tickets <==> Exists(s.ports, s.http, k);
      if k.Tcp? {
        PresentIff(s.ports, te, k.id);
      }
    }
  }

  lemma TcpKeepsFlight(s: State, i: nat, te: T.Event, n: nat)
    requires R.Inv(s.server.bk) && T.Orderly(s.ports) && TicketsFit(s) && Enabled(s, TcpStep(i, te))
    requires FlightFits(s.server.bk, s.tickets, s.ports.flights, n)
    ensures
      var t := Step(s, TcpStep(i, te));
      FlightFits(t.server.bk, t.tickets, t.ports.flights, n)
  {
    ActorIsInProgress(s.server.bk, i);
    if n in T.Step(s.ports, te).flights {
      FlightIs(s.ports, te, n);
      assert Tcp(n) in s.tickets <==> Exists(s.ports, s.http, Tcp(n));
    }
  }

  lemma TcpKeepsOwner(s: State, i: nat, te: T.Event, k: Ticket)
    requires R.Inv(s.server.bk) && Enabled(s, TcpStep(i, te)) && OwnersFit(s.server.bk, s.tickets)
    ensures
      var t := Step(s, TcpStep(i, te));
      k in t.tickets ==> Responsible(t.server.bk, t.tickets[k])
  {
    ActorIsInProgress(s.server.bk, i);
  }

  lemma TcpKeepsInv(s: State, allowed: set<int>, i: nat, te: T.Event)
    requires Inv(s, allowed) && Enabled(s, TcpStep(i, te))
    ensures Inv(Step(s, TcpStep(i, te)), allowed)
  {
    var t := Step(s, TcpStep(i, te));
    T.StepKeepsSane(s.ports, allowed, te);
    TcpKeepsTickets(s, i, te);
    forall k | k in t.tickets ensures Responsible(t.server.bk, t.tickets[k]) {
      TcpKeepsOwner(s, i, te, k);
    }
    forall n: nat ensures FlightFits(t.server.bk, t.tickets, t.ports.flights, n) {
      TcpKeepsFlight(s, i, te, n);
    }
  }

  lemma RegisterSeatIff(s: H.State, he: H.Event, seat: H.Seat)
    requires he.Register?
    ensures H.IsMember(H.StepRegister(s, he).groups, seat) <==>
      H.IsMember(s.groups, seat) || (Registers(s, he) && seat == H.Seat(he.group, he.pxy))
  {
  }

  lemma EmptyIff<K, X>(m: map<K, X>)
    ensures |m| == 0 <==> forall k :: k !in m
  {
    assert |m| == 0 <==> m.Keys == {};
  }

  lemma UnRegisterSeatIff(s: H.State, pxy: H.Name, group: string, seat: H.Seat)
    requires H.Enabled(s, H.UnRegister(pxy, group))
    ensures H.IsMember(H.StepUnRegister(s, pxy, group).groups, seat) <==>
      H.IsMember(s.groups, seat) && seat != H.Seat(group, pxy)
  {
    var left := H.WithoutMember(s.groups[group], pxy).createFuncs;
    assert seat.group == group ==>
      (seat.pxy in left <==> seat.pxy in s.groups[group].createFuncs && seat.pxy != pxy);
    EmptyIff(left);
  }

  lemma HttpSeatIff(s: H.State, he: H.Event, seat: H.Seat)
    requires H.Enabled(s, he)
    ensures H.IsMember(H.Step(s, he).groups, seat) <==>
      (H.IsMember(s.groups, seat) || (Registers(s, he) && seat == H.Seat(he.group, he.pxy)))
      && !(he.UnRegister? && seat == H.Seat(he.group, he.pxy))
  {
    match he
    case Register(_, _, _, _, _, _, _) => RegisterSeatIff(s, he, seat);
    case UnRegister(pxy, group) => UnRegisterSeatIff(s, pxy, group, seat);
    case _ =>
  }

  lemma HttpRouteIff(s: H.State, he: H.Event, id: nat)
    requires H.Inv(s) && H.Enabled(s, he)
    ensures id in H.Step(s, he).direct <==>
      (id in s.direct || (he.RegisterDirect? && H.Step(s, he).next > s.next && id == s.next))
      && !(he.UnRegisterDirect? && he.id == id)
  {
  }

  lemma HttpKeepsTickets(s: State, i: nat, he: H.Event)
    requires H.Inv(s.http) && TicketsFit(s) && Enabled(s, HttpStep(i, he))
    ensures TicketsFit(Step(s, HttpStep(i, he)))
  {
    var t := Step(s, HttpStep(i, he));
    forall k ensures k in t.tickets <==> Exists(t.ports, t.http, k) {
      assert k in s.tickets <==> Exists(s.ports, s.http, k);
      match k {
        case Tcp(_) =>
        case Route(id) => HttpRouteIff(s.http, he, id);
        case Seat(seat) => HttpSeatIff(s.http, he, seat);
      }
    }
  }

  lemma HttpKeepsOwner(s: State, i: nat, he: H.Event, k: Ticket)
    requires R.Inv(s.server.bk) && Enabled(s, HttpStep(i, he)) && OwnersFit(s.server.bk, s.tickets)
    ensures
      var t := Step(s, HttpStep(i, he));
      k in t.tickets ==> Responsible(t.server.bk, t.tickets[k])
  {
    ActorIsInProgress(s.server.bk, i);
  }

  lemma HttpKeepsFlight(s: State, i: nat, he: H.Event, n: nat)
    requires Enabled(s, HttpStep(i, he)) && FlightFits(s.server.bk, s.tickets, s.ports.flights, n)
    ensures
      var t := Step(s, HttpStep(i, he));
      FlightFits(t.server.bk, t.tickets, t.ports.flights, n)
  {
  }

  lemma HttpKeepsInv(s: State, allowed: set<int>, i: nat, he: H.Event)
    requires Inv(s, allowed) && Enabled(s, HttpStep(i, he))
    ensures Inv(Step(s, HttpStep(i, he)), allowed)
  {
    var t := Step(s, HttpStep(i, he));
    H.StepKeepsInv(s.http, he);
    HttpKeepsTickets(s, i, he);
    forall k | k in t.tickets ensures Responsible(t.server.bk, t.tickets[k]) {
      HttpKeepsOwner(s, i, he, k);
    }
    forall n: nat ensures FlightFits(t.server.bk, t.tickets, t.ports.flights, n) {
      assert FlightFits(s.server.bk, s.tickets, s.ports.flights, n);
      HttpKeepsFlight(s, i, he, n);
    }
  }

  lemma BackgroundKeepsInv(s: State, allowed: set<int>, ev: Event)
    requires Inv(s, allowed) && Enabled(s, ev) && (ev.CleanUp? || ev.Choose?)
    ensures Inv(Step(s, ev), allowed)
  {
    var t := Step(s, ev);
    if ev.CleanUp? {
      T.StepKeepsSane(s.ports, allowed, T.CleanUp(ev.now));
    } else {
      H.StepKeepsInv(s.http, H.Choose(ev.group));
    }
    forall k ensures k in t.tickets <==> Exists(t.ports, t.http, k) {
      assert k in s.tickets <==> Exists(s.ports, s.http, k);
    }
  }

  /** Whatever the probes report: tickets stand exactly for what exists, whoever has one is
      open or being run or closed, and ports are on their way only meanwhile. */
  lemma StepKeepsInv(s: State, allowed: set<int>, ev: Event)
    requires Inv(s, allowed) && Enabled(s, ev)
    ensures Inv(Step(s, ev), allowed)
  {
    match ev
    case ServerStep(ve) => ServerKeepsInv(s, allowed, ve);
    case TcpStep(i, te) => TcpKeepsInv(s, allowed, i, te);
    case HttpStep(i, he) => HttpKeepsInv(s, allowed, i, he);
    case _ => BackgroundKeepsInv(s, allowed, ev);
  }

  // ---- runs ----

  ghost function Init(limit: nat, allowed: set<int>): State {
    State(V.Init(limit), T.Init(allowed), H.INIT, map[])
  }

  ghost predicate Run(s: State, es: seq<Event>, t: State)
    decreases |es|
  {
    if es == [] then s == t else Enabled(s, es[0]) && Run(Step(s, es[0]), es[1..], t)
  }

  lemma {:induction false} RunKeepsInv(s: State, allowed: set<int>, es: seq<Event>, t: State)
    requires Inv(s, allowed) && Run(s, es, t)
    ensures Inv(t, allowed)
    decreases |es|
  {
    if es != [] {
      StepKeepsInv(s, allowed, es[0]);
      RunKeepsInv(Step(s, es[0]), allowed, es[1..], t);
    }
  }

  ghost predicate AllDone(s: V.State) {
    forall i :: 0 <= i < |s.ss.ctls| ==> s.ss.ctls[i].phase.Done?
  }

  lemma NobodyResponsible(s: V.State, id: nat)
    requires V.Inv(s) && AllDone(s)
    ensures !Responsible(s.bk, id)
  {
    if id < |s.bk.made| {
      assert R.MadeFits(s.bk, id) && V.PhaseFits(s, s.bk.made[id].proxy.ctl);
    }
  }

  lemma NotRegistered(s: V.State, n: R.Name)
    requires V.Inv(s) && AllDone(s)
    ensures n !in s.bk.registry
  {
    assert R.EntryFits(s.bk, n);
    assert n in s.bk.registry ==> V.PhaseFits(s, s.bk.registry[n].ctl);
  }

  /** Nobody listens or is about to, and no group is locked or has members. */
  ghost predicate NoListener(s: T.State) {
    s.solo == map[] && s.grouped == map[] && s.flights == map[] && s.locked == {} && forall g :: !T.Active(s, g)
  }

  /** No route is left, and no group has members. */
  ghost predicate NoRoute(s: H.State) {
    s.routes == imap[] && s.direct == map[] && forall g :: g in s.groups ==> s.groups[g].createFuncs == map[]
  }

  lemma NothingPresent(s: State, allowed: set<int>)
    requires Inv(s, allowed) && s.tickets == map[]
    ensures NoListener(s.ports) && NoRoute(s.http)
  {
    forall k ensures !Exists(s.ports, s.http, k) {
      assert k in s.tickets <==> Exists(s.ports, s.http, k);
    }
    forall n: nat ensures n !in s.ports.solo && n !in s.ports.grouped && n !in s.ports.flights {
      assert !Exists(s.ports, s.http, Tcp(n));
    }
    NoMembersLeft(s);
    forall n: nat ensures n !in s.http.direct {
      assert !Exists(s.ports, s.http, Route(n));
    }
    forall k ensures k !in s.http.routes {
      assert k in s.http.routes ==> H.Owns(s.http.groups, s.http.direct, s.http.routes[k], k);
    }
  }

  lemma ActiveMeansMember(s: T.State, g: string)
    requires T.Orderly(s)
    ensures T.Active(s, g) ==> exists id: nat :: id in s.grouped
  {
    if T.Active(s, g) {
      assert T.Member(s.groups, s.groups[g].members[0], g);
    }
  }

  lemma NoMembersLeft(s: State)
    requires T.Orderly(s.ports) && s.ports.grouped == map[]
    requires forall k :: !Exists(s.ports, s.http, k)
    ensures forall g :: !T.Active(s.ports, g)
    ensures forall g :: g in s.http.groups ==> s.http.groups[g].createFuncs == map[]
  {
    forall g ensures !T.Active(s.ports, g) {
      ActiveMeansMember(s.ports, g);
    }
    forall g | g in s.http.groups ensures s.http.groups[g].createFuncs == map[] {
      forall n ensures n !in s.http.groups[g].createFuncs {
        assert !Exists(s.ports, s.http, Seat(H.Seat(g, n)));
      }
    }
  }

  lemma FreeIffConserved(s: T.State)
    requires NoListener(s)
    ensures s.book.used == map[] <==> T.Conserved(s)
  {
    forall h, p ensures !T.Holds(s, h, p) {
    }
    if T.Conserved(s) {
      assert forall p :: p !in s.book.used;
    }
  }

  /** Over every run, with any probes: when all controls are done, no name is registered,
      nobody listens and no port is on its way, no HTTP route is left, and no group of either
      kind has members; and then all ports are free if and only if they are conserved. */
  lemma NothingIsLeft(limit: nat, allowed: set<int>, es: seq<Event>, s: State)
    requires Run(Init(limit, allowed), es, s) && AllDone(s.server)
    ensures s.server.bk.registry == map[] && s.tickets == map[]
    ensures NoListener(s.ports) && NoRoute(s.http)
    ensures s.ports.book.used == map[] <==> T.Conserved(s.ports)
    ensures s.ports.book.used == map[] ==> s.ports.book.free == allowed
  {
    InitInv(limit, allowed);
    RunKeepsInv(Init(limit, allowed), allowed, es, s);
    forall k ensures k !in s.tickets {
      if k in s.tickets {
        NobodyResponsible(s.server, s.tickets[k]);
      }
    }
    forall n ensures n !in s.server.bk.registry {
      NotRegistered(s.server, n);
    }
    assert s.tickets == map[];
    NothingPresent(s, allowed);
    FreeIffConserved(s.ports);
  }

  lemma InitInv(limit: nat, allowed: set<int>)
    ensures Inv(Init(limit, allowed), allowed) && T.Conserved(Init(limit, allowed).ports)
  {
  }

  // ---- real probes ----

  /** The ports stay conserved if and only if the step is none that breaks them. */
  lemma StepConservesIff(s: State, allowed: set<int>, ev: Event)
    requires Inv(s, allowed) && T.Conserved(s.ports) && Enabled(s, ev)
    ensures T.Conserved(Step(s, ev).ports) <==> (ev.TcpStep? ==> T.StepOk(s.ports, ev.te))
  {
    match ev
    case TcpStep(_, te) => T.StepKeepsInvIff(s.ports, allowed, te);
    case CleanUp(now) => T.StepKeepsInvIff(s.ports, allowed, T.CleanUp(now));
    case _ =>
  }

  ghost predicate RealRun(s: State, es: seq<Event>, t: State)
    decreases |es|
  {
    if es == [] then s == t
    else
      && Enabled(s, es[0]) && (es[0].TcpStep? ==> W.Real(s.ports, es[0].te))
      && RealRun(Step(s, es[0]), es[1..], t)
  }

  /** The caller-side condition at every step: requests reach into no window that their
      probe misses, and new groups can listen. */
  ghost predicate AllSound(s: State, es: seq<Event>)
    decreases |es|
  {
    es != [] && Enabled(s, es[0]) ==>
      (es[0].TcpStep? ==> W.Sound(s.ports, es[0].te)) && AllSound(Step(s, es[0]), es[1..])
  }

  ghost predicate AlwaysConserved(s: State, es: seq<Event>)
    decreases |es|
  {
    T.Conserved(s.ports) && (es != [] && Enabled(s, es[0]) ==> AlwaysConserved(Step(s, es[0]), es[1..]))
  }

  /** Over every run of the whole server with real probes: the ports are conserved at every
      point if and only if every step meets the caller-side condition. */
  lemma {:induction false} RealRunConservesIff(s: State, allowed: set<int>, es: seq<Event>, t: State)
    requires Inv(s, allowed) && T.Conserved(s.ports) && 0 !in allowed && RealRun(s, es, t)
    ensures AlwaysConserved(s, es) <==> AllSound(s, es)
    ensures AllSound(s, es) ==> T.Conserved(t.ports)
    ensures Run(s, es, t)
    decreases |es|
  {
    if es != [] {
      StepKeepsInv(s, allowed, es[0]);
      StepConservesIff(s, allowed, es[0]);
      if es[0].TcpStep? {
        W.SoundIffOk(s.ports, allowed, es[0].te);
      }
      RealRunIsRun(s, es, t);
      if T.Conserved(Step(s, es[0]).ports) {
        RealRunConservesIff(Step(s, es[0]), allowed, es[1..], t);
      }
    }
  }

  lemma {:induction false} RealRunIsRun(s: State, es: seq<Event>, t: State)
    requires RealRun(s, es, t)
    ensures Run(s, es, t)
    decreases |es|
  {
    if es != [] {
      RealRunIsRun(Step(s, es[0]), es[1..], t);
    }
  }

  /** Over every such run: when all controls are done every port is free again. */
  lemma EveryPortIsFree(limit: nat, allowed: set<int>, es: seq<Event>, s: State)
    requires 0 !in allowed && RealRun(Init(limit, allowed), es, s) && AllSound(Init(limit, allowed), es)
    requires AllDone(s.server)
    ensures s.ports.book.used == map[] && s.ports.book.free == allowed
  {
    InitInv(limit, allowed);
    RealRunConservesIff(Init(limit, allowed), allowed, es, s);
    NothingIsLeft(limit, allowed, es, s);
  }

  // ---- progress ----

  /** Steps the server takes on its own: it opens nothing new, finishes what is on its way,
      and gives back what it has. */
  predicate IsCleanup(s: State, ev: Event) {
    match ev
    case ServerStep(ve) => V.IsCleanup(s.server, ve)
    case TcpStep(_, te) => !Starts(te) && !te.CleanUp?
    case HttpStep(_, he) => he.UnRegister? || he.UnRegisterDirect?
    case _ => false
  }

  function TcpNext(s: T.State, n: nat): T.Event
    requires Present(s, n)
  {
    if n in s.solo then T.UnlistenSolo(n)
    else if n in s.grouped then T.LeaveGroup(n)
    else match s.flights[n]
      case OpeningSolo(_) => T.ListenSolo(n, true)
      case OpeningGroup(_, _) => T.ListenGroup(n, true, 0)
      case _ => T.Release(n, 0)
  }

  /** A listener is always ready for its next step: no lock stands in the way. */
  lemma TcpNextEnabled(s: T.State, n: nat)
    requires T.Orderly(s) && Present(s, n)
    ensures T.Enabled(s, TcpNext(s, n)) && T.Listed(s, TcpNext(s, n))
  {
    if n in s.grouped {
      assert T.Member(s.groups, n, s.grouped[n].group);
    }
  }

  function Next(s: State, k: Ticket): Event
    requires k in s.tickets && InProgress(s.server.bk, s.tickets[k]) && (k.Tcp? ==> Present(s.ports, k.id))
  {
    var i := s.server.bk.made[s.tickets[k]].proxy.ctl;
    match k
    case Tcp(n) => TcpStep(i, TcpNext(s.ports, n))
    case Route(id) => HttpStep(i, H.UnRegisterDirect(id))
    case Seat(seat) => HttpStep(i, H.UnRegister(seat.pxy, seat.group))
  }

  /** While a proxy is being run or closed, whatever it has can be moved on or given back at
      once. */
  lemma ClosingIsPossible(s: State, allowed: set<int>, k: Ticket)
    requires Inv(s, allowed) && k in s.tickets && InProgress(s.server.bk, s.tickets[k])
    ensures k.Tcp? ==> Present(s.ports, k.id)
    ensures IsCleanup(s, Next(s, k)) && Enabled(s, Next(s, k))
  {
    assert k in s.tickets <==> Exists(s.ports, s.http, k);
    var i := s.server.bk.made[s.tickets[k]].proxy.ctl;
    if k.Tcp? {
      TcpNextEnabled(s.ports, k.id);
      assert FlightFits(s.server.bk, s.tickets, s.ports.flights, k.id);
    }
  }

  ghost predicate Quiet(s: State) {
    forall ev :: IsCleanup(s, ev) ==> !Enabled(s, ev)
  }

  lemma BlockedIsNotQuiet(s: State, allowed: set<int>, ve: V.Event)
    requires Inv(s, allowed) && V.Enabled(s.server, ve) && !Gate(s, ve)
    ensures !Quiet(s)
  {
    ActorIsInProgress(s.server.bk, ve.we.i);
    var k :| k in s.tickets && s.tickets[k] == ProxyAt(s.server.bk, ve.we.i).id;
    ClosingIsPossible(s, allowed, k);
  }

  /** Then the server by itself is quiet too: its ports and routes never block it. */
  lemma QuietServer(s: State, allowed: set<int>, ve: V.Event)
    requires Inv(s, allowed) && Quiet(s) && V.IsCleanup(s.server, ve)
    ensures !V.Enabled(s.server, ve)
  {
    assert IsCleanup(s, ServerStep(ve));
    if V.Enabled(s.server, ve) && !Gate(s, ve) {
      BlockedIsNotQuiet(s, allowed, ve);
    }
  }

  lemma {:induction false} ServerPart(s: State, es: seq<Event>, t: State) returns (vs: seq<V.Event>)
    requires Run(s, es, t)
    ensures V.Run(s.server, vs, t.server)
    decreases |es|
  {
    if es == [] {
      vs := [];
    } else {
      var rest := ServerPart(Step(s, es[0]), es[1..], t);
      vs := if es[0].ServerStep? then [es[0].ve] + rest else rest;
      assert es[0].ServerStep? ==> vs[1..] == rest;
    }
  }

  ghost predicate Settled(s: S.State, i: nat)
    requires i < |s.ctls|
  {
    var c := s.ctls[i];
    c.phase.Done? || (c.phase.Running? && !c.connClosed && c.runID in s.index && s.index[c.runID] == i)
  }

  /** Once the server has no step of its own left: no port is on its way and no group is
      locked, every control is done or runs with an open connection as the newest of its run
      id, and the index names exactly those. */
  lemma QuietMeansSettled(limit: nat, allowed: set<int>, es: seq<Event>, s: State)
    requires Run(Init(limit, allowed), es, s) && Quiet(s)
    ensures s.ports.flights == map[] && s.ports.locked == {}
    ensures forall i: nat :: i < |s.server.ss.ctls| ==> Settled(s.server.ss, i)
    ensures forall r :: r in s.server.ss.index <==> exists i :: V.RunsUnder(s.server, i, r)
  {
    InitInv(limit, allowed);
    RunKeepsInv(Init(limit, allowed), allowed, es, s);
    var vs := ServerPart(Init(limit, allowed), es, s);
    assert V.Reachable(s.server);
    forall ve | V.IsCleanup(s.server, ve) ensures !V.Enabled(s.server, ve) {
      QuietServer(s, allowed, ve);
    }
    forall i: nat | i < |s.server.ss.ctls| ensures Settled(s.server.ss, i) {
      V.QuietMeansSettled(s.server, i);
    }
    forall r ensures r in s.server.ss.index <==> exists i :: V.RunsUnder(s.server, i, r) {
      V.QuietIndexIsExact(s.server, r);
    }
    NothingOnItsWay(s, allowed);
  }

  lemma FlightIsNotQuiet(s: State, allowed: set<int>, n: nat)
    requires Inv(s, allowed) && n in s.ports.flights
    ensures !Quiet(s)
  {
    assert Exists(s.ports, s.http, Tcp(n)) && FlightFits(s.server.bk, s.tickets, s.ports.flights, n);
    ClosingIsPossible(s, allowed, Tcp(n));
  }

  lemma NothingOnItsWay(s: State, allowed: set<int>)
    requires Inv(s, allowed) && Quiet(s)
    ensures s.ports.flights == map[] && s.ports.locked == {}
  {
    forall n: nat ensures n !in s.ports.flights {
      if n in s.ports.flights {
        FlightIsNotQuiet(s, allowed, n);
      }
    }
  }

  /** And if every connection is lost as well, nothing is left of anything. */
  lemma QuietLeavesNothing(limit: nat, allowed: set<int>, es: seq<Event>, s: State)
    requires Run(Init(limit, allowed), es, s) && Quiet(s)
    requires forall i :: 0 <= i < |s.server.ss.ctls| ==> s.server.ss.ctls[i].connClosed
    ensures s.server.bk.registry == map[] && s.server.ss.index == map[] && s.tickets == map[]
    ensures NoListener(s.ports) && NoRoute(s.http)
    ensures s.ports.book.used == map[] <==> T.Conserved(s.ports)
  {
    QuietMeansSettled(limit, allowed, es, s);
    forall i | 0 <= i < |s.server.ss.ctls| ensures s.server.ss.ctls[i].phase.Done? {
      assert Settled(s.server.ss, i);
    }
    NothingIsLeft(limit, allowed, es, s);
    forall r ensures r !in s.server.ss.index {
      assert forall i :: !V.RunsUnder(s.server, i, r);
    }
  }

  /** In such a state a real probe sees every used port, if the ports are conserved and no
      group is stray. */
  lemma QuietProbesAreHonest(limit: nat, allowed: set<int>, es: seq<Event>, s: State, busy: set<int>)
    requires Run(Init(limit, allowed), es, s) && Quiet(s)
    requires T.Conserved(s.ports) && W.Sees(s.ports, busy) && forall g :: !W.Stray(s.ports, g)
    ensures B.Honest(s.ports.book, busy)
  {
    QuietMeansSettled(limit, allowed, es, s);
    W.SettledMeansHonest(s.ports, busy);
  }

  // ---- cleaning up ends ----

  function Openings(flights: map<nat, T.Flight>): set<nat> {
    set n | n in flights && (flights[n].OpeningSolo? || flights[n].OpeningGroup?)
  }

  /** One for what is on its way back, two for a listener, three for an opening. */
  function PortsRank(tickets: map<Ticket, nat>, s: T.State): nat {
    |tickets| + |s.solo| + |s.grouped| + 2 * |Openings(s.flights)|
  }

  function Rank(s: State): nat
    requires |s.server.ss.ctls| == |s.server.bk.work|
  {
    V.TotalRank(s.server, |s.server.ss.ctls|) + PortsRank(s.tickets, s.ports)
  }

  lemma Fewer<K, X>(m: map<K, X>, k: K)
    requires k in m
    ensures |m - {k}| == |m| - 1
  {
    assert (m - {k}).Keys == m.Keys - {k};
  }

  lemma OneMore<K, X>(m: map<K, X>, k: K, x: X)
    requires k !in m
    ensures |m[k := x]| == |m| + 1
  {
    assert m[k := x].Keys == m.Keys + {k};
  }

  lemma ListenSoloLowersRank(s: State, i: nat, te: T.Event)
    requires T.Orderly(s.ports) && Enabled(s, TcpStep(i, te)) && te.ListenSolo?
    ensures
      var t := Step(s, TcpStep(i, te));
      PortsRank(t.tickets, t.ports) < PortsRank(s.tickets, s.ports)
  {
    var t := Step(s, TcpStep(i, te));
    assert Openings(t.ports.flights) == Openings(s.ports.flights) - {te.id};
    if te.listenOk {
      OneMore(s.ports.solo, te.id, s.ports.flights[te.id].port);
    }
  }

  lemma ListenGroupLowersRank(s: State, i: nat, te: T.Event)
    requires T.Orderly(s.ports) && Enabled(s, TcpStep(i, te)) && te.ListenGroup?
    ensures
      var t := Step(s, TcpStep(i, te));
      PortsRank(t.tickets, t.ports) < PortsRank(s.tickets, s.ports)
  {
    var t := Step(s, TcpStep(i, te));
    assert Openings(t.ports.flights) == Openings(s.ports.flights) - {te.id};
    if te.listenOk {
      OneMore(s.ports.grouped, te.id, s.ports.flights[te.id].asked);
    } else {
      Fewer(s.tickets, Tcp(te.id));
    }
  }

  lemma UnlistenLowersRank(s: State, i: nat, te: T.Event)
    requires T.Orderly(s.ports) && Enabled(s, TcpStep(i, te)) && te.UnlistenSolo?
    ensures
      var t := Step(s, TcpStep(i, te));
      PortsRank(t.tickets, t.ports) < PortsRank(s.tickets, s.ports)
  {
    assert Openings(Step(s, TcpStep(i, te)).ports.flights) == Openings(s.ports.flights);
    Fewer(s.ports.solo, te.id);
  }

  lemma LeaveLowersRank(s: State, i: nat, te: T.Event)
    requires T.Orderly(s.ports) && Enabled(s, TcpStep(i, te)) && te.LeaveGroup?
    ensures
      var t := Step(s, TcpStep(i, te));
      PortsRank(t.tickets, t.ports) < PortsRank(s.tickets, s.ports)
  {
    assert Openings(Step(s, TcpStep(i, te)).ports.flights) == Openings(s.ports.flights);
    Fewer(s.tickets, Tcp(te.id));
    Fewer(s.ports.grouped, te.id);
  }

  lemma ReleaseLowersRank(s: State, i: nat, te: T.Event)
    requires T.Orderly(s.ports) && Enabled(s, TcpStep(i, te)) && te.Release?
    ensures
      var t := Step(s, TcpStep(i, te));
      PortsRank(t.tickets, t.ports) < PortsRank(s.tickets, s.ports)
  {
    assert Openings(Step(s, TcpStep(i, te)).ports.flights) == Openings(s.ports.flights);
    Fewer(s.tickets, Tcp(te.id));
  }

  lemma HttpLowersRank(s: State, i: nat, he: H.Event)
    requires Enabled(s, HttpStep(i, he)) && (he.UnRegister? || he.UnRegisterDirect?)
    ensures |Step(s, HttpStep(i, he)).tickets| < |s.tickets|
  {
    if he.UnRegister? {
      Fewer(s.tickets, Seat(H.Seat(he.group, he.pxy)));
    } else {
      Fewer(s.tickets, Route(he.id));
    }
  }

  lemma CleanupLowersRank(s: State, allowed: set<int>, ev: Event)
    requires Inv(s, allowed) && Enabled(s, ev) && IsCleanup(s, ev)
    ensures
      var t := Step(s, ev);
      |t.server.ss.ctls| == |t.server.bk.work| && Rank(t) < Rank(s)
  {
    match ev
    case ServerStep(ve) =>
      V.CleanupLowersRank(s.server, ve);
      V.TotalRankLower(s.server, V.Step(s.server, ve), |s.server.ss.ctls|, V.Actor(s.server, ve));
    case TcpStep(i, te) =>
      match te {
        case UnlistenSolo(_) => UnlistenLowersRank(s, i, te);
        case LeaveGroup(_) => LeaveLowersRank(s, i, te);
        case Release(_, _) => ReleaseLowersRank(s, i, te);
        case ListenSolo(_, _) => ListenSoloLowersRank(s, i, te);
        case _ => ListenGroupLowersRank(s, i, te);
      }
    case HttpStep(i, he) => HttpLowersRank(s, i, he);
    case _ =>
  }

  ghost predicate CleanupRun(s: State, es: seq<Event>, t: State)
    decreases |es|
  {
    if es == [] then s == t
    else Enabled(s, es[0]) && IsCleanup(s, es[0]) && CleanupRun(Step(s, es[0]), es[1..], t)
  }

  /** Cleaning up always ends, with listens that succeed or fail as they like: no run of
      cleanup steps of the whole server is longer than the rank. */
  lemma {:induction false} CleanupEnds(s: State, allowed: set<int>, es: seq<Event>, t: State)
    requires Inv(s, allowed) && CleanupRun(s, es, t)
    ensures |es| <= Rank(s)
    decreases |es|
  {
    if es != [] {
      StepKeepsInv(s, allowed, es[0]);
      CleanupLowersRank(s, allowed, es[0]);
      CleanupEnds(Step(s, es[0]), allowed, es[1..], t);
    }
  }
}
