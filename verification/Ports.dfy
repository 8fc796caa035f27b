/** The port allocator with its shared records: the record of a used port is the same
    object as the reservation of its holder. */
module Ports {
  import opened Base
  import B = PortBook
  import R = PortRanges

  class PortCtx {
    const proxyName: B.Name
    var port: int
    var closed: bool
    var updateTime: int

    constructor (proxyName: B.Name, now: int)
      ensures this.proxyName == proxyName && !closed && port == 0 && updateTime == now
    {
      this.proxyName, port, closed, updateTime := proxyName, 0, false, now;
    }
  }

  class Manager {
    var reservedPorts: map<B.Name, PortCtx>
    var usedPorts: map<int, PortCtx>
    var freePorts: set<int>

    /** All records in use or reserved. */
    ghost var Repr: set<PortCtx>

    /** The allocator on values; Valid ties it to the objects. */
    ghost var book: B.Book

    ghost predicate RecordFits(m: B.Name)
      requires m in reservedPorts && m in book.reserved
      reads this, reservedPorts[m]
    {
      var ctx := reservedPorts[m];
      && ctx.proxyName == m
      && book.reserved[m] == B.Record(ctx.port, ctx.closed, ctx.updateTime)
      && (m in book.live <==> ctx.port in usedPorts && usedPorts[ctx.port] == ctx)
    }

    ghost predicate PortFits(p: int)
      requires p in usedPorts && p in book.used
      reads this, usedPorts[p]
    {
      usedPorts[p].port == p && !usedPorts[p].closed && book.used[p] == usedPorts[p].proxyName
    }

    /** A used port has an open record of that very port, a reservation a record of that
        very name; live are the names whose reservation is the record of the port. */
    ghost predicate Valid()
      reads this, Repr
    {
      && book.free == freePorts && book.used.Keys == usedPorts.Keys && book.reserved.Keys == reservedPorts.Keys
      && book.live <= reservedPorts.Keys
      && (forall p :: p in usedPorts ==> usedPorts[p] in Repr && PortFits(p))
      && (forall m :: m in reservedPorts ==> reservedPorts[m] in Repr && RecordFits(m))
    }

    /** The free ports at the start are those of the configured ranges. */
    constructor (allowPorts: seq<R.PortsRange>)
      ensures Valid() && book == B.Fresh(freePorts) && fresh(Repr)
      ensures forall p :: p in freePorts <==> R.Allows(allowPorts, p)
    {
      var allowed := R.FreePorts(allowPorts);
      reservedPorts, usedPorts, freePorts := map[], map[], allowed;
      book, Repr := B.Fresh(allowed), {};
    }

    /** The first available port among the first tries of the iteration order. */
    method TryFree(order: seq<int>, busy: set<int>) returns (k: Option<int>)
      ensures k == B.FirstFree(order, busy, B.MAX_TRIES)
    {
      var count := 0;
      while count < |order| && count < B.MAX_TRIES
        invariant 0 <= count <= |order| && count <= B.MAX_TRIES
        invariant B.FirstFree(order, busy, B.MAX_TRIES) == B.FirstFree(order[count..], busy, B.MAX_TRIES - count)
      {
        if order[count] !in busy {
          return Some(order[count]);
        }
        assert order[count..][1..] == order[count + 1..];
        count := count + 1;
      }
      return None;
    }

    method Grant(name: B.Name, p: int, now: int)
      requires Valid()
      modifies this
      ensures Valid() && fresh(Repr - old(Repr))
      ensures book == B.Take(old(book), name, p, now)
    {
      var portCtx := new PortCtx(name, now);
      Repr := Repr + {portCtx};
      portCtx.port := p;
      usedPorts := usedPorts[p := portCtx];
      reservedPorts := reservedPorts[name := portCtx];
      freePorts := freePorts - {p};
      book := B.Take(book, name, p, now);
      forall q | q in usedPorts ensures usedPorts[q] in Repr && PortFits(q) {
        assert q != p ==> old(PortFits(q));
      }
      forall m | m in reservedPorts ensures reservedPorts[m] in Repr && RecordFits(m) {
        assert m != name ==> old(RecordFits(m));
      }
    }

    method Acquire(name: B.Name, port: int, order: seq<int>, busy: set<int>, now: int)
      returns (realPort: int, err: B.Error)
      requires Valid()
      modifies this
      ensures Valid() && fresh(Repr - old(Repr))
      ensures book == B.Acquire(old(book), name, port, order, busy, now)
      ensures err == B.Decide(old(book), name, port, order, busy).1
      ensures err.Ok? ==> Some(realPort) == B.Decide(old(book), name, port, order, busy).0
    {
      realPort, err := 0, B.Ok;
      if port == 0 {
        if name in reservedPorts && reservedPorts[name].port !in busy {
          realPort := reservedPorts[name].port;
          Grant(name, realPort, now);
          return;
        }
        var k := TryFree(order, busy);
        if k.Some? {
          realPort := k.value;
          Grant(name, realPort, now);
        }
        if realPort == 0 {
          err := B.NoAvailable;
        }
      } else if port in freePorts {
        if port !in busy {
          realPort := port;
          Grant(name, realPort, now);
        } else {
          err := B.UnAvailable;
        }
      } else if port in usedPorts {
        err := B.AlreadyUsed;
      } else {
        err := B.NotAllowed;
      }
    }

    /** Closing the record of the port closes the reservation that shares it. */
    method Release(port: int, now: int)
      requires Valid()
      modifies this, Repr
      ensures Valid() && Repr == old(Repr)
      ensures book == B.Release(old(book), port, now)
    {
      if port in usedPorts {
        var ctx := usedPorts[port];
        freePorts := freePorts + {port};
        usedPorts := usedPorts - {port};
        ctx.closed := true;
        ctx.updateTime := now;
        book := B.Release(book, port, now);
        forall m | m in reservedPorts ensures RecordFits(m) {
          assert old(RecordFits(m));
        }
      }
    }

    method CleanReservedPorts(now: int)
      requires Valid()
      modifies this
      ensures Valid() && Repr == old(Repr)
      ensures book == B.Clean(old(book), now)
    {
      var todo := reservedPorts.Keys;
      while todo != {}
        invariant todo <= reservedPorts.Keys <= old(reservedPorts).Keys
        invariant usedPorts == old(usedPorts) && freePorts == old(freePorts) && book == old(book) && Repr == old(Repr)
        invariant forall m :: m in old(reservedPorts) && m !in todo ==>
          (m in reservedPorts <==> !Outdated(old(reservedPorts)[m], now))
        invariant forall m :: m in reservedPorts ==> reservedPorts[m] == old(reservedPorts)[m]
        decreases todo
      {
        var name :| name in todo;
        todo := todo - {name};
        if Outdated(reservedPorts[name], now) {
          reservedPorts := reservedPorts - {name};
        }
      }
      book := B.Clean(book, now);
      forall m | m in reservedPorts ensures RecordFits(m) {
        assert old(RecordFits(m));
      }
    }

    static predicate Outdated(ctx: PortCtx, now: int)
      reads ctx
    {
      ctx.closed && now - ctx.updateTime > B.DAY
    }
  }
}
