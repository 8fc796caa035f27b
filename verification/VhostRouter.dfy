/** The virtual-host routing index: buckets of routes per domain and HTTP user,
    each kept in descending order of location so that the first prefix hit is the
    longest one. */
module VhostRouter {
  import opened Base
  import opened Text

  datatype Route<P> = Route(domain: string, location: string, httpUser: string, payload: P)

  datatype Key = Key(domain: string, user: string, location: string)

  type Bucket<P> = seq<Route<P>>
  type Index<P> = map<string, map<string, Bucket<P>>>

  function BucketOf<P>(index: Index<P>, domain: string, user: string): Bucket<P> {
    if domain in index && user in index[domain] then index[domain][user] else []
  }

  /** The abstract table the index stands for. */
  ghost function TableOf<P>(index: Index<P>): imap<Key, P> {
    imap k: Key | exists i :: HitAt(BucketOf(index, k.domain, k.user), k.location, i)
      :: PayloadOf(BucketOf(index, k.domain, k.user), k.location)
  }

  ghost predicate HitAt<P>(bucket: Bucket<P>, location: string, i: int) {
    0 <= i < |bucket| && bucket[i].location == location
  }

  ghost function PayloadOf<P>(bucket: Bucket<P>, location: string): P
    requires exists i :: HitAt(bucket, location, i)
  {
    var i :| HitAt(bucket, location, i);
    bucket[i].payload
  }

  ghost predicate Descending<P>(bucket: Bucket<P>) {
    forall i, j :: 0 <= i < j < |bucket| ==> Compare(bucket[j].location, bucket[i].location) < 0
  }

  ghost predicate Proper<P>(bucket: Bucket<P>, domain: string, user: string) {
    Descending(bucket) && forall r :: r in bucket ==> r.domain == domain && r.httpUser == user
  }

  /** Domains are stored in lower case; every bucket holds routes of its own domain
      and user in descending order. */
  ghost predicate WellFormed<P>(index: Index<P>) {
    && (forall d :: d in index ==> ToLower(d) == d)
    && (forall d, u :: Proper(BucketOf(index, d, u), d, u))
  }

  function Put<P>(index: Index<P>, domain: string, user: string, bucket: Bucket<P>): (res: Index<P>)
    ensures BucketOf(res, domain, user) == bucket
    ensures forall d, u :: (d != domain || u != user) ==> BucketOf(res, d, u) == BucketOf(index, d, u)
    ensures res.Keys == index.Keys + {domain}
  {
    var byUser := if domain in index then index[domain] else map[];
    index[domain := byUser[user := bucket]]
  }

  // ---- slices.SortFunc on a bucket ----

  function InsertDescending<P>(bucket: Bucket<P>, r: Route<P>): (res: Bucket<P>)
    ensures multiset(res) == multiset(bucket) + multiset{r}
  {
    if bucket == [] then [r]
    else if Compare(bucket[0].location, r.location) < 0 then [r] + bucket
    else
      assert bucket == [bucket[0]] + bucket[1..];
      [bucket[0]] + InsertDescending(bucket[1..], r)
  }

  function SortDescending<P>(bucket: Bucket<P>): (res: Bucket<P>)
    ensures multiset(res) == multiset(bucket)
  {
    if bucket == [] then []
    else
      assert bucket == bucket[..|bucket| - 1] + [bucket[|bucket| - 1]];
      InsertDescending(SortDescending(bucket[..|bucket| - 1]), bucket[|bucket| - 1])
  }

  ghost predicate DistinctLocations<P>(bucket: Bucket<P>) {
    forall i, j :: 0 <= i < j < |bucket| ==> bucket[i].location != bucket[j].location
  }

  lemma InMultiset<P>(a: Bucket<P>, b: Bucket<P>, r: Route<P>)
    requires multiset(a) == multiset(b)
    ensures r in a <==> r in b
  {
    assert r in a <==> r in multiset(a);
    assert r in b <==> r in multiset(b);
  }

  lemma {:induction false} InsertKeepsOrder<P>(bucket: Bucket<P>, r: Route<P>)
    requires Descending(bucket)
    requires forall x :: x in bucket ==> x.location != r.location
    ensures Descending(InsertDescending(bucket, r))
  {
    if bucket != [] {
      if Compare(bucket[0].location, r.location) < 0 {
        forall j | 0 < j < |bucket|
          ensures Compare(bucket[j].location, r.location) < 0
        {
          CompareTransitive(bucket[j].location, bucket[0].location, r.location);
        }
      } else {
        InsertKeepsOrder(bucket[1..], r);
        CompareZero(bucket[0].location, r.location);
        PushFront(bucket[0], InsertDescending(bucket[1..], r), bucket[1..] + [r]);
      }
    }
  }

  lemma PushFront<P>(first: Route<P>, rest: Bucket<P>, sameRest: Bucket<P>)
    requires Descending(rest) && multiset(rest) == multiset(sameRest)
    requires forall i :: 0 <= i < |sameRest| ==> Compare(sameRest[i].location, first.location) < 0
    ensures Descending([first] + rest)
  {
    forall i | 0 <= i < |rest| ensures Compare(rest[i].location, first.location) < 0 {
      InMultiset(rest, sameRest, rest[i]);
    }
  }

  lemma {:induction false} SortIsDescending<P>(bucket: Bucket<P>)
    requires DistinctLocations(bucket)
    ensures Descending(SortDescending(bucket))
  {
    if bucket != [] {
      var init, last := bucket[..|bucket| - 1], bucket[|bucket| - 1];
      SortIsDescending(init);
      forall x | x in SortDescending(init)
        ensures x.location != last.location
      {
        InMultiset(SortDescending(init), init, x);
      }
      InsertKeepsOrder(SortDescending(init), last);
    }
  }

  /** Whatever algorithm the library sort uses: two descending arrangements of the
      same routes are equal. */
  lemma {:induction false} DescendingIsUnique<P>(a: Bucket<P>, b: Bucket<P>)
    requires Descending(a) && Descending(b) && multiset(a) == multiset(b)
    ensures a == b
  {
    assert |multiset(a)| == |a| && |multiset(b)| == |b|;
    if a != [] {
      SameFirst(a, b);
      TailMultiset(a);
      TailMultiset(b);
      DescendingIsUnique(a[1..], b[1..]);
      assert a == [a[0]] + a[1..] && b == [b[0]] + b[1..];
    }
  }

  lemma TailMultiset<P>(a: Bucket<P>)
    requires a != []
    ensures multiset(a[1..]) == multiset(a) - multiset{a[0]}
  {
    assert a == [a[0]] + a[1..];
  }

  lemma SameFirst<P>(a: Bucket<P>, b: Bucket<P>)
    requires Descending(a) && Descending(b) && multiset(a) == multiset(b)
    requires a != [] && b != []
    ensures a[0] == b[0]
  {
    InMultiset(a, b, a[0]);
    InMultiset(a, b, b[0]);
    assert a[0] in a && b[0] in b;
    var i :| 0 <= i < |a| && a[i] == b[0];
    var j :| 0 <= j < |b| && b[j] == a[0];
    CompareZero(a[0].location, b[0].location);
  }

  // ---- the longest-prefix theorem ----

  /** In a descending bucket the first location that is a prefix of the path is at
      least as long as every other one. */
  lemma FirstHitIsLongest<P>(bucket: Bucket<P>, path: string, i: nat, j: nat)
    requires Descending(bucket) && i < |bucket| && j < |bucket| && j != i
    requires bucket[i].location <= path && bucket[j].location <= path
    requires forall k :: 0 <= k < i ==> !(bucket[k].location <= path)
    ensures |bucket[j].location| < |bucket[i].location|
  {
    var a, b := bucket[i].location, bucket[j].location;
    assert i < j;
    if |a| <= |b| {
      assert a == path[..|a|] && b == path[..|b|];
      assert a <= b;
      CompareZero(a, b);
      if a != b {
        PrefixSortsFirst(a, b);
      }
      assert false;
    }
  }

  lemma TableAt<P>(index: Index<P>, k: Key, i: int)
    requires WellFormed(index)
    requires HitAt(BucketOf(index, k.domain, k.user), k.location, i)
    ensures k in TableOf(index)
    ensures TableOf(index)[k] == BucketOf(index, k.domain, k.user)[i].payload
  {
    var bucket := BucketOf(index, k.domain, k.user);
    assert k in TableOf(index);
    forall j | HitAt(bucket, k.location, j) ensures j == i {
      CompareZero(k.location, k.location);
    }
  }

  class Routers<P> {
    var indexByDomain: Index<P>

    ghost predicate Valid()
      reads this
    {
      WellFormed(indexByDomain)
    }

    ghost function Table(): imap<Key, P>
      reads this
    {
      TableOf(indexByDomain)
    }

    constructor ()
      ensures Valid() && Table() == imap[]
    {
      indexByDomain := map[];
    }

    method Exist(domain: string, location: string, user: string) returns (exist: bool)
      requires Valid()
      ensures exist <==> Key(domain, user, location) in Table()
    {
      var routes := BucketOf(indexByDomain, domain, user);
      for i := 0 to |routes|
        invariant forall j :: 0 <= j < i ==> routes[j].location != location
      {
        if routes[i].location == location {
          assert HitAt(routes, location, i);
          return true;
        }
      }
      return false;
    }

    method Add(domain: string, location: string, user: string, payload: P) returns (ok: bool)
      requires Valid()
      modifies this
      ensures Valid()
      ensures ok <==> Key(ToLower(domain), user, location) !in old(Table())
      ensures ok ==> Table() == old(Table())[Key(ToLower(domain), user, location) := payload]
      ensures !ok ==> indexByDomain == old(indexByDomain)
    {
      var d := ToLower(domain);
      var exist := Exist(d, location, user);
      if exist {
        return false;
      }
      var byUser := if d in indexByDomain then indexByDomain[d] else map[];
      var routes := if user in byUser then byUser[user] else [];
      var r := Route(d, location, user, payload);
      AddRefines(indexByDomain, r);
      var sorted := SortDescending(routes + [r]);
      ghost var before := indexByDomain;
      indexByDomain := indexByDomain[d := byUser[user := sorted]];
      assert indexByDomain == AfterAdd(before, r);
      return true;
    }

    method Del(domain: string, location: string, user: string)
      requires Valid()
      modifies this
      ensures Valid()
      ensures Table() == old(Table()) - {Key(ToLower(domain), user, location)}
    {
      var d := ToLower(domain);
      if d !in indexByDomain || user !in indexByDomain[d] {
        AbsentKey(indexByDomain, Key(d, user, location));
        return;
      }
      var routes := indexByDomain[d][user];
      var kept: Bucket<P> := [];
      for i := 0 to |routes|
        invariant kept == Without(routes[..i], location)
      {
        assert routes[..i + 1][..i] == routes[..i];
        if routes[i].location != location {
          kept := kept + [routes[i]];
        }
      }
      assert routes[..|routes|] == routes;
      DelRefines(indexByDomain, d, location, user);
      assert indexByDomain[d := indexByDomain[d][user := kept]] == AfterDel(indexByDomain, d, location, user);
      indexByDomain := indexByDomain[d := indexByDomain[d][user := kept]];
    }

    /** The first hit is the longest registered prefix of the path. */
    method Get(host: string, path: string, user: string) returns (r: Option<Route<P>>)
      requires Valid()
      ensures r.None? ==> forall l: string | l <= path :: Key(ToLower(host), user, l) !in Table()
      ensures r.Some? ==>
        var k := Key(r.value.domain, r.value.httpUser, r.value.location);
        && k.domain == ToLower(host) && k.user == user && k.location <= path
        && k in Table() && Table()[k] == r.value.payload
        && forall l: string | l <= path && Key(ToLower(host), user, l) in Table() ::
            l != k.location ==> |l| < |k.location|
    {
      var routes := BucketOf(indexByDomain, ToLower(host), user);
      for i := 0 to |routes|
        invariant forall j :: 0 <= j < i ==> !(routes[j].location <= path)
      {
        if routes[i].location <= path {
          assert HitAt(routes, routes[i].location, i);
          TableAt(indexByDomain, Key(ToLower(host), user, routes[i].location), i);
          assert routes[i] in indexByDomain[ToLower(host)][user];
          forall l: string | l <= path && Key(ToLower(host), user, l) in Table() && l != routes[i].location
            ensures |l| < |routes[i].location|
          {
            var j :| HitAt(routes, l, j);
            FirstHitIsLongest(routes, path, i, j);
          }
          return Some(routes[i]);
        }
      }
      return None;
    }
  }

  function Without<P>(bucket: Bucket<P>, location: string): Bucket<P> {
    if bucket == [] then []
    else
      var init, last := bucket[..|bucket| - 1], bucket[|bucket| - 1];
      if last.location != location then Without(init, location) + [last] else Without(init, location)
  }

  lemma {:induction false} WithoutHas<P>(bucket: Bucket<P>, location: string, r: Route<P>)
    ensures r in Without(bucket, location) <==> r in bucket && r.location != location
  {
    if bucket != [] {
      WithoutHas(bucket[..|bucket| - 1], location, r);
      assert bucket == bucket[..|bucket| - 1] + [bucket[|bucket| - 1]];
    }
  }

  lemma {:induction false} WithoutKeepsOrder<P>(bucket: Bucket<P>, location: string)
    requires Descending(bucket)
    ensures Descending(Without(bucket, location))
  {
    if bucket != [] {
      var init, last := bucket[..|bucket| - 1], bucket[|bucket| - 1];
      WithoutKeepsOrder(init, location);
      forall r | r in Without(init, location)
        ensures Compare(last.location, r.location) < 0
      {
        WithoutHas(init, location, r);
      }
    }
  }

  lemma AbsentKey<P>(index: Index<P>, k: Key)
    requires BucketOf(index, k.domain, k.user) == []
    ensures TableOf(index) == TableOf(index) - {k}
  {
    assert k !in TableOf(index);
  }

  lemma InBucket<P>(index: Index<P>, k: Key, r: Route<P>)
    requires WellFormed(index)
    requires r in BucketOf(index, k.domain, k.user) && r.location == k.location
    ensures k in TableOf(index) && TableOf(index)[k] == r.payload
  {
    var bucket := BucketOf(index, k.domain, k.user);
    var i :| 0 <= i < |bucket| && bucket[i] == r;
    assert HitAt(bucket, k.location, i);
    TableAt(index, k, i);
  }

  lemma OutOfBucket<P>(index: Index<P>, k: Key) returns (r: Route<P>)
    requires k in TableOf(index)
    ensures r in BucketOf(index, k.domain, k.user) && r.location == k.location
  {
    var bucket := BucketOf(index, k.domain, k.user);
    var i :| HitAt(bucket, k.location, i);
    r := bucket[i];
  }

  /** Adding a route with a new key: the bucket it goes to. */
  lemma SortedBucket<P>(bucket: Bucket<P>, r: Route<P>)
    requires Proper(bucket, r.domain, r.httpUser)
    requires forall x :: x in bucket ==> x.location != r.location
    ensures Proper(SortDescending(bucket + [r]), r.domain, r.httpUser)
  {
    DistinctInOrder(bucket);
    SortIsDescending(bucket + [r]);
    forall x | x in SortDescending(bucket + [r])
      ensures x.domain == r.domain && x.httpUser == r.httpUser
    {
      InMultiset(SortDescending(bucket + [r]), bucket + [r], x);
    }
  }

  lemma DistinctInOrder<P>(bucket: Bucket<P>)
    requires Descending(bucket)
    ensures DistinctLocations(bucket)
  {
    forall i, j | 0 <= i < j < |bucket| ensures bucket[i].location != bucket[j].location {
      CompareZero(bucket[i].location, bucket[j].location);
    }
  }

  ghost predicate Agree<P>(a: imap<Key, P>, b: imap<Key, P>, k: Key) {
    (k in a <==> k in b) && (k in a ==> a[k] == b[k])
  }

  lemma SameTable<P>(a: imap<Key, P>, b: imap<Key, P>)
    requires forall k :: Agree(a, b, k)
    ensures a == b
  {
    forall k ensures (k in a <==> k in b) && (k in a ==> a[k] == b[k]) {
      assert Agree(a, b, k);
    }
  }

  function AfterAdd<P>(index: Index<P>, r: Route<P>): Index<P> {
    Put(index, r.domain, r.httpUser, SortDescending(BucketOf(index, r.domain, r.httpUser) + [r]))
  }

  lemma AddKeepsWellFormed<P>(before: Index<P>, r: Route<P>)
    requires WellFormed(before) && ToLower(r.domain) == r.domain
    requires Key(r.domain, r.httpUser, r.location) !in TableOf(before)
    ensures WellFormed(AfterAdd(before, r))
  {
    var bucket := BucketOf(before, r.domain, r.httpUser);
    assert Proper(bucket, r.domain, r.httpUser);
    forall x | x in bucket ensures x.location != r.location {
      if x.location == r.location {
        InBucket(before, Key(r.domain, r.httpUser, r.location), x);
      }
    }
    SortedBucket(bucket, r);
  }

  lemma AddAt<P>(before: Index<P>, r: Route<P>, k: Key)
    requires WellFormed(before) && WellFormed(AfterAdd(before, r))
    requires Key(r.domain, r.httpUser, r.location) !in TableOf(before)
    ensures
      var key, after := Key(r.domain, r.httpUser, r.location), AfterAdd(before, r);
      && (k in TableOf(after) <==> k in TableOf(before) || k == key)
      && (k in TableOf(after) ==> TableOf(after)[k] == if k == key then r.payload else TableOf(before)[k])
  {
    var key, after := Key(r.domain, r.httpUser, r.location), AfterAdd(before, r);
    var bucket := BucketOf(before, r.domain, r.httpUser);
    if k == key {
      InMultiset(SortDescending(bucket + [r]), bucket + [r], r);
      InBucket(after, k, r);
    } else if k in TableOf(before) {
      var x := OutOfBucket(before, k);
      InMultiset(SortDescending(bucket + [r]), bucket + [r], x);
      InBucket(before, k, x);
      InBucket(after, k, x);
    } else if k in TableOf(after) {
      var x := OutOfBucket(after, k);
      InMultiset(SortDescending(bucket + [r]), bucket + [r], x);
      InBucket(before, k, x);
    }
  }

  /** Adding a route with a new key adds exactly that key to the table. */
  lemma AddRefines<P>(before: Index<P>, r: Route<P>)
    requires WellFormed(before) && ToLower(r.domain) == r.domain
    requires Key(r.domain, r.httpUser, r.location) !in TableOf(before)
    ensures WellFormed(AfterAdd(before, r))
    ensures TableOf(AfterAdd(before, r)) == TableOf(before)[Key(r.domain, r.httpUser, r.location) := r.payload]
  {
    AddKeepsWellFormed(before, r);
    var table, added := TableOf(before), TableOf(AfterAdd(before, r));
    var key := Key(r.domain, r.httpUser, r.location);
    var expected := table[key := r.payload];
    forall k: Key ensures Agree(added, expected, k) {
      AddAt(before, r, k);
    }
    SameTable(added, expected);
  }

  function AfterDel<P>(index: Index<P>, domain: string, location: string, user: string): Index<P> {
    Put(index, domain, user, Without(BucketOf(index, domain, user), location))
  }

  lemma DelKeepsWellFormed<P>(before: Index<P>, domain: string, location: string, user: string)
    requires WellFormed(before) && ToLower(domain) == domain
    ensures WellFormed(AfterDel(before, domain, location, user))
  {
    var bucket := BucketOf(before, domain, user);
    assert Proper(bucket, domain, user);
    WithoutKeepsOrder(bucket, location);
    forall r | r in Without(bucket, location) ensures r in bucket {
      WithoutHas(bucket, location, r);
    }
  }

  lemma DelAt<P>(before: Index<P>, domain: string, location: string, user: string, k: Key)
    requires WellFormed(before) && WellFormed(AfterDel(before, domain, location, user))
    ensures
      var after := AfterDel(before, domain, location, user);
      && (k in TableOf(after) <==> k in TableOf(before) && k != Key(domain, user, location))
      && (k in TableOf(after) ==> TableOf(after)[k] == TableOf(before)[k])
  {
    var after := AfterDel(before, domain, location, user);
    if k in TableOf(after) {
      var x := OutOfBucket(after, k);
      WithoutHas(BucketOf(before, domain, user), location, x);
      InBucket(after, k, x);
      InBucket(before, k, x);
    } else if k in TableOf(before) {
      var x := OutOfBucket(before, k);
      WithoutHas(BucketOf(before, domain, user), location, x);
      if k != Key(domain, user, location) {
        InBucket(after, k, x);
      }
    }
  }

  /** Deleting a route removes exactly its key from the table. */
  lemma DelRefines<P>(before: Index<P>, domain: string, location: string, user: string)
    requires WellFormed(before) && ToLower(domain) == domain
    ensures WellFormed(AfterDel(before, domain, location, user))
    ensures TableOf(AfterDel(before, domain, location, user)) == TableOf(before) - {Key(domain, user, location)}
  {
    DelKeepsWellFormed(before, domain, location, user);
    var table, left := TableOf(before), TableOf(AfterDel(before, domain, location, user));
    var expected := table - {Key(domain, user, location)};
    forall k: Key ensures Agree(left, expected, k) {
      DelAt(before, domain, location, user, k);
    }
    SameTable(left, expected);
  }

  // ---- runs ----

  datatype Op<P> = Adding(domain: string, location: string, user: string, payload: P)
                 | Deleting(domain: string, location: string, user: string)

  ghost function Effect<P>(table: imap<Key, P>, op: Op<P>): imap<Key, P> {
    var key := Key(ToLower(op.domain), op.user, op.location);
    match op
    case Adding(_, _, _, payload) => if key in table then table else table[key := payload]
    case Deleting(_, _, _) => table - {key}
  }

  ghost function Effects<P>(table: imap<Key, P>, ops: seq<Op<P>>): imap<Key, P> {
    if ops == [] then table else Effect(Effects(table, ops[..|ops| - 1]), ops[|ops| - 1])
  }

  /** After any sequence of operations the index stands for the table that the
      operations build one key at a time. */
  method Replay<P>(r: Routers<P>, ops: seq<Op<P>>)
    requires r.Valid()
    modifies r
    ensures r.Valid() && r.Table() == Effects(old(r.Table()), ops)
  {
    for i := 0 to |ops|
      invariant r.Valid() && r.Table() == Effects(old(r.Table()), ops[..i])
    {
      assert ops[..i + 1][..i] == ops[..i];
      match ops[i]
      case Adding(domain, location, user, payload) =>
        var _ := r.Add(domain, location, user, payload);
      case Deleting(domain, location, user) =>
        r.Del(domain, location, user);
    }
    assert ops[..|ops|] == ops;
  }

  // ---- upper and lower case ----

  /** Hosts that differ in ASCII case only get the same route. */
  method GetIgnoresCase<P>(r: Routers<P>, a: string, b: string, path: string, user: string)
    returns (x: Option<Route<P>>, y: Option<Route<P>>)
    requires r.Valid() && SameButCase(a, b)
    ensures x == y
  {
    SameLowerIff(a, b);
    x := r.Get(a, path, user);
    y := r.Get(b, path, user);
  }

  /** A route under one spelling of the domain refuses the same one under another spelling,
      and deleting it under a third one makes room again. */
  method AddIgnoresCase<P>(r: Routers<P>, a: string, b: string, c: string, location: string, user: string, x: P, y: P)
    returns (first: bool, second: bool, again: bool)
    requires r.Valid() && SameButCase(a, b) && SameButCase(a, c)
    modifies r
    ensures !second && again && r.Valid()
  {
    SameLowerIff(a, b);
    SameLowerIff(a, c);
    first := r.Add(a, location, user, x);
    second := r.Add(b, location, user, y);
    r.Del(c, location, user);
    again := r.Add(b, location, user, y);
  }
}
