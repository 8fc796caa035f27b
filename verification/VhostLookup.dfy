/** Which route serves a request: exact host, then wildcard hosts, then "*", each with
    the requested HTTP user before the empty user, and the longest location last. */
module VhostLookup {
  import opened Base
  import opened Text
  import opened VhostRouter

  datatype Request = Request(host: string, path: string, user: string)

  /** "*" followed by a suffix of the host that starts at a dot and holds another one:
      at least two labels must stay after the star. */
  ghost predicate WildcardAt(d: string, host: string, i: int) {
    0 <= i < |host| && host[i] == '.' && '.' in host[i + 1..] && d == "*" + host[i..]
  }

  ghost predicate Covers(d: string, host: string) {
    d == host || d == "*" || exists i :: WildcardAt(d, host, i)
  }

  ghost predicate Serves(k: Key, path: string, user: string) {
    (k.user == user || k.user == "") && k.location <= path
  }

  ghost predicate Matches(k: Key, q: Request) {
    Covers(k.domain, q.host) && Serves(k, q.path, q.user)
  }

  ghost function DomainRank(d: string, host: string): nat {
    if d == host then |host| + 2 else if d == "*" then 0 else |d|
  }

  ghost function UserRank(k: Key, user: string): nat {
    if k.user == user then 1 else 0
  }

  /** More specific: a better domain, then the exact user, then a longer location. */
  ghost predicate Beats(a: Key, b: Key, q: Request) {
    var da, db := DomainRank(a.domain, q.host), DomainRank(b.domain, q.host);
    var ua, ub := UserRank(a, q.user), UserRank(b, q.user);
    da > db || (da == db && (ua > ub || (ua == ub && |a.location| > |b.location|)))
  }

  ghost predicate MostSpecific<P>(table: imap<Key, P>, q: Request, k: Key) {
    && k in table && Matches(k, q)
    && forall other :: other in table && Matches(other, q) && other != k ==> Beats(k, other, q)
  }

  ghost predicate Unserved<P>(table: imap<Key, P>, d: string, path: string, user: string) {
    forall k :: k in table && k.domain == d ==> !Serves(k, path, user)
  }

  /** Best among the routes of one domain. */
  ghost predicate BestOfDomain<P>(table: imap<Key, P>, path: string, user: string, k: Key) {
    && k in table && Serves(k, path, user)
    && forall other :: other in table && other.domain == k.domain && Serves(other, path, user) && other != k ==>
        UserRank(k, user) > UserRank(other, user)
        || (UserRank(k, user) == UserRank(other, user) && |k.location| > |other.location|)
  }

  /** The whole answer of a lookup: nothing exactly when no route matches, otherwise
      the most specific route with its payload. */
  ghost predicate Answers<P>(table: imap<Key, P>, q: Request, r: Option<Route<P>>) {
    match r
    case None => forall k :: k in table ==> !Matches(k, q)
    case Some(route) => MostSpecific(table, q, KeyOf(route)) && table[KeyOf(route)] == route.payload
  }

  /** The answer for one domain. */
  ghost predicate AnswersDomain<P>(table: imap<Key, P>, d: string, path: string, user: string, r: Option<Route<P>>) {
    match r
    case None => Unserved(table, d, path, user)
    case Some(route) =>
      route.domain == d && BestOfDomain(table, path, user, KeyOf(route)) && table[KeyOf(route)] == route.payload
  }

  function KeyOf<P>(r: Route<P>): Key {
    Key(r.domain, r.httpUser, r.location)
  }

  /** At most one route is the most specific one. */
  lemma MostSpecificIsUnique<P>(table: imap<Key, P>, q: Request, a: Key, b: Key)
    requires MostSpecific(table, q, a) && MostSpecific(table, q, b)
    ensures a == b
  {
    assert a != b ==> Beats(a, b, q) && Beats(b, a, q);
  }

  /** Two covering domains of equal rank are the same domain. */
  lemma RankIsInjective(a: string, b: string, host: string)
    requires Covers(a, host) && Covers(b, host)
    requires DomainRank(a, host) == DomainRank(b, host)
    ensures a == b
  {
    if a != host && a != "*" {
      var i :| WildcardAt(a, host, i);
      if b != host && b != "*" {
        var j :| WildcardAt(b, host, j);
        assert |a| == 1 + |host| - i && |b| == 1 + |host| - j;
      }
    }
  }

  ghost predicate HigherRanksUnserved<P>(table: imap<Key, P>, q: Request, d: string) {
    forall e :: Covers(e, q.host) && DomainRank(e, q.host) > DomainRank(d, q.host) ==>
      Unserved(table, e, q.path, q.user)
  }

  /** If every domain of higher rank serves nothing, the best route of a covering
      domain is the most specific route. */
  lemma BestIsMostSpecific<P>(table: imap<Key, P>, q: Request, d: string, r: Option<Route<P>>)
    requires r.Some? && AnswersDomain(table, d, q.path, q.user, r)
    requires Covers(d, q.host) && HigherRanksUnserved(table, q, d)
    ensures Answers(table, q, r)
  {
    var k := KeyOf(r.value);
    forall other | other in table && Matches(other, q) && other != k
      ensures Beats(k, other, q)
    {
      if DomainRank(other.domain, q.host) == DomainRank(k.domain, q.host) {
        RankIsInjective(other.domain, k.domain, q.host);
      }
    }
  }

  // ---- the label walk ----

  ghost predicate Labels(labels: seq<string>, text: string) {
    && |labels| >= 1
    && (forall i :: 0 <= i < |labels| ==> '.' !in labels[i])
    && Join(labels, '.') == text
  }

  /** One turn of the wildcard loop: the star replaces the first label. */
  lemma StarStep(labels: seq<string>, text: string)
    requires Labels(labels, text) && |labels| >= 2
    ensures |labels[0]| < |text| && text[|labels[0]|] == '.'
    ensures '.' !in text[..|labels[0]|]
    ensures Join(labels[0 := "*"], '.') == "*" + text[|labels[0]|..]
    ensures Labels(labels[1..], text[|labels[0]| + 1..])
    ensures |labels| >= 3 <==> '.' in text[|labels[0]| + 1..]
  {
    var n := |labels[0]|;
    var rest := Join(labels[1..], '.');
    assert text == labels[0] + ['.'] + rest;
    assert text[n..] == ['.'] + rest;
    assert text[n + 1..] == rest;
    assert labels[0 := "*"][1..] == labels[1..];
    if |labels| >= 3 {
      assert rest == labels[1] + ['.'] + Join(labels[1..][1..], '.');
    }
  }

  lemma LowerSuffix(text: string, i: nat)
    requires i < |text|
    ensures ToLower("*" + text[i..]) == "*" + ToLower(text)[i..]
    ensures text[i] == '.' <==> ToLower(text)[i] == '.'
  {
  }

  ghost predicate DeadBefore<P>(table: imap<Key, P>, q: Request, pos: int) {
    && Unserved(table, q.host, q.path, q.user)
    && forall d, i :: i < pos && WildcardAt(d, q.host, i) ==> Unserved(table, d, q.path, q.user)
  }

  /** The domain tried at position i outranks everything not yet tried. */
  lemma HigherRanksAreDead<P>(table: imap<Key, P>, q: Request, d: string, i: int)
    requires DeadBefore(table, q, i) && WildcardAt(d, q.host, i)
    ensures HigherRanksUnserved(table, q, d)
  {
    forall e | Covers(e, q.host) && DomainRank(e, q.host) > DomainRank(d, q.host)
      ensures Unserved(table, e, q.path, q.user)
    {
      if e != q.host && e != "*" {
        var j :| WildcardAt(e, q.host, j);
        assert |e| == 1 + |q.host| - j && |d| == 1 + |q.host| - i;
      }
    }
  }

  /** Skipping the characters of the first label skips no dot. */
  lemma SkipLabel<P>(table: imap<Key, P>, q: Request, pos: nat, i: nat)
    requires DeadBefore(table, q, pos) && pos <= i <= |q.host|
    requires '.' !in q.host[pos..i]
    ensures DeadBefore(table, q, i)
  {
    assert forall m :: pos <= m < i ==> q.host[pos..i][m - pos] == q.host[m];
    assert forall m :: pos <= m < i ==> q.host[m] != '.';
  }

  lemma FewLabelsFewDots(labels: seq<string>, text: string, j: nat, k: nat)
    requires Labels(labels, text) && |labels| < 3 && j < k < |text|
    ensures text[j] != '.' || text[k] != '.'
  {
    if |labels| == 2 {
      StarStep(labels, text);
      var n := |labels[0]|;
      if k > n {
        assert text[k] == text[n + 1..][k - n - 1];
      } else {
        assert text[j] == text[..n][j];
      }
    }
  }

  lemma SecondDot(d: string, host: string, j: int) returns (k: int)
    requires WildcardAt(d, host, j)
    ensures 0 <= j < k < |host| && host[j] == host[k] == '.'
  {
    var m :| 0 <= m < |host[j + 1..]| && host[j + 1..][m] == '.';
    k := j + 1 + m;
  }

  lemma TwoDotsThreeLabels(labels: seq<string>, text: string, j: nat, k: nat)
    requires Labels(labels, text) && labels != [] && j < k < |text| && text[j] == text[k] == '.'
    ensures |labels| >= 3
  {
    if |labels| < 3 {
      FewLabelsFewDots(labels, text, j, k);
    }
  }

  /** A wildcard can cover a host only from three labels on: "*.com" never serves
      "example.com". */
  lemma WildcardNeedsThreeLabels(host: string)
    ensures |Split(host, '.')| >= 3 <==> exists d, i :: WildcardAt(d, host, i)
  {
    var labels := Split(host, '.');
    JoinSplit(host, '.');
    assert host[0..] == host;
    if |labels| >= 3 {
      StarStepAt(labels, host, 0);
      assert WildcardAt("*" + host[|labels[0]|..], host, |labels[0]|);
    }
    if d, j :| WildcardAt(d, host, j) {
      var k := SecondDot(d, host, j);
      TwoDotsThreeLabels(labels, host, j, k);
    }
  }

  /** Which wildcards of a host are honoured: the one whose suffix starts at a dot covers
      the host exactly when another dot follows, or when it is the host itself. */
  lemma WildcardCoversIff(host: string, i: nat)
    requires i < |host| && host[i] == '.'
    ensures Covers("*" + host[i..], host) <==> '.' in host[i + 1..] || "*" + host[i..] == host
  {
    var d := "*" + host[i..];
    if '.' in host[i + 1..] {
      assert WildcardAt(d, host, i);
    }
    if j :| WildcardAt(d, host, j) {
      assert |d| == 1 + |host| - i == 1 + |host| - j;
    }
  }

  const THREE_LABELS := "test.example.com"

  lemma TopLevelWildcardCoversNot()
    ensures !Covers("*.com", THREE_LABELS)
  {
    assert |THREE_LABELS| == 16 && THREE_LABELS[12..] == ".com";
    assert '.' !in THREE_LABELS[13..];
    WildcardCoversIff(THREE_LABELS, 12);
    assert "*" + THREE_LABELS[12..] == "*.com";
  }

  /** With three labels, too: "*.com" alone leaves "test.example.com" unanswered. */
  lemma TopLevelWildcardIsSkipped<P>(k: Key, payload: P, path: string, user: string, r: Option<Route<P>>)
    requires k.domain == "*.com" && Answers(imap[k := payload], Request(THREE_LABELS, path, user), r)
    ensures r.None?
  {
    TopLevelWildcardCoversNot();
  }

  /** With fewer than three labels left no wildcard is left to try. */
  lemma WalkIsComplete<P>(table: imap<Key, P>, q: Request, labels: seq<string>, raw: string, pos: nat)
    requires q.host == ToLower(raw) && pos <= |raw|
    requires Labels(labels, raw[pos..]) && |labels| < 3
    requires DeadBefore(table, q, pos)
    ensures DeadBefore(table, q, |q.host|)
  {
    forall d, j | WildcardAt(d, q.host, j) ensures j < pos {
      var k := SecondDot(d, q.host, j);
      if j >= pos {
        FewLabelsFewDots(labels, raw[pos..], j - pos, k - pos);
      }
    }
  }

  /** A turn of the loop in terms of positions in the raw text. */
  lemma StarStepAt(labels: seq<string>, raw: string, pos: nat)
    requires pos <= |raw| && Labels(labels, raw[pos..]) && |labels| >= 3
    ensures
      var i := pos + |labels[0]|;
      && i < |raw| && raw[i] == '.' && '.' in raw[i + 1..]
      && '.' !in raw[pos..i]
      && Join(labels[0 := "*"], '.') == "*" + raw[i..]
      && Labels(labels[1..], raw[i + 1..])
  {
    var n := |labels[0]|;
    StarStep(labels, raw[pos..]);
    assert raw[pos..][n..] == raw[pos + n..];
    assert raw[pos..][n + 1..] == raw[pos + n + 1..];
    assert raw[pos..][..n] == raw[pos..pos + n];
  }

  lemma LowerDots(raw: string, lo: nat, hi: nat)
    requires lo <= hi <= |raw|
    ensures '.' in raw[lo..hi] <==> '.' in ToLower(raw)[lo..hi]
  {
    forall k | lo <= k < hi ensures raw[k] == raw[lo..hi][k - lo] && ToLower(raw)[k] == ToLower(raw)[lo..hi][k - lo] {
    }
    if '.' in raw[lo..hi] {
      var k :| 0 <= k < hi - lo && raw[lo..hi][k] == '.';
      assert ToLower(raw)[lo..hi][k] == '.';
    }
    if '.' in ToLower(raw)[lo..hi] {
      var k :| 0 <= k < hi - lo && ToLower(raw)[lo..hi][k] == '.';
      assert raw[lo..hi][k] == '.';
    }
  }

  ghost predicate Walking<P>(table: imap<Key, P>, q: Request, labels: seq<string>, raw: string, pos: int) {
    && 0 <= pos <= |raw| && q.host == ToLower(raw)
    && Labels(labels, raw[pos..])
    && DeadBefore(table, q, pos)
  }

  lemma TriedDomain<P>(table: imap<Key, P>, q: Request, labels: seq<string>, raw: string, pos: nat)
    requires Walking(table, q, labels, raw, pos) && |labels| >= 3
    ensures WildcardAt(ToLower(Join(labels[0 := "*"], '.')), q.host, pos + |labels[0]|)
    ensures DeadBefore(table, q, pos + |labels[0]|)
  {
    var i := pos + |labels[0]|;
    StarStepAt(labels, raw, pos);
    LowerSuffix(raw, i);
    LowerDots(raw, i + 1, |raw|);
    LowerDots(raw, pos, i);
    SkipLabel(table, q, pos, i);
  }

  /** A turn of the loop either answers the request or moves on to the next label. */
  lemma NextTry<P>(table: imap<Key, P>, q: Request, labels: seq<string>, raw: string, pos: nat, name: string,
                r: Option<Route<P>>)
    requires Walking(table, q, labels, raw, pos) && |labels| >= 3
    requires name == Join(labels[0 := "*"], '.')
    requires AnswersDomain(table, ToLower(name), q.path, q.user, r)
    ensures r.Some? ==> Answers(table, q, r)
    ensures r.None? ==> Walking(table, q, labels[1..], raw, pos + |labels[0]| + 1)
  {
    var i := pos + |labels[0]|;
    TriedDomain(table, q, labels, raw, pos);
    if r.Some? {
      HigherRanksAreDead(table, q, ToLower(name), i);
      BestIsMostSpecific(table, q, ToLower(name), r);
    } else {
      StarStepAt(labels, raw, pos);
      NextPosition(table, q, ToLower(name), i);
    }
  }

  lemma NextPosition<P>(table: imap<Key, P>, q: Request, d: string, i: int)
    requires DeadBefore(table, q, i) && WildcardAt(d, q.host, i)
    requires Unserved(table, d, q.path, q.user)
    ensures DeadBefore(table, q, i + 1)
  {
  }

  /** The first try: the host itself. */
  lemma FirstTry<P>(table: imap<Key, P>, q: Request, raw: string, r: Option<Route<P>>)
    requires q.host == ToLower(raw) && AnswersDomain(table, q.host, q.path, q.user, r)
    ensures r.Some? ==> Answers(table, q, r)
    ensures r.None? ==> Walking(table, q, Split(raw, '.'), raw, 0)
  {
    if r.Some? {
      BestIsMostSpecific(table, q, q.host, r);
    } else {
      JoinSplit(raw, '.');
      assert raw[0..] == raw;
    }
  }

  lemma DeadCovers<P>(table: imap<Key, P>, q: Request, d: string)
    requires DeadBefore(table, q, |q.host|) && Covers(d, q.host) && d != "*"
    ensures Unserved(table, d, q.path, q.user)
  {
    if d != q.host {
      var i :| WildcardAt(d, q.host, i);
    }
  }

  /** The last try: with all other domains dead, "*" decides. */
  lemma StarDecides<P>(table: imap<Key, P>, q: Request, labels: seq<string>, raw: string, pos: nat,
                       r: Option<Route<P>>)
    requires Walking(table, q, labels, raw, pos) && |labels| < 3
    requires AnswersDomain(table, "*", q.path, q.user, r)
    ensures Answers(table, q, r)
  {
    WalkIsComplete(table, q, labels, raw, pos);
    forall e | Covers(e, q.host) && e != "*" ensures Unserved(table, e, q.path, q.user) {
      DeadCovers(table, q, e);
    }
    if r.Some? {
      BestIsMostSpecific(table, q, "*", r);
    }
  }

  /** The inner closure of both lookups: the requested user, then the empty user. */
  method FindRouter<P>(routers: Routers<P>, domain: string, path: string, user: string)
    returns (r: Option<Route<P>>)
    requires routers.Valid()
    ensures AnswersDomain(routers.Table(), ToLower(domain), path, user, r)
  {
    r := routers.Get(domain, path, user);
    if r.Some? {
      assert Serves(KeyOf(r.value), path, user);
      return;
    }
    r := routers.Get(domain, path, "");
    if r.Some? {
      assert Serves(KeyOf(r.value), path, user);
    }
  }

  class HTTPReverseProxy<P> {
    const vhostRouter: Routers<P>

    constructor (routers: Routers<P>)
      ensures vhostRouter == routers
    {
      vhostRouter := routers;
    }

    method Register(domain: string, location: string, user: string, payload: P) returns (ok: bool)
      requires vhostRouter.Valid()
      modifies vhostRouter
      ensures vhostRouter.Valid()
      ensures ok <==> Key(ToLower(domain), user, location) !in old(vhostRouter.Table())
      ensures vhostRouter.Table() ==
        if ok then old(vhostRouter.Table())[Key(ToLower(domain), user, location) := payload]
        else old(vhostRouter.Table())
    {
      ok := vhostRouter.Add(domain, location, user, payload);
    }

    method UnRegister(domain: string, location: string, user: string)
      requires vhostRouter.Valid()
      modifies vhostRouter
      ensures vhostRouter.Valid()
      ensures vhostRouter.Table() == old(vhostRouter.Table()) - {Key(ToLower(domain), user, location)}
    {
      vhostRouter.Del(domain, location, user);
    }

    /** A route is found if and only if some registered route matches, and it is the
        most specific one. */
    method GetVhost(domain: string, location: string, user: string) returns (r: Option<Route<P>>)
      requires vhostRouter.Valid()
      ensures Answers(vhostRouter.Table(), Request(ToLower(domain), location, user), r)
    {
      ghost var q := Request(ToLower(domain), location, user);
      ghost var table := vhostRouter.Table();
      r := FindRouter(vhostRouter, domain, location, user);
      FirstTry(table, q, domain, r);
      if r.Some? {
        return;
      }
      var domainSplit := Split(domain, '.');
      ghost var pos := 0;
      while |domainSplit| >= 3
        invariant Walking(table, q, domainSplit, domain, pos)
        decreases |domainSplit|
      {
        var name := Join(domainSplit[0 := "*"], '.');
        r := FindRouter(vhostRouter, name, location, user);
        NextTry(table, q, domainSplit, domain, pos, name, r);
        if r.Some? {
          return;
        }
        pos := pos + |domainSplit[0]| + 1;
        domainSplit := domainSplit[1..];
      }
      r := FindRouter(vhostRouter, "*", location, user);
      assert ToLower("*") == "*";
      StarDecides(table, q, domainSplit, domain, pos, r);
    }
  }

  class Listener {
    const name: string
    const location: string
    const routeByHTTPUser: string

    constructor (name: string, location: string, user: string)
      ensures this.name == name && this.location == location && this.routeByHTTPUser == user
    {
      this.name, this.location, this.routeByHTTPUser := name, location, user;
    }
  }

  /** The second user of the index: listeners of the https and tcpmux proxies. */
  class Muxer {
    const registryRouter: Routers<Listener>

    constructor (routers: Routers<Listener>)
      ensures registryRouter == routers
    {
      registryRouter := routers;
    }

    method Listen(domain: string, location: string, user: string) returns (l: Listener, ok: bool)
      requires registryRouter.Valid()
      modifies registryRouter
      ensures registryRouter.Valid() && fresh(l)
      ensures l.name == domain && l.location == location && l.routeByHTTPUser == user
      ensures ok <==> Key(ToLower(domain), user, location) !in old(registryRouter.Table())
      ensures registryRouter.Table() ==
        if ok then old(registryRouter.Table())[Key(ToLower(domain), user, location) := l]
        else old(registryRouter.Table())
    {
      l := new Listener(domain, location, user);
      ok := registryRouter.Add(domain, location, user, l);
    }

    /** Closing a listener withdraws the one route it was registered under. */
    method CloseListener(l: Listener)
      requires registryRouter.Valid()
      modifies registryRouter
      ensures registryRouter.Valid()
      ensures registryRouter.Table() ==
        old(registryRouter.Table()) - {Key(ToLower(l.name), l.routeByHTTPUser, l.location)}
    {
      registryRouter.Del(l.name, l.location, l.routeByHTTPUser);
    }

    /** The copy of the lookup in the muxer answers by the same specification. */
    method GetListener(name: string, path: string, httpUser: string) returns (l: Option<Listener>)
      requires registryRouter.Valid()
      ensures l.None? ==> Answers(registryRouter.Table(), Request(ToLower(name), path, httpUser), None)
      ensures l.Some? ==> exists k ::
        MostSpecific(registryRouter.Table(), Request(ToLower(name), path, httpUser), k)
        && registryRouter.Table()[k] == l.value
    {
      ghost var q := Request(ToLower(name), path, httpUser);
      ghost var table := registryRouter.Table();
      var r := FindRouter(registryRouter, name, path, httpUser);
      FirstTry(table, q, name, r);
      if r.Some? {
        return Some(r.value.payload);
      }
      var domainSplit := Split(name, '.');
      ghost var pos := 0;
      while |domainSplit| >= 3
        invariant Walking(table, q, domainSplit, name, pos)
        decreases |domainSplit|
      {
        var wildcard := Join(domainSplit[0 := "*"], '.');
        r := FindRouter(registryRouter, wildcard, path, httpUser);
        NextTry(table, q, domainSplit, name, pos, wildcard, r);
        if r.Some? {
          return Some(r.value.payload);
        }
        pos := pos + |domainSplit[0]| + 1;
        domainSplit := domainSplit[1..];
      }
      r := FindRouter(registryRouter, "*", path, httpUser);
      assert ToLower("*") == "*";
      StarDecides(table, q, domainSplit, name, pos, r);
      return if r.Some? then Some(r.value.payload) else None;
    }
  }

  // ---- upper and lower case ----

  lemma OneAnswer<P>(table: imap<Key, P>, q: Request, x: Option<Route<P>>, y: Option<Route<P>>)
    requires Answers(table, q, x) && Answers(table, q, y)
    ensures x == y
  {
    if x.Some? && y.Some? {
      MostSpecificIsUnique(table, q, KeyOf(x.value), KeyOf(y.value));
    }
  }

  /** Both lookups answer hosts that differ in ASCII case only alike. */
  method GetVhostIgnoresCase<P>(p: HTTPReverseProxy<P>, a: string, b: string, location: string, user: string)
    returns (x: Option<Route<P>>, y: Option<Route<P>>)
    requires p.vhostRouter.Valid() && SameButCase(a, b)
    ensures x == y
  {
    SameLowerIff(a, b);
    x := p.GetVhost(a, location, user);
    y := p.GetVhost(b, location, user);
    OneAnswer(p.vhostRouter.Table(), Request(ToLower(a), location, user), x, y);
  }

  method GetListenerIgnoresCase(m: Muxer, a: string, b: string, path: string, httpUser: string)
    returns (x: Option<Listener>, y: Option<Listener>)
    requires m.registryRouter.Valid() && SameButCase(a, b)
    ensures x == y
  {
    SameLowerIff(a, b);
    x := m.GetListener(a, path, httpUser);
    y := m.GetListener(b, path, httpUser);
    ghost var (table, q) := (m.registryRouter.Table(), Request(ToLower(a), path, httpUser));
    if x.Some? && y.Some? {
      ghost var k :| MostSpecific(table, q, k) && table[k] == x.value;
      ghost var l :| MostSpecific(table, q, l) && table[l] == y.value;
      MostSpecificIsUnique(table, q, k, l);
    }
  }
}
