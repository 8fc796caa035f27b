/** Values, lists and the arithmetic of going round, as used across the models. */
module Base {
  datatype Option<+T> = None | Some(value: T)

  function Min(a: int, b: int): int {
    if a <= b then a else b
  }

  function Max(a: int, b: int): int {
    if a >= b then a else b
  }

  // ---- lists without duplicates ----

  ghost predicate Distinct<T>(s: seq<T>) {
    forall i, j :: 0 <= i < j < |s| ==> s[i] != s[j]
  }

  function RemoveFirst<T(==)>(s: seq<T>, x: T): (r: seq<T>)
    ensures forall m :: m in r ==> m in s
  {
    if s == [] then [] else if s[0] == x then s[1..] else [s[0]] + RemoveFirst(s[1..], x)
  }

  lemma {:induction false} RemoveFirstHas<T>(s: seq<T>, x: T)
    requires Distinct(s)
    ensures Distinct(RemoveFirst(s, x))
    ensures forall m :: m in RemoveFirst(s, x) <==> m in s && m != x
  {
    if s != [] {
      RemoveFirstHas(s[1..], x);
      if s[0] != x {
        PrependDistinct(s[0], RemoveFirst(s[1..], x));
      }
    }
  }

  lemma PrependDistinct<T>(x: T, s: seq<T>)
    requires Distinct(s) && x !in s
    ensures Distinct([x] + s)
  {
  }

  lemma AppendDistinct<T>(s: seq<T>, x: T)
    requires Distinct(s) && x !in s
    ensures Distinct(s + [x])
  {
  }

  // ---- going round ----

  lemma MulAtLeast(k: int, n: nat)
    requires k >= 1
    ensures k * n >= n
  {
  }

  /** Quotient and remainder are unique. */
  lemma DivModUnique(i: nat, n: nat, q: nat, r: nat)
    requires n > 0 && i == q * n + r && r < n
    ensures i / n == q && i % n == r
  {
    var k := i / n - q;
    assert k * n == r - i % n;
    if k >= 1 {
      MulAtLeast(k, n);
    } else if k <= -1 {
      MulAtLeast(-k, n);
    }
  }

  /** The k in a window of n consecutive numbers that leaves the remainder t. */
  function Turn(start: nat, n: nat, t: nat): nat
    requires t < n
  {
    var r := start % n;
    if t >= r then start + (t - r) else start + (n + t - r)
  }

  /** Among n consecutive numbers each remainder occurs exactly once. */
  lemma OncePerRound(start: nat, n: nat, t: nat)
    requires t < n
    ensures start <= Turn(start, n, t) < start + n && Turn(start, n, t) % n == t
    ensures forall k :: start <= k < start + n && k % n == t ==> k == Turn(start, n, t)
  {
    forall k | start <= k < start + n ensures k % n == Wrapped(start % n, n, k - start) {
      OffsetWraps(start, n, k - start);
    }
  }

  lemma DistinctInRound(start: nat, n: nat, i: nat, j: nat)
    requires n > 0 && start <= i < j < start + n
    ensures i % n != j % n
  {
    OncePerRound(start, n, i % n);
  }

  function Wrapped(r: nat, n: nat, j: nat): int {
    if r + j < n then r + j else r + j - n
  }

  lemma NextRemainder(k: nat, n: nat)
    requires n > 0
    ensures (k + 1) % n == if k % n == n - 1 then 0 else k % n + 1
  {
    var q := k / n;
    if k % n == n - 1 {
      assert (q + 1) * n == q * n + n;
      DivModUnique(k + 1, n, q + 1, 0);
    } else {
      DivModUnique(k + 1, n, q, k % n + 1);
    }
  }

  lemma {:induction false} OffsetWraps(start: nat, n: nat, j: nat)
    requires j < n
    ensures (start + j) % n == Wrapped(start % n, n, j)
  {
    if j > 0 {
      OffsetWraps(start, n, j - 1);
      NextRemainder(start + j - 1, n);
    }
  }
}
