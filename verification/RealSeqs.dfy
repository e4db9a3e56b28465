/** Sorting, summation and extrema of sequences of reals: what the engines take
    from Python's `sorted`, `set`, `sum`, `min` and `max`. */
module RealSeqs {

  ghost predicate Sorted(s: seq<real>) {
    forall i, j :: 0 <= i < j < |s| ==> s[i] <= s[j]
  }

  ghost predicate StrictlyIncreasing(s: seq<real>) {
    forall i, j :: 0 <= i < j < |s| ==> s[i] < s[j]
  }

  function Abs(x: real): real { if x < 0.0 then -x else x }

  function Max(x: real, y: real): real { if x < y then y else x }

  function Min(x: real, y: real): real { if y < x then y else x }

  lemma Cancel(w: real, x: real, y: real)
    requires w != 0.0 && w * x == w * y
    ensures x == y
  {
    assert w * (x - y) == 0.0;
  }

  lemma ProductSign(x: real, y: real)
    ensures x >= 0.0 && y >= 0.0 ==> x * y >= 0.0
    ensures x >= 0.0 && y <= 0.0 ==> x * y <= 0.0
    ensures x <= 0.0 && y >= 0.0 ==> x * y <= 0.0
    ensures x > 0.0 && y > 0.0 ==> x * y > 0.0
    ensures x > 0.0 && y < 0.0 ==> x * y < 0.0
  {
  }

  lemma Distribute(w: real, x: real, y: real)
    ensures w * (x - y) == w * x - w * y
  {
  }

  lemma Exchange(a: real, b: real, c: real, d: real)
    ensures (a * b) * (c * d) == (a * c) * (b * d)
  {
  }

  lemma QuotientTimes(n: real, d: real)
    requires d != 0.0
    ensures (n / d) * d == n
  {
  }

  lemma QuotientOf(n: real, d: real, q: real)
    requires d != 0.0 && n == q * d
    ensures n / d == q
  {
    QuotientTimes(n, d);
    Cancel(d, n / d, q);
  }

  lemma DivideLinear(x: real, y: real, ka: real, kb: real, p: real)
    requires p != 0.0
    ensures (ka * x + kb * y) / p == ka * (x / p) + kb * (y / p)
  {
    var u, v := x / p, y / p;
    assert u * p == x && v * p == y;
    assert ka * x == ka * u * p && kb * y == kb * v * p;
    assert (ka * u + kb * v) * p == ka * x + kb * y;
  }

  lemma AddShares(x: real, y: real, p: real)
    requires p != 0.0
    ensures (x + y) / p == x / p + y / p
  {
    DivideLinear(x, y, 1.0, 1.0, p);
  }

  lemma NoReal(a: set<real>)
    requires forall x :: x !in a
    ensures a == {}
  {
    assert forall x :: x in a <==> x in {};
  }

  lemma HasReal(a: set<real>)
    requires a != {}
    ensures exists x :: x in a
  {
    if forall x :: x !in a { NoReal(a); }
  }

  lemma NoInt(a: set<int>)
    requires forall x :: x !in a
    ensures a == {}
  {
    assert forall x :: x in a <==> x in {};
  }

  lemma HasInt(a: set<int>)
    requires a != {}
    ensures exists x :: x in a
  {
    if forall x :: x !in a { NoInt(a); }
  }

  lemma SubsetSize(a: set<int>, b: set<int>)
    requires a <= b
    ensures |a| <= |b|
  {
    assert b == a + (b - a);
    assert |b| == |a| + |b - a|;
  }

  // ----- sorted(xs) -----

  lemma ConsSorted(x: real, t: seq<real>)
    requires Sorted(t) && forall y :: y in t ==> x <= y
    ensures Sorted([x] + t)
  {
    assert forall i :: 0 <= i < |t| ==> t[i] in t;
  }

  lemma HeadLeast(s: seq<real>)
    requires Sorted(s) && s != []
    ensures forall y :: y in s ==> s[0] <= y
  {
  }

  function Insert(x: real, s: seq<real>): (r: seq<real>)
    requires Sorted(s)
    ensures Sorted(r) && multiset(r) == multiset{x} + multiset(s)
    ensures |r| == |s| + 1
    ensures forall y :: y in r ==> y == x || y in s
  {
    if s == [] then [x]
    else if x <= s[0] then
      HeadLeast(s);
      ConsSorted(x, s);
      [x] + s
    else
      HeadLeast(s);
      var t := Insert(x, s[1..]);
      ConsSorted(s[0], t);
      assert s == [s[0]] + s[1..];
      [s[0]] + t
  }

  function Sort(xs: seq<real>): (r: seq<real>)
    ensures Sorted(r) && multiset(r) == multiset(xs)
    ensures |r| == |xs|
  {
    if xs == [] then []
    else
      assert xs == [xs[0]] + xs[1..];
      Insert(xs[0], Sort(xs[1..]))
  }

  /** Sorting forgets order: a sorted arrangement of a multiset is unique. */
  lemma {:induction false} SortedUnique(s: seq<real>, t: seq<real>)
    requires Sorted(s) && Sorted(t) && multiset(s) == multiset(t)
    ensures s == t
  {
    assert |s| == |multiset(s)| == |multiset(t)| == |t|;
    if s != [] {
      SameLeast(s, t);
      assert s == [s[0]] + s[1..] && t == [t[0]] + t[1..];
      assert multiset(s[1..]) == multiset(s) - multiset{s[0]} == multiset(t[1..]);
      SortedUnique(s[1..], t[1..]);
    }
  }

  lemma SameLeast(s: seq<real>, t: seq<real>)
    requires Sorted(s) && Sorted(t) && multiset(s) == multiset(t) && s != [] && t != []
    ensures s[0] == t[0]
  {
    LeastFirst(s, t);
    LeastFirst(t, s);
  }

  lemma LeastFirst(s: seq<real>, t: seq<real>)
    requires Sorted(s) && multiset(s) == multiset(t) && s != [] && t != []
    ensures s[0] <= t[0]
  {
    assert t[0] in multiset(t);
    assert t[0] in s;
    var i :| 0 <= i < |s| && s[i] == t[0];
  }

  // ----- sorted(set(xs)) -----

  function InsertNew(x: real, s: seq<real>): (r: seq<real>)
    requires StrictlyIncreasing(s)
    ensures StrictlyIncreasing(r)
    ensures forall y :: y in r <==> y == x || y in s
  {
    if s == [] then [x]
    else if x < s[0] then
      assert forall i :: 0 <= i < |s| ==> x < s[i];
      [x] + s
    else if x == s[0] then s
    else
      assert s == [s[0]] + s[1..];
      var t := InsertNew(x, s[1..]);
      assert forall i :: 0 <= i < |t| ==> s[0] < t[i] by {
        forall i | 0 <= i < |t| ensures s[0] < t[i] {
          assert t[i] in t;
          if t[i] != x { var j :| 0 <= j < |s[1..]| && s[1..][j] == t[i]; assert s[0] < s[j + 1]; }
        }
      }
      [s[0]] + t
  }

  function SortedSet(xs: seq<real>): (r: seq<real>)
    ensures StrictlyIncreasing(r)
    ensures forall y :: y in r <==> y in xs
  {
    if xs == [] then []
    else
      assert xs == [xs[0]] + xs[1..];
      InsertNew(xs[0], SortedSet(xs[1..]))
  }

  lemma {:induction false} StrictlyIncreasingUnique(s: seq<real>, t: seq<real>)
    requires StrictlyIncreasing(s) && StrictlyIncreasing(t)
    requires forall y :: y in s <==> y in t
    ensures s == t
  {
    if s != [] {
      assert s[0] in s;
    }
    if t != [] {
      assert t[0] in t;
      assert s[0] == t[0];
      forall y ensures y in s[1..] <==> y in t[1..] {
        assert y in s[1..] <==> y in s && y != s[0];
        assert y in t[1..] <==> y in t && y != t[0];
      }
      StrictlyIncreasingUnique(s[1..], t[1..]);
    }
  }

  /** The two grid points around a value lying between the first and the last. */
  lemma {:induction false} Bracket(s: seq<real>, x: real) returns (i: nat)
    requires StrictlyIncreasing(s) && |s| >= 2
    requires s[0] <= x <= s[|s| - 1]
    ensures i + 1 < |s| && s[i] <= x <= s[i + 1]
  {
    i := 0;
    while x > s[i + 1]
      invariant i + 1 < |s| && s[i] <= x
      decreases |s| - i
    {
      i := i + 1;
    }
  }

  // ----- min(xs), max(xs), sum(xs) -----

  function MinOf(s: seq<real>): (m: real)
    requires s != []
    ensures m in s && forall y :: y in s ==> m <= y
  {
    if |s| == 1 then s[0]
    else
      assert s == [s[0]] + s[1..];
      Min(s[0], MinOf(s[1..]))
  }

  function MaxOf(s: seq<real>): (m: real)
    requires s != []
    ensures m in s && forall y :: y in s ==> y <= m
  {
    if |s| == 1 then s[0]
    else
      assert s == [s[0]] + s[1..];
      Max(s[0], MaxOf(s[1..]))
  }

  function Sum(s: seq<real>): real {
    if s == [] then 0.0 else Sum(s[..|s| - 1]) + s[|s| - 1]
  }
}
