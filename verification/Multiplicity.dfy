/** How often a number occurs in a list: what is used of Python's Counter. */
module Multiplicity {
  function CountOf(s: seq<int>, x: int): nat { multiset(s)[x] }

  function MostOf(s: seq<int>, keys: seq<int>): (most: nat)
    ensures forall p :: 0 <= p < |keys| ==> CountOf(s, keys[p]) <= most
    ensures if keys == [] then most == 0 else exists p :: 0 <= p < |keys| && CountOf(s, keys[p]) == most
  {
    if keys == [] then 0
    else
      var last := |keys| - 1;
      var rest, count := MostOf(s, keys[..last]), CountOf(s, keys[last]);
      assert forall p :: 0 <= p < last ==> keys[..last][p] == keys[p];
      if rest < count || last == 0 then count else rest
  }

  lemma {:induction false} CountConstant(s: seq<int>, x: int)
    requires forall k :: 0 <= k < |s| ==> s[k] == x
    ensures CountOf(s, x) == |s|
  {
    if s != [] {
      var n := |s| - 1;
      assert s == s[..n] + [s[n]];
      CountConstant(s[..n], x);
    }
  }

  lemma {:induction false} CountShort(s: seq<int>, x: int, p: nat)
    requires p < |s| && s[p] != x
    ensures CountOf(s, x) < |s|
  {
    assert s == s[..p] + [s[p]] + s[p + 1..];
    CountWithinLength(s[..p], x);
    CountWithinLength(s[p + 1..], x);
  }

  lemma {:induction false} CountWithinLength(s: seq<int>, x: int)
    ensures CountOf(s, x) <= |s|
  {
    if s != [] {
      var n := |s| - 1;
      assert s == s[..n] + [s[n]];
      CountWithinLength(s[..n], x);
    }
  }
}
