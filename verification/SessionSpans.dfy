/** Session spans of a residual library and the block starts that stay within a session
    (src/spy_der/forecasting/path_model.py). */
module SessionSpans {
  datatype Span = Span(from: int, to: int)

  // ----- Session spans -----

  /** A maximal run of one session's residuals. */
  ghost predicate IsRun(ids: seq<int>, s: Span) {
    && 0 <= s.from < s.to <= |ids|
    && (forall i :: s.from <= i < s.to ==> ids[i] == ids[s.from])
    && (s.from > 0 ==> ids[s.from - 1] != ids[s.from])
    && (s.to < |ids| ==> ids[s.to] != ids[s.from])
  }

  function EndOf(spans: seq<Span>): int { if spans == [] then 0 else spans[|spans| - 1].to }

  /** The spans lie end to end from the first residual on, each a maximal run. */
  ghost predicate AreRuns(ids: seq<int>, spans: seq<Span>) {
    spans == [] ||
    var init, last := spans[..|spans| - 1], spans[|spans| - 1];
    AreRuns(ids, init) && last.from == EndOf(init) && IsRun(ids, last)
  }

  lemma AppendRun(ids: seq<int>, spans: seq<Span>, s: Span)
    requires AreRuns(ids, spans) && s.from == EndOf(spans) && IsRun(ids, s)
    ensures AreRuns(ids, spans + [s])
  {
    assert (spans + [s])[..|spans|] == spans;
  }

  method InferSessionSpans(ids: seq<int>) returns (spans: seq<Span>)
    ensures AreRuns(ids, spans) && EndOf(spans) == |ids|
  {
    spans := [];
    if ids == [] {
      return;
    }
    var start, cur := 0, ids[0];
    for i := 1 to |ids|
      invariant AreRuns(ids, spans) && 0 <= EndOf(spans) == start < i
      invariant forall j :: start <= j < i ==> ids[j] == cur
      invariant start > 0 ==> ids[start - 1] != cur
    {
      if ids[i] != cur {
        AppendRun(ids, spans, Span(start, i));
        spans := spans + [Span(start, i)];
        start, cur := i, ids[i];
      }
    }
    AppendRun(ids, spans, Span(start, |ids|));
    spans := spans + [Span(start, |ids|)];
  }

  // ----- Eligible starts -----

  ghost predicate InSomeSpan(spans: seq<Span>, start: int, blockLen: nat) {
    exists s :: s in spans && s.from <= start && start + blockLen <= s.to
  }

  /** The whole block is one session's. */
  ghost predicate WithinSession(ids: seq<int>, start: int, blockLen: nat) {
    && 0 <= start && start + blockLen <= |ids|
    && forall i :: start <= i < start + blockLen ==> ids[i] == ids[start]
  }

  ghost predicate Ascending(s: seq<int>) { forall i, j :: 0 <= i < j < |s| ==> s[i] < s[j] }

  /** range(a, b), for a <= b. */
  function Range(a: int, b: int): (r: seq<int>)
    requires a <= b
    ensures Ascending(r)
    ensures forall x :: x in r <==> a <= x < b
    decreases b - a
  {
    if a == b then [] else
    AscendingJoin(Range(a, b - 1), [b - 1]);
    Range(a, b - 1) + [b - 1]
  }

  lemma AscendingJoin(s: seq<int>, t: seq<int>)
    requires Ascending(s) && Ascending(t)
    requires forall x, y :: x in s && y in t ==> x < y
    ensures Ascending(s + t)
  {
    forall i, j | 0 <= i < j < |s + t| ensures (s + t)[i] < (s + t)[j] {
      if i < |s| <= j { assert s[i] in s && t[j - |s|] in t; }
    }
  }

  lemma InOneMoreSpan(spans: seq<Span>, s: Span, start: int, blockLen: nat)
    ensures InSomeSpan(spans + [s], start, blockLen) <==>
      InSomeSpan(spans, start, blockLen) || (s.from <= start && start + blockLen <= s.to)
  {
    var all := spans + [s];
    assert s in all && forall t :: t in all <==> t in spans || t == s;
  }

  lemma NoSpanYet(spans: seq<Span>, blockLen: nat)
    requires spans == []
    ensures forall x :: !InSomeSpan(spans, x, blockLen)
  {
  }

  /** Each eligible start is listed once, so a uniform choice is uniform over the eligible starts. */
  method EligibleStarts(ids: seq<int>, spans: seq<Span>, blockLen: nat) returns (starts: seq<int>)
    requires AreRuns(ids, spans) && EndOf(spans) == |ids| && blockLen >= 1
    ensures Ascending(starts)
    ensures forall x :: x in starts <==> WithinSession(ids, x, blockLen)
  {
    hide WithinSession, InSomeSpan;
    NoSpanYet(spans[..0], blockLen);
    starts := [];
    for k := 0 to |spans|
      invariant Ascending(starts)
      invariant forall x :: x in starts <==> InSomeSpan(spans[..k], x, blockLen)
      invariant forall x :: x in starts ==> x < EndOf(spans[..k])
    {
      var a, b := spans[k].from, spans[k].to;
      assert spans[..k + 1] == spans[..k] + [spans[k]];
      PrefixRuns(ids, spans, k);
      ghost var before := starts;
      if b - a >= blockLen {
        AscendingJoin(starts, Range(a, b - blockLen + 1));
        starts := starts + Range(a, b - blockLen + 1);
      }
      forall x ensures x in starts <==> InSomeSpan(spans[..k + 1], x, blockLen) {
        InOneMoreSpan(spans[..k], spans[k], x, blockLen);
        assert x in starts <==> x in before || (a <= x && x + blockLen <= b);
      }
    }
    assert spans[..|spans|] == spans;
    forall x ensures InSomeSpan(spans, x, blockLen) <==> WithinSession(ids, x, blockLen) {
      EligibleExactlyWithinSession(ids, spans, x, blockLen);
    }
  }

  lemma {:induction false} PrefixRuns(ids: seq<int>, spans: seq<Span>, k: nat)
    requires AreRuns(ids, spans) && k < |spans|
    ensures spans[k].from == EndOf(spans[..k]) && IsRun(ids, spans[k])
  {
    var n := |spans| - 1;
    if k < n {
      PrefixRuns(ids, spans[..n], k);
      assert spans[..n][..k] == spans[..k];
    }
  }

  lemma {:induction false} SpanHolding(ids: seq<int>, spans: seq<Span>, i: int) returns (s: Span)
    requires AreRuns(ids, spans) && 0 <= i < EndOf(spans)
    ensures s in spans && s.from <= i < s.to && IsRun(ids, s)
  {
    s := spans[|spans| - 1];
    if i < s.from {
      s := SpanHolding(ids, spans[..|spans| - 1], i);
    }
  }

  lemma {:induction false} SpansAreRuns(ids: seq<int>, spans: seq<Span>, s: Span)
    requires AreRuns(ids, spans) && s in spans
    ensures IsRun(ids, s)
  {
    if s != spans[|spans| - 1] { SpansAreRuns(ids, spans[..|spans| - 1], s); }
  }

  /** A start fits some span exactly when its block stays inside one session; no such block is missed. */
  lemma EligibleExactlyWithinSession(ids: seq<int>, spans: seq<Span>, start: int, blockLen: nat)
    requires AreRuns(ids, spans) && EndOf(spans) == |ids| && blockLen >= 1
    ensures InSomeSpan(spans, start, blockLen) <==> WithinSession(ids, start, blockLen)
  {
    if InSomeSpan(spans, start, blockLen) {
      var s :| s in spans && s.from <= start && start + blockLen <= s.to;
      SpansAreRuns(ids, spans, s);
    }
    if WithinSession(ids, start, blockLen) {
      var s := SpanHolding(ids, spans, start);
      assert start + blockLen <= s.to;
    }
  }
}
