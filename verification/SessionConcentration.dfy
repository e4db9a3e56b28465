/** What the session concentration of simulated paths counts, and what it is described to count
    (src/spy_der/forecasting/path_model.py). */
module SessionConcentration {
  import opened Blocks
  import opened RealSeqs
  import opened Multiplicity
  import opened SessionSpans
  import opened Bootstrap
  import opened PathSimulation

  ghost function SessionOfStart(lib: Library, starts: seq<int>, i: nat): int
    requires StartsIn(lib, starts) && i < |starts|
  {
    assert starts[i] in starts;
    lib.ids[starts[i]]
  }

  /** What it is described to count: the first block of every path. */
  ghost function FirstBlocks(lib: Library, starts: seq<int>, draws: Draws, perPath: nat, nPaths: nat): seq<int>
    requires StartsIn(lib, starts)
  {
    if perPath == 0 then [] else seq(nPaths, i requires 0 <= i < nPaths => SessionDrawn(lib, starts, draws, i, 0))
  }

  ghost predicate ConcentrationAgrees(lib: Library, starts: seq<int>, draws: Draws, perPath: nat, nPaths: nat)
    requires StartsIn(lib, starts)
  {
    Concentration(CountedDraws(lib, starts, draws, perPath, nPaths), nPaths)
      == Concentration(FirstBlocks(lib, starts, draws, perPath, nPaths), nPaths)
  }

  /** The concentration is the share of the session drawn most often, 1 exactly if there is only one, and the support
      is how many there are; with nothing drawn they are 1 and 0. */
  lemma ConcentrationIsTopShare(counted: seq<int>, x: int)
    ensures var c := Concentration(counted, |counted|);
      && CountOf(counted, x) as real <= c * |counted| as real
      && (counted != [] ==> exists top :: top in counted && c * |counted| as real == CountOf(counted, top) as real)
      && (c == 1.0 <==> Support(counted) <= 1)
      && (counted == [] ==> c == 1.0 && Support(counted) == 0)
  {
    hide Concentration, Support;
    if counted == [] {
      NothingCounted();
    } else {
      var most := MostOf(counted, counted);
      var p :| 0 <= p < |counted| && CountOf(counted, counted[p]) == most;
      TopShare(counted);
      SupportOfOne(counted, p);
      CountedAtMost(counted, x, most);
    }
  }

  lemma NothingCounted()
    ensures Concentration([], 0) == 1.0 && Support([]) == 0
  {
    assert (set y: int | y in []) == {};
  }

  lemma CountedAtMost(counted: seq<int>, x: int, most: nat)
    requires forall p :: 0 <= p < |counted| ==> CountOf(counted, counted[p]) <= most
    ensures CountOf(counted, x) <= most
  {
    if x in counted { var p :| 0 <= p < |counted| && counted[p] == x; }
  }

  lemma TopShare(counted: seq<int>)
    requires counted != []
    ensures var c, most, n := Concentration(counted, |counted|), MostOf(counted, counted), |counted| as real;
      c * n == most as real && (c == 1.0 <==> most == |counted|)
  {
    hide CountOf, MostOf;
    ShareIsWhole(MostOf(counted, counted) as real, |counted| as real);
  }

  lemma ShareIsWhole(most: real, n: real)
    requires n > 0.0
    ensures most / n * n == most && (most / n == 1.0 <==> most == n)
  {
  }

  lemma SupportOfOne(s: seq<int>, p: nat)
    requires p < |s|
    ensures CountOf(s, s[p]) == |s| <==> Support(s) <= 1
  {
    var support := set y | y in s;
    if forall q :: 0 <= q < |s| ==> s[q] == s[p] {
      CountConstant(s, s[p]);
      assert support == {s[p]};
    } else {
      var q :| 0 <= q < |s| && s[q] != s[p];
      CountShort(s, s[p], q);
      assert {s[p], s[q]} <= support;
      SubsetSize({s[p], s[q]}, support);
    }
  }

  ghost predicate OneSession(lib: Library, starts: seq<int>)
    requires StartsIn(lib, starts)
  {
    forall x, y :: x in starts && y in starts ==> lib.ids[x] == lib.ids[y]
  }

  /** The concentration reported is that of the first blocks, whatever is drawn, exactly when a path needs
      at most one block, or there is at most one path, or all eligible blocks are one session's. */
  lemma ConcentrationCountsFirstBlocks(lib: Library, starts: seq<int>, perPath: nat, nPaths: nat)
    requires StartsIn(lib, starts)
    ensures (forall draws: Draws :: ConcentrationAgrees(lib, starts, draws, perPath, nPaths))
        <==> perPath <= 1 || nPaths <= 1 || OneSession(lib, starts)
  {
    hide Concentration, Drawn;
    if perPath <= 1 || nPaths <= 1 || OneSession(lib, starts) {
      forall draws: Draws ensures ConcentrationAgrees(lib, starts, draws, perPath, nPaths) {
        SameSessionsCounted(lib, starts, draws, perPath, nPaths);
      }
    } else {
      var x, y :| x in starts && y in starts && lib.ids[x] != lib.ids[y];
      var i :| 0 <= i < |starts| && starts[i] == x;
      var j :| 0 <= j < |starts| && starts[j] == y;
      OtherBlocksDilute(lib, starts, perPath, nPaths, i, j);
      assert !ConcentrationAgrees(lib, starts, Alternating(i, j), perPath, nPaths);
    }
  }

  lemma SameSessionsCounted(lib: Library, starts: seq<int>, draws: Draws, perPath: nat, nPaths: nat)
    requires StartsIn(lib, starts) && (perPath <= 1 || nPaths <= 1 || OneSession(lib, starts))
    ensures CountedDraws(lib, starts, draws, perPath, nPaths) == FirstBlocks(lib, starts, draws, perPath, nPaths)
  {
    if perPath > 0 {
      forall k: nat | k < nPaths
        ensures SessionDrawn(lib, starts, draws, k / perPath, k % perPath) == SessionDrawn(lib, starts, draws, k, 0)
      {
        if perPath == 1 || nPaths == 1 { BlockOf(if perPath == 1 then k else 0, 0, perPath); }
      }
    }
  }

  /** Every first block starts at the i-th eligible start, every later one at the j-th. */
  function Alternating(i: nat, j: nat): Draws {
    (path: nat, block: nat) => if block == 0 then i else j
  }

  /** If those are of different sessions the first blocks are fully concentrated, but the draws counted are not. */
  lemma OtherBlocksDilute(lib: Library, starts: seq<int>, perPath: nat, nPaths: nat, i: nat, j: nat)
    requires StartsIn(lib, starts) && perPath >= 2 && nPaths >= 2
    requires i < |starts| && j < |starts| && SessionOfStart(lib, starts, i) != SessionOfStart(lib, starts, j)
    ensures Concentration(FirstBlocks(lib, starts, Alternating(i, j), perPath, nPaths), nPaths) == 1.0
    ensures Concentration(CountedDraws(lib, starts, Alternating(i, j), perPath, nPaths), nPaths) < 1.0
  {
    hide Concentration, MostOf, FirstBlocks, CountedDraws;
    var x, y := SessionOfStart(lib, starts, i), SessionOfStart(lib, starts, j);
    DrawnSessions(lib, starts, perPath, nPaths, i, j);
    Concentrated(FirstBlocks(lib, starts, Alternating(i, j), perPath, nPaths), x, nPaths);
    Diluted(CountedDraws(lib, starts, Alternating(i, j), perPath, nPaths), nPaths);
  }

  lemma SmallRemainder(i: nat, n: nat)
    requires i < n
    ensures i % n == i
  {
  }

  lemma AlternatingSession(lib: Library, starts: seq<int>, i: nat, j: nat, path: nat, block: nat)
    requires StartsIn(lib, starts) && i < |starts| && j < |starts|
    ensures SessionDrawn(lib, starts, Alternating(i, j), path, block)
         == SessionOfStart(lib, starts, if block == 0 then i else j)
  {
    SmallRemainder(i, |starts|);
    SmallRemainder(j, |starts|);
  }

  lemma DrawnSessions(lib: Library, starts: seq<int>, perPath: nat, nPaths: nat, i: nat, j: nat)
    requires StartsIn(lib, starts) && perPath >= 2 && nPaths >= 2 && i < |starts| && j < |starts|
    ensures var first := FirstBlocks(lib, starts, Alternating(i, j), perPath, nPaths);
      |first| == nPaths && forall k :: 0 <= k < nPaths ==> first[k] == SessionOfStart(lib, starts, i)
    ensures var counted := CountedDraws(lib, starts, Alternating(i, j), perPath, nPaths);
      && |counted| == nPaths && counted[0] == SessionOfStart(lib, starts, i)
      && counted[1] == SessionOfStart(lib, starts, j)
  {
    hide SessionDrawn, SessionOfStart, Alternating;
    forall k: nat | k < nPaths
      ensures SessionDrawn(lib, starts, Alternating(i, j), k, 0) == SessionOfStart(lib, starts, i)
    {
      AlternatingSession(lib, starts, i, j, k, 0);
    }
    AlternatingSession(lib, starts, i, j, 0, 0);
    AlternatingSession(lib, starts, i, j, 0, 1);
    BlockOf(0, 0, perPath);
    BlockOf(0, 1, perPath);
    assert 0 * perPath == 0;
  }

  lemma Concentrated(s: seq<int>, x: int, n: nat)
    requires |s| == n >= 1 && forall k :: 0 <= k < n ==> s[k] == x
    ensures Concentration(s, n) == 1.0
  {
    CountConstant(s, x);
    assert MostOf(s, s) == CountOf(s, x);
    WholeOrLess(MostOf(s, s), n);
  }

  lemma Diluted(s: seq<int>, n: nat)
    requires |s| == n >= 2 && s[0] != s[1]
    ensures Concentration(s, n) < 1.0
  {
    var p :| 0 <= p < |s| && CountOf(s, s[p]) == MostOf(s, s);
    CountShort(s, s[p], if s[p] == s[0] then 1 else 0);
    WholeOrLess(MostOf(s, s), n);
  }

  lemma WholeOrLess(n: nat, size: nat)
    requires size >= 1
    ensures n == size ==> n as real / size as real == 1.0
    ensures n < size ==> n as real / size as real < 1.0
  {
  }

  /** Two sessions, two paths of two blocks: both first blocks are of one session, yet one half is reported. */
  lemma ConcentrationDiffers()
    ensures var lib, starts, draws := Library([0.1, 0.2, 0.3, 0.4], [0, 0, 1, 1]), [0, 1, 2, 3], Alternating(0, 2);
      && Eligible(lib, starts, 1) && StartsIn(lib, starts) && BlocksFor(2, 1) == 2
      && Concentration(FirstBlocks(lib, starts, draws, 2, 2), 2) == 1.0
      && Concentration(CountedDraws(lib, starts, draws, 2, 2), 2) == 0.5
  {
    hide Concentration, MostOf, CountedDraws, FirstBlocks, Eligible, BlocksFor, Alternating, StartsIn;
    var lib, starts := Library([0.1, 0.2, 0.3, 0.4], [0, 0, 1, 1]), [0, 1, 2, 3];
    EachStartEligible(lib, starts);
    SampleSessions(lib, starts);
    OtherBlocksDilute(lib, starts, 2, 2, 0, 2);
    DrawnSessions(lib, starts, 2, 2, 0, 2);
    assert CountedDraws(lib, starts, Alternating(0, 2), 2, 2) == [0, 1];
    TwoBlocks();
    HalfAndHalf();
  }

  lemma SampleSessions(lib: Library, starts: seq<int>)
    requires lib == Library([0.1, 0.2, 0.3, 0.4], [0, 0, 1, 1]) && starts == [0, 1, 2, 3] && StartsIn(lib, starts)
    ensures SessionOfStart(lib, starts, 0) == 0 && SessionOfStart(lib, starts, 2) == 1
  {
  }

  lemma TwoBlocks()
    ensures BlocksFor(2, 1) == 2
  {
    assert BlocksFor(1, 1) == 1;
  }

  lemma EachStartEligible(lib: Library, starts: seq<int>)
    requires lib == Library([0.1, 0.2, 0.3, 0.4], [0, 0, 1, 1]) && starts == [0, 1, 2, 3]
    ensures Eligible(lib, starts, 1) && StartsIn(lib, starts)
  {
    forall x ensures x in starts <==> WithinSession(lib.ids, x, 1) {
      if x in starts { assert x == 0 || x == 1 || x == 2 || x == 3; }
      if 0 <= x < 4 { assert starts[x] == x; }
    }
  }

  lemma HalfAndHalf()
    ensures Concentration([0, 1], 2) == 0.5
  {
    var s := [0, 1];
    assert CountOf(s, 0) == CountOf(s, 1) == 1;
    assert MostOf(s, s) == 1;
  }
}
