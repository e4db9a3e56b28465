/** The simulation of all paths and its diagnostics (src/spy_der/forecasting/path_model.py). */
module PathSimulation {
  import opened Blocks
  import opened Multiplicity
  import opened SessionSpans
  import opened Bootstrap

  /** How a simulation ends. The other diagnostics of a fallback stay at their defaults. */
  datatype Simulation =
    | FallbackDisabled
    | Gaussian
    | Paths(paths: seq<seq<real>>, concentration: real, support: nat)

  /** Every path replays drawn blocks, and the diagnostics are those of the first nPaths draws. */
  ghost predicate Bootstrapped(lib: Library, starts: seq<int>, draws: Draws, blockLen: nat, nPaths: nat, nSteps: nat,
                               local: Local, r: Simulation)
    requires r.Paths?
  {
    && Eligible(lib, starts, blockLen) && StartsIn(lib, starts) && |r.paths| == nPaths
    && (forall i :: 0 <= i < nPaths ==> Filled(lib, starts, draws, i, blockLen, nSteps, local, r.paths[i]))
    && var counted := CountedDraws(lib, starts, draws, BlocksFor(nSteps, blockLen), nPaths);
      r.concentration == Concentration(counted, nPaths) && r.support == Support(counted)
  }

  /** The Gaussian fallback is taken when the library is too small or empty, unless it is disabled, and
      when it holds no eligible block, even if it is disabled. */
  method SimulatePaths(lib: Library, draws: Draws, blockLen: nat, nPaths: nat, nSteps: nat, minResiduals: nat,
                       allowFallback: bool, local: Local)
    returns (r: Simulation, starts: seq<int>)
    requires |lib.residuals| == |lib.ids| && blockLen >= 1
    ensures var insufficient := |lib.residuals| < minResiduals || lib.ids == [];
      && (r.FallbackDisabled? <==> insufficient && !allowFallback)
      && (r.Gaussian? <==> if insufficient then allowFallback else forall x :: !WithinSession(lib.ids, x, blockLen))
    ensures r.Paths? ==> Bootstrapped(lib, starts, draws, blockLen, nPaths, nSteps, local, r)
  {
    starts := [];
    var spans := InferSessionSpans(lib.ids);
    if |lib.residuals| < minResiduals || spans == [] {
      r := if allowFallback then Gaussian else FallbackDisabled;
      return;
    }
    starts := EligibleStarts(lib.ids, spans, blockLen);
    if starts == [] {
      r := Gaussian;
      return;
    }
    hide WithinSession, BlocksFor;
    assert starts[0] in starts;
    ghost var perPath := BlocksFor(nSteps, blockLen);
    var paths: seq<seq<real>>, chosen: seq<int> := [], [];
    for i := 0 to nPaths
      invariant |paths| == i
      invariant forall k :: 0 <= k < i ==> Filled(lib, starts, draws, k, blockLen, nSteps, local, paths[k])
      invariant Recorded(lib, starts, draws, perPath, i, chosen)
    {
      var prices, row := FillPath(lib, starts, draws, i, blockLen, nSteps, local);
      RecordRow(lib, starts, draws, perPath, i, chosen, row);
      paths, chosen := paths + [prices], chosen + row;
    }
    CountedAreFirst(lib, starts, draws, perPath, nPaths, chosen);
    var counted := if chosen == [] then [] else chosen[..nPaths];
    r := Paths(paths, Concentration(counted, nPaths), Support(counted));
  }

  /** Two residuals of different sessions hold no block of two. */
  function SplitLibrary(): Library { Library([0.1, 0.2], [0, 1]) }

  lemma NoBlockFits()
    ensures forall x :: !WithinSession(SplitLibrary().ids, x, 2)
  {
    var ids := SplitLibrary().ids;
    forall x ensures !WithinSession(ids, x, 2) {
      if x == 0 { assert ids[1] != ids[0]; }
    }
  }

  /** The fallback is taken for it although it is disabled. */
  method FallbackTakenThoughDisabled(draws: Draws, nPaths: nat, nSteps: nat, local: Local) returns (r: Simulation)
    ensures r == Gaussian
  {
    NoBlockFits();
    var starts;
    r, starts := SimulatePaths(SplitLibrary(), draws, 2, nPaths, nSteps, 2, false, local);
  }

  /** Draw k of the run is block k % perPath of path k / perPath. */
  ghost predicate Recorded(lib: Library, starts: seq<int>, draws: Draws, perPath: nat, nPaths: nat, chosen: seq<int>) {
    && StartsIn(lib, starts)
    && |chosen| == nPaths * perPath
    && forall k :: 0 <= k < |chosen| ==>
        perPath > 0 && chosen[k] == SessionDrawn(lib, starts, draws, k / perPath, k % perPath)
  }

  lemma RecordRow(lib: Library, starts: seq<int>, draws: Draws, perPath: nat, i: nat, chosen: seq<int>, row: seq<int>)
    requires Recorded(lib, starts, draws, perPath, i, chosen) && |row| == perPath
    requires forall b :: 0 <= b < |row| ==> row[b] == SessionDrawn(lib, starts, draws, i, b)
    ensures Recorded(lib, starts, draws, perPath, i + 1, chosen + row)
  {
    hide SessionDrawn;
    assert (i + 1) * perPath == i * perPath + perPath;
    forall k | |chosen| <= k < |chosen + row|
      ensures (chosen + row)[k] == SessionDrawn(lib, starts, draws, k / perPath, k % perPath)
    {
      BlockOf(i, k - |chosen|, perPath);
    }
  }

  lemma CountedAreFirst(lib: Library, starts: seq<int>, draws: Draws, perPath: nat, nPaths: nat, chosen: seq<int>)
    requires Recorded(lib, starts, draws, perPath, nPaths, chosen)
    ensures chosen != [] ==> nPaths <= |chosen|
    ensures CountedDraws(lib, starts, draws, perPath, nPaths) == if chosen == [] then [] else chosen[..nPaths]
  {
    hide SessionDrawn;
    if perPath == 0 || nPaths == 0 {
      assert nPaths * perPath == 0;
    } else {
      MultiplesUpTo(1, perPath, nPaths);
    }
  }

  // ----- Session concentration -----

  /** The share of the most frequent session among those counted. */
  function Concentration(counted: seq<int>, nPaths: nat): real {
    if counted == [] then 1.0 else MostOf(counted, counted) as real / (if nPaths < 1 then 1 else nPaths) as real
  }

  function Support(counted: seq<int>): nat { |set x | x in counted| }

  /** What the code counts: the first nPaths draws of the run. */
  ghost function CountedDraws(lib: Library, starts: seq<int>, draws: Draws, perPath: nat, nPaths: nat): seq<int>
    requires StartsIn(lib, starts)
  {
    if perPath == 0 then []
    else seq(nPaths, k requires 0 <= k < nPaths => SessionDrawn(lib, starts, draws, k / perPath, k % perPath))
  }
}
