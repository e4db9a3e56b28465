/** The block bootstrap of one path (src/spy_der/forecasting/path_model.py).
    A draw is an arbitrary number reduced to a position of the start list, so the results hold for
    every random stream; the exponential is an arbitrary function of the return. */
module Bootstrap {
  import opened Blocks
  import opened SessionSpans

  /** Standardized residuals with the session each came from, one id per residual. */
  datatype Library = Library(residuals: seq<real>, ids: seq<int>)

  /** The local drift and scale, and the price factor of a return. */
  datatype Local = Local(spot: real, mean: real, sigma: real, growth: real -> real)

  /** Which number each random choice came up with, by path and block. */
  type Draws = (nat, nat) -> nat

  function LogReturn(r: real, local: Local): real { local.mean + r * local.sigma }

  function Grown(price: real, r: real, local: Local): real { price * local.growth(LogReturn(r, local)) }

  /** The start drawn for a block of a path: any element of the start list. */
  function Drawn(starts: seq<int>, draws: Draws, path: nat, block: nat): (r: int)
    requires starts != []
    ensures r in starts
  {
    starts[draws(path, block) % |starts|]
  }

  /** The residual behind a step of a path. */
  function SourceOf(starts: seq<int>, draws: Draws, path: nat, t: nat, blockLen: nat): int
    requires starts != [] && blockLen >= 1
  {
    Drawn(starts, draws, path, t / blockLen) + t % blockLen
  }

  ghost predicate StartsIn(lib: Library, starts: seq<int>) {
    starts != [] && forall x :: x in starts ==> 0 <= x < |lib.ids|
  }

  /** The session of the block drawn. */
  ghost function SessionDrawn(lib: Library, starts: seq<int>, draws: Draws, path: nat, block: nat): int
    requires StartsIn(lib, starts)
  {
    lib.ids[Drawn(starts, draws, path, block)]
  }

  /** Eligible starts of a library, as EligibleStarts returns them. */
  ghost predicate Eligible(lib: Library, starts: seq<int>, blockLen: nat) {
    && |lib.residuals| == |lib.ids| && blockLen >= 1
    && forall x :: x in starts <==> WithinSession(lib.ids, x, blockLen)
  }

  /** Step t applies the residual its draw points at. */
  ghost predicate StepFrom(lib: Library, starts: seq<int>, draws: Draws, path: nat, blockLen: nat, local: Local,
                           prices: seq<real>, t: nat)
    requires Eligible(lib, starts, blockLen) && starts != [] && t + 1 < |prices|
  {
    var x := SourceOf(starts, draws, path, t, blockLen);
    0 <= x < |lib.residuals| && prices[t + 1] == Grown(prices[t], lib.residuals[x], local)
  }

  /** The draws needed to cover the steps. */
  function BlocksFor(nSteps: nat, blockLen: nat): nat
    requires blockLen >= 1
  {
    if nSteps == 0 then 0 else if nSteps <= blockLen then 1 else BlocksFor(nSteps - blockLen, blockLen) + 1
  }

  /** The path so far: spot first, then one drawn residual a step. */
  ghost predicate Filled(lib: Library, starts: seq<int>, draws: Draws, path: nat, blockLen: nat, nSteps: nat,
                         local: Local, prices: seq<real>)
    requires Eligible(lib, starts, blockLen) && starts != []
  {
    && |prices| == nSteps + 1 && prices[0] == local.spot
    && forall t :: 0 <= t < nSteps ==> StepFrom(lib, starts, draws, path, blockLen, local, prices, t)
  }

  lemma ExtendPath(lib: Library, starts: seq<int>, draws: Draws, path: nat, blockLen: nat, n: nat, local: Local,
                   prices: seq<real>, next: real)
    requires Eligible(lib, starts, blockLen) && starts != []
    requires Filled(lib, starts, draws, path, blockLen, n, local, prices)
    requires var x := SourceOf(starts, draws, path, n, blockLen);
      0 <= x < |lib.residuals| && next == Grown(prices[n], lib.residuals[x], local)
    ensures Filled(lib, starts, draws, path, blockLen, n + 1, local, prices + [next])
  {
    hide SourceOf, Grown;
    var longer := prices + [next];
    forall t | 0 <= t < n + 1 ensures StepFrom(lib, starts, draws, path, blockLen, local, longer, t) {
      if t < n { assert StepFrom(lib, starts, draws, path, blockLen, local, prices, t); }
    }
  }

  method FillPath(lib: Library, starts: seq<int>, draws: Draws, path: nat, blockLen: nat, nSteps: nat, local: Local)
    returns (prices: seq<real>, chosen: seq<int>)
    requires Eligible(lib, starts, blockLen) && StartsIn(lib, starts)
    ensures Filled(lib, starts, draws, path, blockLen, nSteps, local, prices)
    ensures |chosen| == BlocksFor(nSteps, blockLen)
    ensures forall b :: 0 <= b < |chosen| ==> chosen[b] == SessionDrawn(lib, starts, draws, path, b)
  {
    hide Grown, Drawn, StepFrom;
    prices, chosen := [local.spot], [];
    var filled := 0;
    while filled < nSteps
      invariant filled <= nSteps
      invariant Filled(lib, starts, draws, path, blockLen, filled, local, prices)
      invariant filled < nSteps ==> filled == |chosen| * blockLen
      invariant |chosen| + BlocksFor(nSteps - filled, blockLen) == BlocksFor(nSteps, blockLen)
      invariant forall b :: 0 <= b < |chosen| ==> chosen[b] == SessionDrawn(lib, starts, draws, path, b)
    {
      var start := Drawn(starts, draws, path, |chosen|);
      assert WithinSession(lib.ids, start, blockLen);
      prices, filled := FillBlock(lib, starts, draws, path, blockLen, nSteps, local, |chosen|, prices);
      assert (|chosen| + 1) * blockLen == |chosen| * blockLen + blockLen;
      chosen := chosen + [lib.ids[start]];
    }
  }

  /** One drawn block, cut off at the last step. */
  method FillBlock(lib: Library, starts: seq<int>, draws: Draws, path: nat, blockLen: nat, nSteps: nat, local: Local,
                   b: nat, sofar: seq<real>) returns (prices: seq<real>, filled: nat)
    requires Eligible(lib, starts, blockLen) && starts != [] && b * blockLen < nSteps
    requires Filled(lib, starts, draws, path, blockLen, b * blockLen, local, sofar)
    ensures filled == if b * blockLen + blockLen <= nSteps then b * blockLen + blockLen else nSteps
    ensures Filled(lib, starts, draws, path, blockLen, filled, local, prices)
  {
    hide Grown, Drawn, StepFrom;
    var start := Drawn(starts, draws, path, b);
    assert WithinSession(lib.ids, start, blockLen);
    var block := lib.residuals[start..start + blockLen];
    prices, filled := sofar, b * blockLen;
    for j := 0 to |block|
      invariant filled == b * blockLen + j <= nSteps
      invariant Filled(lib, starts, draws, path, blockLen, filled, local, prices)
    {
      if filled >= nSteps {
        break;
      }
      var next := Grown(prices[filled], block[j], local);
      BlockOf(b, j, blockLen);
      ExtendPath(lib, starts, draws, path, blockLen, filled, local, prices, next);
      prices := prices + [next];
      filled := filled + 1;
    }
  }

  /** Steps filled from one block replay consecutive residuals of a single session. */
  lemma BlocksReplaySessions(lib: Library, starts: seq<int>, draws: Draws, path: nat, blockLen: nat, t: nat, u: nat)
    requires Eligible(lib, starts, blockLen) && starts != [] && t / blockLen == u / blockLen
    ensures var x, y := SourceOf(starts, draws, path, t, blockLen), SourceOf(starts, draws, path, u, blockLen);
      && 0 <= x < |lib.ids| && 0 <= y < |lib.ids|
      && y - x == u - t && lib.ids[x] == lib.ids[y]
  {
    var start := Drawn(starts, draws, path, t / blockLen);
    assert WithinSession(lib.ids, start, blockLen);
    assert t == (t / blockLen) * blockLen + t % blockLen && u == (u / blockLen) * blockLen + u % blockLen;
  }
}
