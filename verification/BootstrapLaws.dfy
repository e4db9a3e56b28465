/** What a bootstrapped path adds up to (src/spy_der/forecasting/path_model.py). */
module BootstrapLaws {
  import opened RealSeqs
  import opened Blocks
  import opened SessionSpans
  import opened Bootstrap

  /** The j-th step of block b of a path replays the j-th residual after the start drawn for that block and path. */
  lemma SourceIsOfItsBlock(starts: seq<int>, draws: Draws, path: nat, b: nat, j: nat, blockLen: nat)
    requires starts != [] && j < blockLen
    ensures SourceOf(starts, draws, path, b * blockLen + j, blockLen) == Drawn(starts, draws, path, b) + j
  {
    hide Drawn;
    BlockOf(b, j, blockLen);
  }

  /** The exponential's laws. */
  ghost predicate Exponential(growth: real -> real) {
    growth(0.0) == 1.0 && forall x: real, y: real :: Multiplies(growth, x, y)
  }

  ghost predicate Multiplies(growth: real -> real, x: real, y: real) { growth(x + y) == growth(x) * growth(y) }

  /** The residuals drawn for the first t steps, added up. */
  ghost function ResidualSum(lib: Library, starts: seq<int>, draws: Draws, path: nat, blockLen: nat, t: nat): real
    requires Eligible(lib, starts, blockLen) && starts != []
  {
    if t == 0 then 0.0
    else
      var x := SourceOf(starts, draws, path, t - 1, blockLen);
      BlocksReplaySessions(lib, starts, draws, path, blockLen, t - 1, t - 1);
      ResidualSum(lib, starts, draws, path, blockLen, t - 1) + lib.residuals[x]
  }

  /** The log return after n steps: the drift once a step, and the local scale on every residual drawn. */
  ghost function Drift(n: real, sum: real, local: Local): real { n * local.mean + local.sigma * sum }

  /** The spot, grown. */
  ghost function PriceAfter(n: real, sum: real, local: Local): real { local.spot * local.growth(Drift(n, sum, local)) }

  /** The price after t steps is the spot grown by the drift of t steps and the scaled sum of the residuals drawn. */
  lemma {:induction false} PriceIsSpotGrown(lib: Library, starts: seq<int>, draws: Draws, path: nat, blockLen: nat,
                                            nSteps: nat, local: Local, prices: seq<real>, t: nat)
    requires Eligible(lib, starts, blockLen) && starts != [] && t <= nSteps && Exponential(local.growth)
    requires Filled(lib, starts, draws, path, blockLen, nSteps, local, prices)
    ensures prices[t] == PriceAfter(t as real, ResidualSum(lib, starts, draws, path, blockLen, t), local)
  {
    hide SourceOf, Drift, Grown, Exponential, PriceAfter;
    if t == 0 {
      NothingGrown(local);
    } else {
      PriceIsSpotGrown(lib, starts, draws, path, blockLen, nSteps, local, prices, t - 1);
      assert StepFrom(lib, starts, draws, path, blockLen, local, prices, t - 1);
      var r := lib.residuals[SourceOf(starts, draws, path, t - 1, blockLen)];
      GrownAgain(local, (t - 1) as real, ResidualSum(lib, starts, draws, path, blockLen, t - 1), r);
      assert (t - 1) as real + 1.0 == t as real;
    }
  }

  lemma NothingGrown(local: Local)
    requires Exponential(local.growth)
    ensures PriceAfter(0.0, 0.0, local) == local.spot
  {
  }

  lemma GrownAgain(local: Local, n: real, sum: real, r: real)
    requires Exponential(local.growth)
    ensures Grown(PriceAfter(n, sum, local), r, local) == PriceAfter(n + 1.0, sum + r, local)
  {
    hide Multiplies, Drift, LogReturn;
    var x, step := Drift(n, sum, local), LogReturn(r, local);
    DriftGrows(n, sum, r, local);
    assert Multiplies(local.growth, x, step);
    Product(local.growth, x, step);
    Regrouped(local.spot, local.growth(x), local.growth(step));
  }

  lemma DriftGrows(n: real, sum: real, r: real, local: Local)
    ensures Drift(n + 1.0, sum + r, local) == Drift(n, sum, local) + LogReturn(r, local)
  {
  }

  lemma Product(growth: real -> real, x: real, y: real)
    requires Multiplies(growth, x, y)
    ensures growth(x + y) == growth(x) * growth(y)
  {
  }

  lemma Regrouped(x: real, y: real, z: real)
    ensures (x * y) * z == x * (y * z)
  {
  }

  /** Prices stay positive, whatever was drawn. */
  lemma {:induction false} PricesPositive(lib: Library, starts: seq<int>, draws: Draws, path: nat, blockLen: nat,
                                          nSteps: nat, local: Local, prices: seq<real>, t: nat)
    requires Eligible(lib, starts, blockLen) && starts != [] && t <= nSteps && local.spot > 0.0
    requires forall x: real :: local.growth(x) > 0.0
    requires Filled(lib, starts, draws, path, blockLen, nSteps, local, prices)
    ensures prices[t] > 0.0
  {
    hide SourceOf;
    if t > 0 {
      PricesPositive(lib, starts, draws, path, blockLen, nSteps, local, prices, t - 1);
      assert StepFrom(lib, starts, draws, path, blockLen, local, prices, t - 1);
      var r := lib.residuals[SourceOf(starts, draws, path, t - 1, blockLen)];
      GrownPositive(prices[t - 1], r, local);
    }
  }

  lemma GrownPositive(price: real, r: real, local: Local)
    requires price > 0.0 && local.growth(LogReturn(r, local)) > 0.0
    ensures Grown(price, r, local) > 0.0
  {
    ProductSign(price, local.growth(LogReturn(r, local)));
  }

  /** The blocks drawn cover the steps, and no fewer would. */
  lemma {:induction false} BlocksCover(nSteps: nat, blockLen: nat, b: nat)
    requires blockLen >= 1
    ensures b >= BlocksFor(nSteps, blockLen) <==> nSteps <= b * blockLen
  {
    if nSteps > blockLen {
      if b > 0 {
        BlocksCover(nSteps - blockLen, blockLen, b - 1);
        assert (b - 1) * blockLen == b * blockLen - blockLen;
      }
    } else if b > 0 {
      MultiplesUpTo(1, b, blockLen);
    }
  }
}
