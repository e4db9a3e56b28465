/** Step b * blockLen + j is step j of block b. */
module Blocks {
  lemma BlockOf(b: nat, j: nat, blockLen: nat)
    requires j < blockLen
    ensures (b * blockLen + j) / blockLen == b && (b * blockLen + j) % blockLen == j
  {
    var q := (b * blockLen + j) / blockLen;
    if q < b {
      MultiplesApart(q, b, blockLen);
    } else if q > b {
      MultiplesApart(b, q, blockLen);
    }
  }

  lemma {:induction false} MultiplesApart(x: nat, y: nat, blockLen: nat)
    requires x < y
    ensures y * blockLen >= x * blockLen + blockLen
  {
    assert y * blockLen == (y - 1) * blockLen + blockLen;
    if x + 1 < y { MultiplesApart(x, y - 1, blockLen); }
  }

  lemma MultiplesUpTo(x: nat, y: nat, blockLen: nat)
    requires x <= y
    ensures x * blockLen <= y * blockLen
  {
  }
}
