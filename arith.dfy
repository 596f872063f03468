/** Two facts about multiplication and Euclidean remainder used by the divisibility proofs. */
module Arith {

  lemma MulBounds(k: int, e: int)
    requires k > 0
    ensures e >= 1 ==> k * e >= k
    ensures e <= -1 ==> k * e <= -k
  {
  }

  lemma ModMultiple(k: int, m: int)
    requires k > 0
    ensures (k * m) % k == 0
  {
    var d, r := (k * m) / k, (k * m) % k;
    assert k * m == k * d + r && 0 <= r < k;
    assert r == k * (m - d);
    MulBounds(k, m - d);
  }
}
