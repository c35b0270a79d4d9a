/** Counting the numbers below a bound for which something holds. */
module Counting {

  lemma OneMoreHit(hit: nat -> bool, n: nat)
    ensures |set k: nat | k < n + 1 && hit(k)| == |set k: nat | k < n && hit(k)| + if hit(n) then 1 else 0
  {
    var before, all := set k: nat | k < n && hit(k), set k: nat | k < n + 1 && hit(k);
    assert all == before + if hit(n) then {n} else {};
  }
}
