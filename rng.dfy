/** The random-number source of the scripts, reduced to its contract.

    numpy's `Generator.integers(low, high)` returns an integer in the
    half-open range [low, high).  The generator itself is not modelled:
    every draw is an arbitrary natural number `u`, and `Integers` maps it
    into the range.  Every value of the range is reachable, so facts that
    hold for all `u` hold for every possible draw. */
module Rng {

  /** The value numpy hands back for the raw draw `u`. */
  function Integers(lo: int, hi: int, u: nat): (r: int)
    requires lo < hi
    ensures lo <= r < hi
  {
    lo + u % (hi - lo)
  }

  /** Every value of [lo, hi) is produced by some draw. */
  lemma IntegersCovers(lo: int, hi: int, r: int)
    requires lo <= r < hi
    ensures Integers(lo, hi, r - lo) == r
  {
    assert (r - lo) % (hi - lo) == r - lo;
  }
}
