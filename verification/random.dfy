/** The model's only source of randomness.

    The simulation calls `Math.random()` through `getRandomIntLessThan`
    only.  Here the successive results of `Math.random()` are an injected
    stream, and every operation that draws takes a cursor into it and
    returns the advanced cursor, so a run is a pure function of
    (state, stream, cursor). */
module Random {

  /** One result of `Math.random()`: a real number in [0, 1). */
  type Unit = r: real | 0.0 <= r < 1.0

  /** The n-th call of `Math.random()` in a run returns `rand(n)`. */
  type Stream = nat -> Unit

  /** `getRandomIntLessThan(max)`: scale a draw by `max` and round down. */
  function RandomIntLessThan(r: Unit, max: nat): (n: int)
    ensures max > 0 ==> 0 <= n < max
    ensures max == 0 ==> n == 0
  {
    ScaledDrawBounds(r, max);
    (r * max as real).Floor
  }

  lemma ScaledDrawBounds(r: Unit, max: nat)
    ensures 0.0 <= r * max as real
    ensures max > 0 ==> r * max as real < max as real
  {
    if max > 0 {
      assert (1.0 - r) * max as real > 0.0;
    }
  }

  /** Every integer in [0, max) is the outcome of some draw, so the
      model leaves no value of the range unreachable. */
  lemma {:induction false} RandomIntReachesAll(max: nat, n: int)
    requires 0 <= n < max
    ensures 0.0 <= n as real / max as real < 1.0
    ensures RandomIntLessThan(n as real / max as real, max) == n
  {
    var r := n as real / max as real;
    assert r * max as real == n as real;
    assert (1.0 - r) * max as real > 0.0;
  }
}
