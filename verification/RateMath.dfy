/** Refill arithmetic shared by the Redis bucket and the in-process limiter. */
module RateMath {

  datatype Policy = Policy(rate: real, burst: int) {
    predicate Valid() {
      rate > 0.0 && burst > 0
    }
  }

  function Refill(p: Policy, tokens: real, seconds: real): real {
    if tokens + seconds * p.rate < p.burst as real then tokens + seconds * p.rate else p.burst as real
  }

  function Ceil(x: real): int {
    -((-x).Floor)
  }

  const MIN_INT64 := -0x8000_0000_0000_0000
  const MAX_INT64 := 0x7FFF_FFFF_FFFF_FFFF

  type Int64 = x: int | MIN_INT64 <= x <= MAX_INT64

  /** What is left of an integer result in 64 bits. */
  function Wrap64(x: int): (y: Int64)
    ensures MIN_INT64 <= x <= MAX_INT64 ==> y == x
  {
    (x - MIN_INT64) % 0x1_0000_0000_0000_0000 + MIN_INT64
  }

  /** The conversion of a nonnegative float; beyond the range Go leaves the value to the platform. */
  function ToInt64(x: real, wild: Int64): Int64
    requires x >= 0.0
  {
    if x.Floor <= MAX_INT64 then x.Floor else wild
  }

  /** Refilling twice is refilling once for the total time, in spite of the cap. */
  lemma RefillComposes(p: Policy, tokens: real, s: real, t: real)
    requires p.rate >= 0.0 && s >= 0.0 && t >= 0.0
    ensures Refill(p, Refill(p, tokens, s), t) == Refill(p, tokens, s + t)
  {
    assert (s + t) * p.rate == s * p.rate + t * p.rate;
    assert t * p.rate >= 0.0;
  }

  lemma RefillBounds(p: Policy, tokens: real, seconds: real)
    requires p.Valid() && 0.0 <= tokens <= p.burst as real && seconds >= 0.0
    ensures tokens <= Refill(p, tokens, seconds) <= p.burst as real
  {
    assert seconds * p.rate >= 0.0;
  }
}
