/**
 * The random draws of RandomMovement. Each draw is given as a unit value
 * u in [0, 1] (Random.value itself); Random.Range(lo, hi) is lo + u·(hi − lo).
 */
module Wander {
  import opened Geometry

  /** Below this decision value the entity holds still for the cycle. */
  const MoveThreshold := 0.4

  function RandomRange(lo: real, hi: real, u: real): (r: real)
    requires 0.0 <= u <= 1.0
    ensures lo <= hi ==> lo <= r <= hi
    ensures hi <= lo ==> hi <= r <= lo
  {
    var step := u * (hi - lo);
    FractionBetween(hi - lo, u, step);
    lo + step
  }

  lemma FractionBetween(w: real, u: real, p: real)
    requires 0.0 <= u <= 1.0 && p == u * w
    ensures w >= 0.0 ==> 0.0 <= p <= w
    ensures w <= 0.0 ==> w <= p <= 0.0
  {
    var q := (1.0 - u) * w;
    assert p + q == w;
    if w >= 0.0 {
      NonNegativeProduct(u, w);
      NonNegativeProduct(1.0 - u, w);
    } else {
      NonNegativeProduct(u, -w);
      NonNegativeProduct(1.0 - u, -w);
      assert u * (-w) == -p;
      assert (1.0 - u) * (-w) == -q;
    }
  }

  lemma NonNegativeProduct(a: real, b: real)
    requires a >= 0.0 && b >= 0.0
    ensures a * b >= 0.0
  {
  }

  /** The length of the next cycle: in [0.5, 2] for a hold, in [0.5, 3] for a walk. */
  function NextDelay(action: real, u: real): (d: real)
    requires 0.0 <= u <= 1.0
    ensures 0.5 <= d
    ensures action < MoveThreshold ==> d <= 2.0
    ensures action >= MoveThreshold ==> d <= 3.0
  {
    if action < MoveThreshold then RandomRange(0.5, 2.0, u) else RandomRange(0.5, 3.0, u)
  }

  function Abs(x: real): real { if x < 0.0 then -x else x }

  /**
   * The next wander target: each coordinate drawn independently within
   * localScale · moveSpeed of the current position on that axis.
   */
  function NextTarget(pos: Vec, scale: Vec, moveSpeed: real, ux: real, uy: real): (p: Vec)
    requires 0.0 <= ux <= 1.0 && 0.0 <= uy <= 1.0
    ensures Abs(p.x - pos.x) <= Abs(scale.x * moveSpeed)
    ensures Abs(p.y - pos.y) <= Abs(scale.y * moveSpeed)
  {
    Vec(RandomRange(pos.x - scale.x * moveSpeed, pos.x + scale.x * moveSpeed, ux),
        RandomRange(pos.y - scale.y * moveSpeed, pos.y + scale.y * moveSpeed, uy))
  }
}
