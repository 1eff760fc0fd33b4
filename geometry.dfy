/**
 * Two-dimensional vectors over the reals (Unity's Vector2, without float
 * rounding) and the single step of the locomotion primitive MoveToPosition.
 */
module Geometry {

  datatype Vec = Vec(x: real, y: real)

  const Zero := Vec(0.0, 0.0)

  function Add(a: Vec, b: Vec): Vec { Vec(a.x + b.x, a.y + b.y) }

  function Sub(a: Vec, b: Vec): Vec { Vec(a.x - b.x, a.y - b.y) }

  function Scale(v: Vec, k: real): Vec { Vec(v.x * k, v.y * k) }

  /** Squared Euclidean length; `m` is the length of `v` when `IsLength(v, m)`. */
  function SquaredLength(v: Vec): real { v.x * v.x + v.y * v.y }

  predicate IsLength(v: Vec, m: real) { m >= 0.0 && m * m == SquaredLength(v) }

  /**
   * Vector2.normalized, given the vector's magnitude `m`: `v` divided by its
   * length, and the zero vector for a zero-length `v`.
   */
  function Normalized(v: Vec, m: real): Vec
  {
    if m > 0.0 then Scale(v, 1.0 / m) else Zero
  }

  /** A non-zero vector normalizes to a unit vector; a zero vector to zero. */
  lemma NormalizedIsUnit(v: Vec, m: real)
    requires IsLength(v, m)
    ensures m > 0.0 ==> IsLength(Normalized(v, m), 1.0)
    ensures m == 0.0 ==> Normalized(v, m) == Zero
  {
    if m > 0.0 {
      ScaledLength(v, m, 1.0 / m);
    }
  }

  /** The fraction of the body radius moved per tick at unit speed (0.02f). */
  const StepFactor := 0.02

  /**
   * One tick of MoveToPosition: from `pos` towards `target`, whose distance
   * is `dist`, with body radius `radius`; it moves only while farther than
   * one body radius, by radius * 0.02 * moveSpeed * gameSpeed.
   */
  function Approach(pos: Vec, target: Vec, dist: real, radius: real, moveSpeed: real, gameSpeed: real): Vec
  {
    var direction := Normalized(Sub(target, pos), dist);
    if dist > radius then Add(pos, Scale(direction, radius * StepFactor * moveSpeed * gameSpeed))
    else pos
  }

  /** Within one body radius of the target, the entity does not move. */
  lemma ArrivedStaysPut(pos: Vec, target: Vec, dist: real, radius: real, moveSpeed: real, gameSpeed: real)
    requires IsLength(Sub(target, pos), dist)
    requires dist <= radius
    ensures Approach(pos, target, dist, radius, moveSpeed, gameSpeed) == pos
  {
  }

  /**
   * Farther than one body radius, a step of length `len` (no longer than the
   * distance) leaves the entity exactly `dist - len` from the target, on the
   * line towards it.
   */
  lemma {:induction false} ApproachDistance(pos: Vec, target: Vec, dist: real, radius: real, moveSpeed: real, gameSpeed: real)
    requires IsLength(Sub(target, pos), dist)
    requires dist > radius
    requires 0.0 <= radius * StepFactor * moveSpeed * gameSpeed <= dist
    ensures IsLength(Sub(target, Approach(pos, target, dist, radius, moveSpeed, gameSpeed)),
                     dist - radius * StepFactor * moveSpeed * gameSpeed)
  {
    var len := radius * StepFactor * moveSpeed * gameSpeed;
    var d := Sub(target, pos);
    var p := Approach(pos, target, dist, radius, moveSpeed, gameSpeed);
    if dist == 0.0 {
      assert p == Add(pos, Scale(Zero, len));
    } else {
      var k := 1.0 - len / dist;
      var u := Scale(d, 1.0 / dist);
      assert p == Add(pos, Scale(u, len));
      assert u.x * len == d.x * (len / dist);
      assert u.y * len == d.y * (len / dist);
      assert Sub(target, p) == Scale(d, k);
      ScaledLength(d, dist, k);
      assert k * dist == dist - len;
    }
  }

  /** Scaling a vector of length `m` by a non-negative `k` gives length `k * m`. */
  lemma ScaledLength(v: Vec, m: real, k: real)
    requires IsLength(v, m) && k >= 0.0
    ensures IsLength(Scale(v, k), k * m)
  {
    calc {
      SquaredLength(Scale(v, k));
      (v.x * k) * (v.x * k) + (v.y * k) * (v.y * k);
      k * k * (v.x * v.x + v.y * v.y);
      (k * m) * (k * m);
    }
  }

  /** Entity at (0,0) with radius 1 and speed 1 heading to (10,0): one tick puts it at (0.02,0). */
  lemma OneTickScenario()
    ensures Approach(Vec(0.0, 0.0), Vec(10.0, 0.0), 10.0, 1.0, 1.0, 1.0) == Vec(0.02, 0.0)
  {
  }
}
