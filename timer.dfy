/**
 * The accumulate-then-reset timer shared by RandomMovement and
 * MoveToClosestEntity: the timer grows by the scaled frame time and, once
 * it exceeds the period, is reset to zero and the periodic action runs.
 */
module Timer {

  datatype Tick = Tick(timer: real, fired: bool)

  /** One frame: add `elapsed` (Time.deltaTime * gameSpeed) and fire when the total exceeds `period`. */
  function Advance(timer: real, elapsed: real, period: real): Tick
  {
    var total := timer + elapsed;
    if total > period then Tick(0.0, true) else Tick(total, false)
  }

  /** The timer after a run of frames, and how many times it fired. */
  datatype Run = Run(timer: real, fires: nat)

  function RunTimer(timer: real, elapsed: seq<real>, period: real): Run
    decreases elapsed
  {
    if elapsed == [] then Run(timer, 0)
    else
      var t := Advance(timer, elapsed[0], period);
      var r := RunTimer(t.timer, elapsed[1..], period);
      if t.fired then r.(fires := r.fires + 1) else r
  }

  function Sum(xs: seq<real>): real
    decreases xs
  {
    if xs == [] then 0.0 else xs[0] + Sum(xs[1..])
  }

  /**
   * Each firing consumes more than one period of accumulated time, so the
   * action runs at most once per period: fires · period plus what is left
   * on the timer never exceeds the time accumulated.
   */
  lemma {:induction false} AtMostOncePerPeriod(timer: real, elapsed: seq<real>, period: real)
    ensures var r := RunTimer(timer, elapsed, period);
      r.fires as real * period + r.timer <= timer + Sum(elapsed)
    decreases elapsed
  {
    if elapsed != [] {
      var t := Advance(timer, elapsed[0], period);
      AtMostOncePerPeriod(t.timer, elapsed[1..], period);
    }
  }

  /**
   * With a non-negative period and non-negative frame times, a timer that
   * starts within [0, period] stays there.
   */
  lemma {:induction false} StaysWithinPeriod(timer: real, elapsed: seq<real>, period: real)
    requires 0.0 <= timer <= period
    requires forall i :: 0 <= i < |elapsed| ==> elapsed[i] >= 0.0
    ensures 0.0 <= RunTimer(timer, elapsed, period).timer <= period
    decreases elapsed
  {
    if elapsed != [] {
      var t := Advance(timer, elapsed[0], period);
      StaysWithinPeriod(t.timer, elapsed[1..], period);
    }
  }
}
