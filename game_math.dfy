/**
 * UGameMath: the scalar ramp toward a target with separate acceleration and
 * deceleration rates, snapping to the target within a tolerance.
 */
module GameMath {

  /** UE's SMALL_NUMBER, the default error tolerance of GetFloatUpdatedToTarget. */
  const SmallNumber: real := 0.00000001

  function Abs(x: real): real { if x < 0.0 then -x else x }

  function Min(a: real, b: real): real { if a <= b then a else b }

  function Max(a: real, b: real): real { if a >= b then a else b }

  /** FMath::IsNearlyEqual(A, B, Tolerance) */
  predicate IsNearlyEqual(a: real, b: real, tolerance: real) { Abs(a - b) <= tolerance }

  /** FMath::IsNearlyZero(Value, Tolerance) */
  predicate IsNearlyZero(x: real, tolerance: real) { Abs(x) <= tolerance }

  /** FGameFloatUpdate: the rate of rise toward a higher target and of fall toward a lower one. */
  datatype GameFloatUpdate = GameFloatUpdate(acceleration: real, deceleration: real)

  /** The rate the ramp uses to move from `curr` toward `target`. */
  function RateToward(curr: real, target: real, update: GameFloatUpdate): real
  {
    if target < curr then update.deceleration else update.acceleration
  }

  /**
   * One update of `curr` toward `target`: snap when within the tolerance, else move
   * by dt times the rate for the direction, never past the target.
   */
  function GetFloatUpdatedToTarget(dt: real, curr: real, target: real, update: GameFloatUpdate, tolerance: real): (r: real)
    // within the tolerance the target is reached exactly
    ensures IsNearlyEqual(target, curr, tolerance) ==> r == target
    // otherwise, below the value: one step of the deceleration, or the target when that step would pass it
    ensures !IsNearlyEqual(target, curr, tolerance) && target < curr ==>
      (curr - dt * update.deceleration >= target ==> r == curr - dt * update.deceleration) &&
      (curr - dt * update.deceleration < target ==> r == target)
    // and above it: one step of the acceleration, or the target when that step would pass it
    ensures !IsNearlyEqual(target, curr, tolerance) && target >= curr ==>
      (curr + dt * update.acceleration <= target ==> r == curr + dt * update.acceleration) &&
      (curr + dt * update.acceleration > target ==> r == target)
    // with non-negative rates it never overshoots: the result lies between curr and target
    ensures dt >= 0.0 && update.acceleration >= 0.0 && update.deceleration >= 0.0 ==>
      Min(curr, target) <= r <= Max(curr, target) && Abs(r - target) <= Abs(curr - target)
  {
    var updatedValue := curr;
    if IsNearlyEqual(target, curr, tolerance) then target
    else
      var deltaToTarget := target - curr;
      if deltaToTarget < 0.0 then Max(target, updatedValue - dt * update.deceleration)
      else Min(target, updatedValue + dt * update.acceleration)
  }

  /** The Blueprint wrapper: the same ramp with the default tolerance. */
  function K2_GetFloatUpdatedToTarget(dt: real, curr: real, target: real, update: GameFloatUpdate): (r: real)
    ensures r == GetFloatUpdatedToTarget(dt, curr, target, update, SmallNumber)
  {
    GetFloatUpdatedToTarget(dt, curr, target, update, SmallNumber)
  }

  /**
   * n equal steps added up one at a time, as a timer sums its ticks or a ramp its
   * increments.
   */
  function Repeated(n: nat, step: real): (r: real)
    ensures step >= 0.0 ==> r >= 0.0
    decreases n
  {
    if n == 0 then 0.0 else Repeated(n - 1, step) + step
  }

  /** The summed steps are n times the step. */
  lemma {:induction false} RepeatedIsProduct(n: nat, step: real)
    ensures Repeated(n, step) == (n as real) * step
    decreases n
  {
    if n > 0 {
      RepeatedIsProduct(n - 1, step);
      var k := (n - 1) as real;
      assert (k + 1.0) * step == k * step + step;
    }
  }

  /** `n` successive ramp updates with the same step, target and rates. */
  function RampIterate(n: nat, dt: real, curr: real, target: real, update: GameFloatUpdate, tolerance: real): real
    decreases n
  {
    if n == 0 then curr
    else RampIterate(n - 1, dt, GetFloatUpdatedToTarget(dt, curr, target, update, tolerance), target, update, tolerance)
  }

  /** The target is a fixed point of the ramp, however many times it is applied. */
  lemma {:induction false} RampHoldsAtTarget(n: nat, dt: real, target: real, update: GameFloatUpdate, tolerance: real)
    requires tolerance >= 0.0
    ensures RampIterate(n, dt, target, target, update, tolerance) == target
    decreases n
  {
    if n > 0 {
      assert GetFloatUpdatedToTarget(dt, target, target, update, tolerance) == target;
      RampHoldsAtTarget(n - 1, dt, target, update, tolerance);
    }
  }

  /**
   * The ramp reaches its target and stays there once n steps of the rate for the
   * direction cover the distance to it.
   */
  lemma {:induction false} RampReachesTarget(n: nat, dt: real, curr: real, target: real, update: GameFloatUpdate, tolerance: real)
    requires dt >= 0.0 && update.acceleration >= 0.0 && update.deceleration >= 0.0 && tolerance >= 0.0
    requires (n as real) * (dt * RateToward(curr, target, update)) >= Abs(target - curr)
    ensures RampIterate(n, dt, curr, target, update, tolerance) == target
    decreases n
  {
    if n == 0 {
      assert curr == target;
    } else {
      var next := GetFloatUpdatedToTarget(dt, curr, target, update, tolerance);
      var step := dt * RateToward(curr, target, update);
      assert ((n - 1) as real) * step == (n as real) * step - step;
      if next == target {
        RampHoldsAtTarget(n - 1, dt, target, update, tolerance);
      } else if target < curr {
        assert next == curr - step;
        assert RateToward(next, target, update) == RateToward(curr, target, update);
        RampReachesTarget(n - 1, dt, next, target, update, tolerance);
      } else {
        assert next == curr + step;
        assert RateToward(next, target, update) == RateToward(curr, target, update);
        RampReachesTarget(n - 1, dt, next, target, update, tolerance);
      }
    }
  }

  /**
   * While n steps of the deceleration stay above the target by more than the tolerance
   * (all but the last) and do not pass it (the last), the ramp falls by exactly n steps.
   */
  lemma {:induction false} RampDescendsAtRate(n: nat, dt: real, curr: real, target: real, update: GameFloatUpdate, tolerance: real)
    requires dt >= 0.0 && update.deceleration >= 0.0 && tolerance >= 0.0
    requires curr - Repeated(n, dt * update.deceleration) >= target
    requires n == 0 || curr - Repeated(n - 1, dt * update.deceleration) > target + tolerance
    ensures RampIterate(n, dt, curr, target, update, tolerance) == curr - Repeated(n, dt * update.deceleration)
    decreases n
  {
    if n > 0 {
      var step := dt * update.deceleration;
      assert step >= 0.0;
      assert Repeated(n, step) == Repeated(n - 1, step) + step;
      assert Repeated(n - 1, step) >= 0.0;
      assert curr - target > tolerance && !IsNearlyEqual(target, curr, tolerance);
      assert n - 1 == 0 || Repeated(n - 1, step) == Repeated(n - 2, step) + step;
      assert target < curr && curr - step >= target;
      var next := GetFloatUpdatedToTarget(dt, curr, target, update, tolerance);
      assert next == curr - step;
      RampDescendsAtRate(n - 1, dt, next, target, update, tolerance);
    }
  }

  /**
   * While n steps of the acceleration stay below the target by more than the tolerance
   * (all but the last) and do not pass it (the last), the ramp rises by exactly n steps.
   */
  lemma {:induction false} RampAscendsAtRate(n: nat, dt: real, curr: real, target: real, update: GameFloatUpdate, tolerance: real)
    requires dt >= 0.0 && update.acceleration >= 0.0
    requires curr + Repeated(n, dt * update.acceleration) <= target
    requires n == 0 || curr + Repeated(n - 1, dt * update.acceleration) < target - tolerance
    ensures RampIterate(n, dt, curr, target, update, tolerance) == curr + Repeated(n, dt * update.acceleration)
    decreases n
  {
    if n > 0 {
      var step := dt * update.acceleration;
      assert step >= 0.0;
      assert Repeated(n, step) == Repeated(n - 1, step) + step;
      assert Repeated(n - 1, step) >= 0.0;
      assert target - curr > tolerance && !IsNearlyEqual(target, curr, tolerance);
      assert n - 1 == 0 || Repeated(n - 1, step) == Repeated(n - 2, step) + step;
      var next := GetFloatUpdatedToTarget(dt, curr, target, update, tolerance);
      assert next == curr + step;
      RampAscendsAtRate(n - 1, dt, next, target, update, tolerance);
    }
  }

  /** From 0 toward 100 at rates 50 up and 30 down: 50 after one second, 100 after two, then held. */
  lemma TrackingRampExample()
    ensures GetFloatUpdatedToTarget(1.0, 0.0, 100.0, GameFloatUpdate(50.0, 30.0), SmallNumber) == 50.0
    ensures GetFloatUpdatedToTarget(1.0, 50.0, 100.0, GameFloatUpdate(50.0, 30.0), SmallNumber) == 100.0
    ensures RampIterate(5, 1.0, 100.0, 100.0, GameFloatUpdate(50.0, 30.0), SmallNumber) == 100.0
  {
    RampHoldsAtTarget(5, 1.0, 100.0, GameFloatUpdate(50.0, 30.0), SmallNumber);
  }
}
