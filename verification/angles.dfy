/**
 * Angle arithmetic of App.tsx: the true-heading / bearing formula, the
 * display smoother's shortest-arc exponential step, and the longitude wrap
 * inside `getDestinationPoint`. Angles are exact reals; JavaScript's `%` is
 * `JsNumber.Rem`.
 */
module Angles {
  import opened JsNumber

  /** `Math.PI`, written out to the digits JavaScript prints. */
  const Pi: real := 3.141592653589793

  /** The smoothing factor of the display smoother (App.tsx, `alpha`). */
  const Alpha: real := 0.18

  /**
   * `(heading + declination + 360) % 360`: the true heading, and also the
   * bearing the search projects along.
   */
  function TrueHeading(heading: real, declination: real): (r: real)
    ensures -360.0 <= heading + declination ==> 0.0 <= r < 360.0
    ensures heading + declination < -360.0 ==> -360.0 < r <= 0.0
  {
    Rem(heading + declination + 360.0, 360.0)
  }

  /** A sum already in [0, 360) comes back unchanged. */
  lemma TrueHeadingFixesCanonical(heading: real, declination: real)
    ensures 0.0 <= heading + declination < 360.0 ==> TrueHeading(heading, declination) == heading + declination
  {
    if 0.0 <= heading + declination < 360.0 {
      RemOfDecomposition(heading + declination + 360.0, 360.0, 1, heading + declination);
    }
  }

  /**
   * The formula does not normalise a sum below -360: a calibrated heading of
   * -358.5 (reading 0.5 against an offset of 359) with a declination of -5
   * gives the negative bearing -3.5.
   */
  lemma TrueHeadingCanBeNegative()
    ensures TrueHeading(-358.5, -5.0) == -3.5
  {
    assert Trunc(-3.5 / 360.0) == 0;
  }

  /** `((target - prev + 540) % 360) - 180`, the smoother's signed shortest-arc delta. */
  function ShortestArc(target: real, prev: real): (d: real)
    ensures -540.0 <= target - prev ==> -180.0 <= d < 180.0
  {
    Rem(target - prev + 540.0, 360.0) - 180.0
  }

  /** From 350 degrees to 10 degrees the shortest arc is +20, not -340. */
  lemma ShortestArcAcrossNorth()
    ensures ShortestArc(10.0, 350.0) == 20.0
  {
    RemOfDecomposition(200.0, 360.0, 0, 200.0);
  }

  /**
   * One 50 ms tick of the display smoother: step `alpha` of the shortest arc
   * towards `target`, then `((next % 360) + 360) % 360`.
   */
  function SmoothStep(prev: real, target: real): (next: real)
    ensures 0.0 <= next < 360.0
  {
    var raw := prev + Alpha * ShortestArc(target, prev);
    Rem(Rem(raw, 360.0) + 360.0, 360.0)
  }

  /** A displayed angle already at its target stays there. */
  lemma SmoothStepFixedPoint(angle: real)
    requires 0.0 <= angle < 360.0
    ensures ShortestArc(angle, angle) == 0.0
    ensures SmoothStep(angle, angle) == angle
  {
    RemOfDecomposition(540.0, 360.0, 1, 180.0);
    RemOfDecomposition(angle, 360.0, 0, angle);
    RemOfDecomposition(angle + 360.0, 360.0, 1, angle);
  }

  /**
   * Each tick shrinks the signed shortest-arc gap to the target by exactly
   * the factor 1 - alpha = 0.82, keeping its sign: the smoother converges
   * along the short way round and never overshoots.
   */
  lemma SmoothStepContracts(prev: real, target: real)
    requires 0.0 <= prev < 360.0 && 0.0 <= target < 360.0
    ensures ShortestArc(target, SmoothStep(prev, target)) == 0.82 * ShortestArc(target, prev)
  {
    var d, next, k1, k2, k3, inner := StepInTurns(prev, target);
    var j := GapAfterStep(target, prev, d, inner, next, k1, k2, k3);
    RemOfDecomposition(target - next + 540.0, 360.0, j, 0.82 * d + 180.0);
  }

  /** One tick with each `%` written as its argument less whole turns. */
  lemma StepInTurns(prev: real, target: real) returns (d: real, next: real, k1: int, k2: int, k3: int, inner: real)
    requires 0.0 <= prev < 360.0 && 0.0 <= target < 360.0
    ensures d == ShortestArc(target, prev) && next == SmoothStep(prev, target)
    ensures d + 180.0 == target - prev + 540.0 - 360.0 * k1 as real
    ensures inner == prev + Alpha * d - 360.0 * k2 as real
    ensures next == inner + 360.0 - 360.0 * k3 as real
  {
    d := ShortestArc(target, prev);
    k1 := RemMultiple(target - prev + 540.0, 360.0);
    next, k2, k3, inner := TickInTurns(prev, d);
  }

  /** The wrap of one tick, `((raw % 360) + 360) % 360`, in whole turns. */
  lemma TickInTurns(prev: real, d: real) returns (next: real, k2: int, k3: int, inner: real)
    ensures next == Rem(Rem(prev + Alpha * d, 360.0) + 360.0, 360.0)
    ensures inner == prev + Alpha * d - 360.0 * k2 as real
    ensures next == inner + 360.0 - 360.0 * k3 as real
  {
    var raw := prev + Alpha * d;
    inner := Rem(raw, 360.0);
    next := Rem(inner + 360.0, 360.0);
    k2 := RemMultiple(raw, 360.0);
    k3 := RemMultiple(inner + 360.0, 360.0);
  }

  /**
   * The bookkeeping behind `SmoothStepContracts`: with each `%` written as
   * its argument less whole turns, the new gap plus 540 is a whole number of
   * turns plus 0.82 of the old gap plus 180.
   */
  lemma GapAfterStep(target: real, prev: real, d: real, inner: real, next: real, k1: int, k2: int, k3: int) returns (j: int)
    requires 0.0 <= target < 360.0 && 0.0 <= next < 360.0 && -180.0 <= d < 180.0
    requires d + 180.0 == target - prev + 540.0 - 360.0 * k1 as real
    requires inner == prev + Alpha * d - 360.0 * k2 as real
    requires next == inner + 360.0 - 360.0 * k3 as real
    ensures 0 <= j
    ensures target - next + 540.0 == 360.0 * j as real + (0.82 * d + 180.0)
  {
    j := k1 + k2 + k3 - 1;
  }

  /** `((lon + 3 * Math.PI) % (2 * Math.PI)) - Math.PI`, the longitude wrap in radians. */
  function WrapLongitude(lon: real): (r: real)
    ensures -3.0 * Pi <= lon ==> -Pi <= r < Pi
  {
    Rem(lon + 3.0 * Pi, 2.0 * Pi) - Pi
  }

  /** A longitude already in [-pi, pi) is left where it is. */
  lemma WrapLongitudeFixesCanonical(lon: real)
    ensures -Pi <= lon < Pi ==> WrapLongitude(lon) == lon
  {
    if -Pi <= lon < Pi {
      RemOfDecomposition(lon + 3.0 * Pi, 2.0 * Pi, 1, lon + Pi);
    }
  }

  /** The wrap moves a longitude by a whole number of turns. */
  lemma WrapLongitudeWholeTurns(lon: real)
    ensures WrapLongitude(lon) == lon + 2.0 * Pi * (1 - Trunc((lon + 3.0 * Pi) / (2.0 * Pi))) as real
  {
    var k := RemMultiple(lon + 3.0 * Pi, 2.0 * Pi);
  }
}
