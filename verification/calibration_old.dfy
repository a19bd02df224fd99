/**
 * useCalibratedMagnetometerOLD.js: the earlier calibration hook, driven by
 * raw magnetometer readings `(x, y)` instead of a fused compass heading.
 * Apart from skipping the zero vector it is the same state machine as
 * `Calibration`, which this module shows by translating its events.
 */
module CalibrationOld {
  import opened Wrappers
  import C = Calibration

  /**
   * The events of the old hook. A magnetometer reading carries its field
   * components and the angle `Math.atan2(y, x) * (180 / Math.PI)` the
   * callback derives from them.
   */
  datatype Event = Calibrate | Field(x: real, y: real, angle: real) | Finish | Timeout(id: nat)

  /** `x === 0 && y === 0`: a reading both subscriptions return on at once. */
  predicate ZeroField(e: Event) {
    e.Field? && e.x == 0.0 && e.y == 0.0
  }

  /**
   * The angle lies in the range `Math.atan2` returns, scaled to degrees:
   * [-180, 180], where -180 comes from a y of -0 with a negative x.
   */
  predicate Atan2Range(e: Event) {
    e.Field? ==> -180.0 <= e.angle <= 180.0
  }

  /** The current hook's event for a non-zero reading of the old one. */
  function Translate(e: Event): (t: C.Event)
    requires !ZeroField(e)
    ensures e.Field? <==> t.Sample?
    ensures e.Field? ==> t.reading == e.angle
    ensures Atan2Range(e) ==> C.Reading(t)
  {
    match e
    case Calibrate => C.Calibrate
    case Field(_, _, angle) => C.Sample(angle)
    case Finish => C.Finish
    case Timeout(id) => C.Timeout(id)
  }

  /**
   * One event of the old hook. The zero vector changes nothing; while
   * calibrating, a reading may only append its normalised angle; after
   * calibration it sets the heading relative to the offset.
   */
  function Step(s: C.State, e: Event): (r: C.State)
    ensures ZeroField(e) ==> r == s
    ensures e.Field? && !ZeroField(e) && s.timer.Some? ==>
              r.samples == s.samples || r.samples == s.samples + [C.Adjust(e.angle)]
    ensures e.Field? && !ZeroField(e) && s.timer.None? && !s.calibrating ==>
              r.heading == Some(C.Adjust(e.angle) - s.offset)
    ensures e.Field? ==> r.offset == s.offset && r.calibrating == s.calibrating
  {
    if ZeroField(e) then s else C.Step(s, Translate(e))
  }

  function Run(s: C.State, events: seq<Event>): C.State
    decreases |events|
  {
    if |events| == 0 then s else Run(Step(s, events[0]), events[1..])
  }

  /** The old hook's events with the zero vectors dropped and the rest translated. */
  function TranslateAll(events: seq<Event>): (ts: seq<C.Event>)
    ensures |ts| <= |events|
    ensures (forall i :: 0 <= i < |events| ==> Atan2Range(events[i])) ==> forall j :: 0 <= j < |ts| ==> C.Reading(ts[j])
    decreases |events|
  {
    if |events| == 0 then []
    else if ZeroField(events[0]) then TranslateAll(events[1..])
    else [Translate(events[0])] + TranslateAll(events[1..])
  }

  /** Any run of the old hook ends where the current hook ends on the translated events. */
  lemma {:induction false} RunMatchesCurrent(s: C.State, events: seq<Event>)
    ensures Run(s, events) == C.Run(s, TranslateAll(events))
    decreases |events|
  {
    if |events| > 0 {
      RunMatchesCurrent(Step(s, events[0]), events[1..]);
      if !ZeroField(events[0]) {
        var ts := [Translate(events[0])] + TranslateAll(events[1..]);
        assert ts[0] == Translate(events[0]) && ts[1..] == TranslateAll(events[1..]);
      }
    }
  }

  /** So the old hook keeps the same invariant. */
  lemma RunPreservesValid(s: C.State, events: seq<Event>)
    requires C.Valid(s)
    ensures C.Valid(Run(s, events))
  {
    RunMatchesCurrent(s, events);
    C.RunPreservesValid(s, TranslateAll(events));
  }

  /**
   * Angles from `Math.atan2` always normalise into [0, 360), so the
   * samples and the offset stay there and calibrated headings lie in
   * (-360, 360).
   */
  lemma RunPreservesCanonical(s: C.State, events: seq<Event>)
    requires C.Canonical(s)
    requires forall i :: 0 <= i < |events| ==> Atan2Range(events[i])
    ensures C.Canonical(Run(s, events))
  {
    RunMatchesCurrent(s, events);
    C.RunPreservesCanonical(s, TranslateAll(events));
  }
}
