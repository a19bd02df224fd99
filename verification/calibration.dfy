/**
 * useCalibratedMagnetometer.js: the compass calibration hook as a state
 * machine. While calibrating, every sensor reading that moved far enough
 * from the last accepted one is kept; finishing (by hand or by the
 * ten-second timer) sets the offset to the mean of the kept readings;
 * afterwards every reading becomes a calibrated heading relative to that
 * offset.
 */
module Calibration {
  import opened Wrappers
  import opened JsNumber

  /** `movementThreshold`: degrees a reading must move to be kept. */
  const MovementThreshold: real := 2.0

  /** The message shown while calibrating. */
  const CalibratingMessage: string := "Калибровка..."

  /**
   * The hook's state: `samplesRef`, `lastAngleRef`, `sampleCount`,
   * `isCalibrating`, `calibrationOffset`, `calibrationMessage`,
   * `calibratedHeading`, and the pending ten-second timeout. A timeout is
   * named by the id it was armed with; `nextTimer` is the next fresh id.
   * The sensor subscription used for calibration exists exactly while a
   * timeout is pending, since both are made and dropped together.
   */
  datatype State = State(
    samples: seq<real>,
    last: Option<real>,
    count: nat,
    calibrating: bool,
    offset: real,
    message: string,
    heading: Option<real>,
    timer: Option<nat>,
    nextTimer: nat)

  /**
   * What drives the hook: a call of `calibrate`, one compass reading in
   * degrees, a call of `finishCalibration`, and the expiry of the timeout
   * armed with the given id.
   */
  datatype Event = Calibrate | Sample(reading: real) | Finish | Timeout(id: nat)

  /** `(heading + 360) % 360` with JavaScript's remainder. */
  function Adjust(h: real): (a: real)
    ensures -360.0 < a < 360.0
    ensures -360.0 <= h ==> 0.0 <= a < 360.0
    ensures 0.0 <= h < 360.0 ==> a == h
  {
    AdjustFixesCanonical(h);
    Rem(h + 360.0, 360.0)
  }

  lemma AdjustFixesCanonical(h: real)
    ensures 0.0 <= h < 360.0 ==> Rem(h + 360.0, 360.0) == h
  {
    if 0.0 <= h < 360.0 {
      RemOfDecomposition(h + 360.0, 360.0, 1, h);
    }
  }

  /** A reading is kept when nothing was kept yet or it moved at least the threshold. */
  predicate Accepts(last: Option<real>, a: real) {
    last.None? || Abs(a - last.value) >= MovementThreshold
  }

  /** `reduce((a, b) => a + b, 0)`: the running sum from the left. */
  function Sum(xs: seq<real>): real
    decreases |xs|
  {
    if |xs| == 0 then 0.0 else Sum(xs[..|xs| - 1]) + xs[|xs| - 1]
  }

  /** The average `reduce(...) / length`: the value that, taken once per sample, gives the total. */
  function Mean(xs: seq<real>): (r: real)
    requires |xs| > 0
    ensures |xs| as real * r == Sum(xs)
  {
    Cancel(Sum(xs), |xs| as real);
    Sum(xs) / |xs| as real
  }

  /** Readings that are all `x` add up to `x` once per reading. */
  lemma {:induction false} SumOfSteady(xs: seq<real>, x: real)
    requires forall i :: 0 <= i < |xs| ==> xs[i] == x
    ensures Sum(xs) == |xs| as real * x
    decreases |xs|
  {
    if |xs| > 0 {
      var init := xs[..|xs| - 1];
      SumOfSteady(init, x);
      assert |xs| as real * x == |init| as real * x + x;
    }
  }

  /** A phone held still through calibration is offset by exactly its reading. */
  lemma MeanOfSteady(xs: seq<real>, x: real)
    requires |xs| > 0
    requires forall i :: 0 <= i < |xs| ==> xs[i] == x
    ensures Mean(xs) == x
  {
    SumOfSteady(xs, x);
    var n := |xs| as real;
    assert n * Mean(xs) == n * x;
    Unscale(Mean(xs), x, n);
  }

  /** Equal multiples of a positive factor have equal factors. */
  lemma Unscale(a: real, b: real, n: real)
    requires n > 0.0 && n * a == n * b
    ensures a == b
  {
    Scale(a, b, n);
    Scale(b, a, n);
  }

  /** The offset `finishCalibration` stores: the mean of the samples, or 0 when there are none. */
  function OffsetOf(xs: seq<real>): (m: real)
    ensures (forall i :: 0 <= i < |xs| ==> 0.0 <= xs[i] < 360.0) ==> 0.0 <= m < 360.0
    ensures (forall i :: 0 <= i < |xs| ==> -360.0 < xs[i] < 360.0) ==> -360.0 < m < 360.0
  {
    if |xs| > 0 then
      MeanBetween(xs, 0.0, 360.0);
      MeanBetween(xs, -360.0, 360.0);
      Mean(xs)
    else 0.0
  }

  // ---------------------------------------------------------------------
  // Bounds on the mean

  lemma {:induction false} SumAbove(xs: seq<real>, lo: real)
    ensures (forall i :: 0 <= i < |xs| ==> lo <= xs[i]) ==> |xs| as real * lo <= Sum(xs)
    ensures (forall i :: 0 <= i < |xs| ==> lo < xs[i]) && |xs| > 0 ==> |xs| as real * lo < Sum(xs)
    decreases |xs|
  {
    if |xs| > 0 {
      var init := xs[..|xs| - 1];
      SumAbove(init, lo);
      assert forall i :: 0 <= i < |init| ==> init[i] == xs[i];
      assert |xs| as real * lo == |init| as real * lo + lo;
    }
  }

  lemma {:induction false} SumBelow(xs: seq<real>, hi: real)
    ensures (forall i :: 0 <= i < |xs| ==> xs[i] <= hi) ==> Sum(xs) <= |xs| as real * hi
    ensures (forall i :: 0 <= i < |xs| ==> xs[i] < hi) && |xs| > 0 ==> Sum(xs) < |xs| as real * hi
    decreases |xs|
  {
    if |xs| > 0 {
      var init := xs[..|xs| - 1];
      SumBelow(init, hi);
      assert forall i :: 0 <= i < |init| ==> init[i] == xs[i];
      assert |xs| as real * hi == |init| as real * hi + hi;
    }
  }

  /** Dividing a bound on `n * m` by the positive `n`. */
  lemma DivideBounds(total: real, n: real, b: real)
    requires n > 0.0
    ensures n * b <= total ==> b <= total / n
    ensures n * b < total ==> b < total / n
    ensures total <= n * b ==> total / n <= b
    ensures total < n * b ==> total / n < b
  {
    var m := total / n;
    assert total == n * m;
    Scale(m, b, n);
    Scale(b, m, n);
  }

  /** The mean of readings between two bounds lies between them, with the same strictness. */
  lemma MeanBetween(xs: seq<real>, lo: real, hi: real)
    requires |xs| > 0
    ensures (forall i :: 0 <= i < |xs| ==> lo <= xs[i] < hi) ==> lo <= Mean(xs) < hi
    ensures (forall i :: 0 <= i < |xs| ==> lo < xs[i] < hi) ==> lo < Mean(xs) < hi
    ensures (forall i :: 0 <= i < |xs| ==> lo <= xs[i] <= hi) ==> lo <= Mean(xs) <= hi
  {
    SumAbove(xs, lo);
    SumBelow(xs, hi);
    DivideBounds(Sum(xs), |xs| as real, lo);
    DivideBounds(Sum(xs), |xs| as real, hi);
  }

  // ---------------------------------------------------------------------
  // The operations

  /** The state before the mount effect: calibrating, nothing collected, no timeout yet. */
  function Initial(): (r: State)
    ensures r.heading.None? && r.offset == 0.0 && r.calibrating && r.message == "" && r.count == 0
    ensures r.timer.None? && Valid(StartCalibration(r))
  {
    State([], None, 0, true, 0.0, "", None, None, 0)
  }

  /**
   * `calibrate`: drops any pending timeout and the samples, shows the
   * calibrating message and arms a fresh timeout. The offset and the last
   * calibrated heading are left as they were.
   */
  function StartCalibration(s: State): (r: State)
    ensures r.samples == [] && r.last.None? && r.count == 0
    ensures r.calibrating && r.message == CalibratingMessage
    ensures r.offset == s.offset && r.heading == s.heading
    ensures r.timer.Some? && r.timer.value < r.nextTimer
    ensures s.timer.Some? && s.timer.value < s.nextTimer ==> r.timer != s.timer
    ensures r.nextTimer > s.nextTimer
  {
    s.(samples := [], last := None, count := 0, calibrating := true, message := CalibratingMessage,
       timer := Some(s.nextTimer), nextTimer := s.nextTimer + 1)
  }

  /**
   * The calibration subscription's callback: a reading that moved at least
   * the threshold from the last kept one is appended and becomes the last
   * one, and the count follows the number of samples; any other reading
   * changes nothing. The count is not capped.
   */
  function Collect(s: State, h: real): (r: State)
    ensures Accepts(s.last, Adjust(h)) ==> r == s.(samples := r.samples, last := r.last, count := r.count)
    ensures Accepts(s.last, Adjust(h)) ==> r.samples == s.samples + [Adjust(h)] && r.last == Some(Adjust(h)) && r.count == |r.samples|
    ensures !Accepts(s.last, Adjust(h)) ==> r == s
  {
    var a := Adjust(h);
    if Accepts(s.last, a) then
      s.(samples := s.samples + [a], last := Some(a), count := |s.samples| + 1)
    else s
  }

  /**
   * `finishCalibration`: drops the pending timeout, stores the offset and
   * leaves calibration mode. The samples stay, so finishing again stores
   * the same offset.
   */
  function FinishCalibration(s: State): (r: State)
    ensures !r.calibrating && r.message == "" && r.timer.None?
    ensures r.samples == s.samples && r.last == s.last && r.count == s.count && r.heading == s.heading
    ensures |s.samples| == 0 ==> r.offset == 0.0
    ensures |s.samples| > 0 ==> r.offset == Mean(s.samples)
  {
    s.(offset := OffsetOf(s.samples), calibrating := false, message := "", timer := None)
  }

  /** The compass subscription after calibration: the heading relative to the offset, not normalised. */
  function Track(s: State, h: real): (r: State)
    ensures r.heading.Some? && r.heading.value + s.offset == Adjust(h)
    ensures r == s.(heading := r.heading)
  {
    s.(heading := Some(Adjust(h) - s.offset))
  }

  /**
   * One event. A reading is collected while the calibration subscription
   * exists and tracked once calibration is over; a timeout fires only if
   * it is the one still pending.
   */
  function Step(s: State, e: Event): (r: State)
    ensures e.Sample? ==> r.calibrating == s.calibrating && r.offset == s.offset && r.timer == s.timer && r.message == s.message
    ensures e.Sample? && s.timer.None? ==> r.samples == s.samples
    ensures e.Sample? && s.calibrating ==> r.heading == s.heading
    ensures !e.Sample? ==> r.heading == s.heading
    ensures e.Finish? ==> !r.calibrating && r.timer.None? && r.samples == s.samples
    ensures e.Timeout? && s.timer != Some(e.id) ==> r == s
    ensures r.nextTimer >= s.nextTimer
  {
    match e
    case Calibrate => StartCalibration(s)
    case Sample(h) =>
      if s.timer.Some? then Collect(s, h)
      else if !s.calibrating then Track(s, h)
      else s
    case Finish => FinishCalibration(s)
    case Timeout(id) => if s.timer == Some(id) then FinishCalibration(s) else s
  }

  /** The events in order. */
  function Run(s: State, events: seq<Event>): (r: State)
    ensures r.nextTimer >= s.nextTimer
    ensures (forall i :: 0 <= i < |events| ==> !events[i].Sample?) ==> r.heading == s.heading
    decreases |events|
  {
    if |events| == 0 then s else Run(Step(s, events[0]), events[1..])
  }

  /** The state once the mount effect has called `calibrate`. */
  function Mounted(): (r: State)
    ensures Valid(r) && r.calibrating && r.samples == []
  {
    Step(Initial(), Calibrate)
  }

  // ---------------------------------------------------------------------
  // The invariant

  /** Consecutive samples differ by at least the threshold. */
  ghost predicate Spread(xs: seq<real>) {
    forall i :: 0 <= i < |xs| - 1 ==> Abs(xs[i + 1] - xs[i]) >= MovementThreshold
  }

  /**
   * What holds of every state after mounting: the count and the last angle
   * follow the samples, kept samples are spread out, every angle lies in
   * (-360, 360), a timeout is pending exactly while calibrating and its id
   * was issued, and the message says whether calibration is running.
   */
  ghost predicate Valid(s: State) {
    && s.count == |s.samples|
    && (s.last.None? <==> |s.samples| == 0)
    && (s.last.Some? ==> s.last.value == s.samples[|s.samples| - 1])
    && Spread(s.samples)
    && (forall i :: 0 <= i < |s.samples| ==> -360.0 < s.samples[i] < 360.0)
    && -360.0 < s.offset < 360.0
    && (s.heading.Some? ==> -720.0 < s.heading.value < 720.0)
    && (s.calibrating <==> s.timer.Some?)
    && (s.timer.Some? ==> s.timer.value < s.nextTimer)
    && s.message == (if s.calibrating then CalibratingMessage else "")
  }

  lemma StepPreservesValid(s: State, e: Event)
    requires Valid(s)
    ensures Valid(Step(s, e))
  {
    match e
    case Sample(h) =>
      if s.timer.Some? {
        var a := Adjust(h);
        var r := Step(s, e);
        if Accepts(s.last, a) {
          assert r.samples == s.samples + [a];
          assert forall i :: 0 <= i < |s.samples| ==> r.samples[i] == s.samples[i];
        }
      }
    case _ =>
  }

  lemma {:induction false} RunPreservesValid(s: State, events: seq<Event>)
    requires Valid(s)
    ensures Valid(Run(s, events))
    decreases |events|
  {
    if |events| > 0 {
      StepPreservesValid(s, events[0]);
      RunPreservesValid(Step(s, events[0]), events[1..]);
    }
  }

  /**
   * Readings from a compass that reports degrees from -360 on keep every
   * sample and the offset in [0, 360), so calibrated headings lie in
   * (-360, 360).
   */
  ghost predicate Canonical(s: State) {
    && (forall i :: 0 <= i < |s.samples| ==> 0.0 <= s.samples[i] < 360.0)
    && 0.0 <= s.offset < 360.0
    && (s.heading.Some? ==> -360.0 < s.heading.value < 360.0)
  }

  predicate Reading(e: Event) {
    e.Sample? ==> -360.0 <= e.reading
  }

  lemma StepPreservesCanonical(s: State, e: Event)
    requires Canonical(s) && Reading(e)
    ensures Canonical(Step(s, e))
  {
    match e
    case Sample(h) =>
      if s.timer.Some? {
        var a := Adjust(h);
        var r := Step(s, e);
        if Accepts(s.last, a) {
          assert r.samples == s.samples + [a];
          assert forall i :: 0 <= i < |s.samples| ==> r.samples[i] == s.samples[i];
        }
      }
    case _ =>
  }

  lemma {:induction false} RunPreservesCanonical(s: State, events: seq<Event>)
    requires Canonical(s) && forall i :: 0 <= i < |events| ==> Reading(events[i])
    ensures Canonical(Run(s, events))
    decreases |events|
  {
    if |events| > 0 {
      StepPreservesCanonical(s, events[0]);
      RunPreservesCanonical(Step(s, events[0]), events[1..]);
    }
  }

  // ---------------------------------------------------------------------
  // Properties of single events

  /** Finishing twice is finishing once: the second call recomputes the same offset. */
  lemma FinishIdempotent(s: State)
    ensures Step(Step(s, Finish), Finish) == Step(s, Finish)
  {
  }

  /** The timeout that is still pending behaves exactly like `finishCalibration`. */
  lemma PendingTimeoutFinishes(s: State)
    requires s.timer.Some?
    ensures Step(s, Timeout(s.timer.value)) == Step(s, Finish)
  {
  }

  /**
   * A timeout armed by an earlier `calibrate` never ends a later
   * calibration: after calibrating again, the old id no longer fires.
   */
  lemma StaleTimeoutIgnored(s: State, id: nat)
    requires id < s.nextTimer
    ensures var r := Step(s, Calibrate); Step(r, Timeout(id)) == r
  {
  }

  /** Timeout `id` was armed earlier and is not the one pending. */
  ghost predicate Stale(s: State, id: nat) {
    id < s.nextTimer && s.timer != Some(id)
  }

  /** No event brings a stale timeout back: ids are never reused. */
  lemma StepKeepsStale(s: State, e: Event, id: nat)
    requires Stale(s, id)
    ensures Stale(Step(s, e), id)
  {
  }

  /**
   * A timeout armed before a `calibrate` never fires afterwards, whatever
   * readings, finishes, timeouts or further calibrates come in between.
   */
  lemma {:induction false} StaleTimeoutNeverFires(s: State, id: nat, events: seq<Event>)
    requires id < s.nextTimer
    ensures var r := Run(Step(s, Calibrate), events); Stale(r, id) && Step(r, Timeout(id)) == r
  {
    StaleAfterRun(Step(s, Calibrate), id, events);
  }

  lemma {:induction false} StaleAfterRun(s: State, id: nat, events: seq<Event>)
    requires Stale(s, id)
    ensures Stale(Run(s, events), id)
    decreases |events|
  {
    if |events| > 0 {
      StepKeepsStale(s, events[0], id);
      StaleAfterRun(Step(s, events[0]), id, events[1..]);
    }
  }

  /** After calibration a reading of `h` is reported as `h` (normalised) minus the offset. */
  lemma TrackingReportsRelativeHeading(s: State, h: real)
    requires Valid(s) && !s.calibrating
    ensures Step(s, Sample(h)).heading == Some(Adjust(h) - s.offset)
    ensures Step(s, Sample(h)).samples == s.samples
  {
  }

  // ---------------------------------------------------------------------
  // A whole calibration, described independently of the events

  /** The readings in degrees after `(h + 360) % 360`. */
  function Adjusted(hs: seq<real>): (r: seq<real>)
    ensures |r| == |hs|
    ensures forall i :: 0 <= i < |hs| ==> r[i] == Adjust(hs[i])
  {
    seq(|hs|, i requires 0 <= i < |hs| => Adjust(hs[i]))
  }

  /**
   * The readings kept from `xs` after `last`: a reading is kept when it is
   * at least the threshold away from the last kept one.
   */
  function Thin(last: Option<real>, xs: seq<real>): (kept: seq<real>)
    ensures |kept| <= |xs|
    ensures forall i :: 0 <= i < |kept| ==> kept[i] in xs
    ensures Spread(kept)
    ensures |kept| > 0 && last.Some? ==> Abs(kept[0] - last.value) >= MovementThreshold
    ensures |xs| > 0 && last.None? ==> |kept| > 0 && kept[0] == xs[0]
    decreases |xs|
  {
    if |xs| == 0 then []
    else if Accepts(last, xs[0]) then [xs[0]] + Thin(Some(xs[0]), xs[1..])
    else Thin(last, xs[1..])
  }

  /** `lastAngleRef` after keeping `kept`: the last kept reading, or `last` when none was kept. */
  function LastKept(last: Option<real>, kept: seq<real>): Option<real> {
    if |kept| > 0 then Some(kept[|kept| - 1]) else last
  }

  /**
   * `Thin` read one reading at a time, as the callback sees them: a new
   * reading is appended, after everything kept before it, exactly when it
   * is at least the threshold away from the last reading kept so far.
   */
  lemma {:induction false} ThinSnoc(last: Option<real>, xs: seq<real>, x: real)
    ensures Thin(last, xs + [x]) == Thin(last, xs) + (if Accepts(LastKept(last, Thin(last, xs)), x) then [x] else [])
    decreases |xs|
  {
    if |xs| > 0 {
      assert (xs + [x])[0] == xs[0];
      assert (xs + [x])[1..] == xs[1..] + [x];
      if Accepts(last, xs[0]) {
        ThinSnoc(Some(xs[0]), xs[1..], x);
      } else {
        ThinSnoc(last, xs[1..], x);
      }
    }
  }

  /** The events for a stream of readings. */
  function Samples(hs: seq<real>): (es: seq<Event>)
    ensures |es| == |hs|
    ensures forall i :: 0 <= i < |hs| ==> es[i] == Sample(hs[i])
  {
    seq(|hs|, i requires 0 <= i < |hs| => Sample(hs[i]))
  }

  lemma {:induction false} RunAppend(s: State, a: seq<Event>, b: seq<Event>)
    ensures Run(s, a + b) == Run(Run(s, a), b)
    decreases |a|
  {
    if |a| > 0 {
      assert (a + b)[0] == a[0];
      assert (a + b)[1..] == a[1..] + b;
      RunAppend(Step(s, a[0]), a[1..], b);
    } else {
      assert a + b == b;
    }
  }

  /**
   * While the calibration subscription exists, a stream of readings
   * appends exactly the thinned readings to the samples and changes
   * nothing but the samples, the last angle and the count.
   */
  lemma {:induction false} CollectStream(s: State, hs: seq<real>)
    requires s.timer.Some? && s.count == |s.samples|
    ensures var r := Run(s, Samples(hs));
            && r.samples == s.samples + Thin(s.last, Adjusted(hs))
            && r.count == |r.samples|
            && SameSettings(s, r)
    decreases |hs|
  {
    if |hs| > 0 {
      var t := Collect(s, hs[0]);
      RunFirstSample(s, hs);
      CollectStream(t, hs[1..]);
      ThinFirst(s.last, hs);
      CollectCons(s, t, Run(t, Samples(hs[1..])), Adjust(hs[0]), Thin(t.last, Adjusted(hs[1..])), Thin(s.last, Adjusted(hs)));
    } else {
      assert Samples(hs) == [] && Adjusted(hs) == [];
    }
  }

  /** The inductive step of `CollectStream`, on the values alone. */
  lemma CollectCons(s: State, t: State, r: State, a: real, rest: seq<real>, kept: seq<real>)
    requires Accepts(s.last, a) ==> t.samples == s.samples + [a] && t.last == Some(a) && t.count == |t.samples| && SameSettings(s, t)
    requires !Accepts(s.last, a) ==> t == s
    requires kept == if Accepts(s.last, a) then [a] + rest else rest
    requires r.samples == t.samples + rest && r.count == |r.samples| && SameSettings(t, r)
    ensures r.samples == s.samples + kept && r.count == |r.samples| && SameSettings(s, r)
  {
    if Accepts(s.last, a) {
      assert t.samples + rest == s.samples + ([a] + rest);
    }
  }

  /** Everything but the samples, the last angle and the count agrees. */
  predicate SameSettings(s: State, r: State) {
    && r.calibrating == s.calibrating && r.offset == s.offset && r.message == s.message
    && r.heading == s.heading && r.timer == s.timer && r.nextTimer == s.nextTimer
  }

  /** Running a stream of readings starts with collecting the first one. */
  lemma RunFirstSample(s: State, hs: seq<real>)
    requires s.timer.Some? && |hs| > 0
    ensures Run(s, Samples(hs)) == Run(Collect(s, hs[0]), Samples(hs[1..]))
  {
    assert Samples(hs)[1..] == Samples(hs[1..]);
  }

  /** Thinning a stream of readings starts with deciding on the first one. */
  lemma ThinFirst(last: Option<real>, hs: seq<real>)
    requires |hs| > 0
    ensures var a := Adjust(hs[0]);
            Thin(last, Adjusted(hs)) == if Accepts(last, a) then [a] + Thin(Some(a), Adjusted(hs[1..])) else Thin(last, Adjusted(hs[1..]))
  {
    assert Adjusted(hs)[1..] == Adjusted(hs[1..]);
  }

  /**
   * A whole session: `calibrate`, the readings `hs`, then the user or the
   * timer finishing it. The samples are the thinned readings, the offset
   * is their mean (0 when none was kept), and calibration is over.
   */
  lemma CalibrationSession(s: State, hs: seq<real>, last: Event)
    requires last == Finish || last == Timeout(s.nextTimer)
    ensures var r := Run(s, [Calibrate] + Samples(hs) + [last]);
            var kept := Thin(None, Adjusted(hs));
            && r.samples == kept
            && r.count == |kept|
            && r.offset == (if |kept| > 0 then Mean(kept) else 0.0)
            && !r.calibrating && r.message == "" && r.timer.None?
            && r.heading == s.heading
  {
    var started := Step(s, Calibrate);
    assert Run(s, [Calibrate]) == started;
    RunAppend(s, [Calibrate], Samples(hs));
    CollectStream(started, hs);
    var collected := Run(started, Samples(hs));
    RunAppend(s, [Calibrate] + Samples(hs), [last]);
    assert Run(collected, [last]) == Step(collected, last);
  }

  /**
   * `calibratedHeading` starts null and stays null through the first
   * calibration, whatever is read while it runs.
   */
  lemma HeadingNullUntilCalibrated(hs: seq<real>, last: Event)
    requires last == Finish || last == Timeout(Mounted().timer.value)
    ensures Run(Mounted(), Samples(hs) + [last]).heading.None?
  {
    var s := Initial();
    CalibrationSession(s, hs, last);
    RunAppend(s, [Calibrate], Samples(hs) + [last]);
    assert [Calibrate] + Samples(hs) + [last] == [Calibrate] + (Samples(hs) + [last]);
    assert Run(s, [Calibrate]) == Mounted();
  }

  /** Calibrating with no readings at all leaves an offset of 0. */
  lemma EmptySessionZeroOffset(s: State)
    ensures Run(s, [Calibrate, Finish]).offset == 0.0
  {
    CalibrationSession(s, [], Finish);
    assert [Calibrate] + Samples([]) + [Finish] == [Calibrate, Finish];
  }
}
