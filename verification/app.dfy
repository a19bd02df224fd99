/**
 * App.tsx: the true-heading effect and the display smoother fed by it, and
 * `takePhoto` with its busy flag, guards, step list and the doubling
 * address search (`computeEndCoordinates`, `findBuildingAddress`).
 */
module App {
  import opened Wrappers
  import opened Geocoding
  import opened Projection
  import opened Angles
  import opened Steps
  import opened AddressSearch

  /**
   * The true-heading effect: with no calibrated heading yet the smoother's
   * target is left alone, otherwise it becomes the declination-corrected
   * heading.
   */
  function TrackTarget(target: real, calibrated: Option<real>, declination: real): (r: real)
    ensures calibrated.None? ==> r == target
    ensures calibrated.Some? && -360.0 <= calibrated.value + declination ==> 0.0 <= r < 360.0
    ensures calibrated.Some? && 0.0 <= calibrated.value + declination < 360.0 ==> r == calibrated.value + declination
  {
    match calibrated
    case None => target
    case Some(h) =>
      TrueHeadingFixesCanonical(h, declination);
      TrueHeading(h, declination)
  }

  /** What one run of the search reads; none of it changes during the run. */
  datatype Search = Search(
    start: Option<Coordinates>,           // `coordinates`
    heading: real,                        // `calibratedHeading`
    declination: real,                    // `magneticDeclination`
    replies: seq<Option<GeoData>>,        // the geocoder's answers, call by call
    sph: Spherical)

  /** The state a run writes: the `found` flag, `address`, the step list and the geocode calls made. */
  datatype Run = Run(found: bool, address: Option<string>, steps: seq<Step>, probes: seq<Probe>)

  /** The bearing `computeEndCoordinates` projects along. */
  function Bearing(s: Search): real {
    TrueHeading(s.heading, s.declination)
  }

  /**
   * `computeEndCoordinates(distance)`: with no position it returns `null`
   * (`None`) and touches nothing; otherwise it advances the steps, projects,
   * asks the geocoder, records a reply carrying an address as the current
   * `address`, and returns the reply.
   */
  function ComputeEndCoordinates(s: Search, distance: int, run: Run): (res: (Run, Option<Option<GeoData>>))
    ensures s.start.None? ==> res == (run, None)
    ensures s.start.Some? ==> res.1 == Some(Reply(s.replies, |run.probes|))
    ensures s.start.Some? ==> res.0.probes == run.probes + [Probe(distance, DestinationPoint(s.start.value, Bearing(s), distance as real, s.sph))]
    ensures res.0.found == run.found
  {
    match s.start
    case None => (run, None)
    case Some(c) =>
      var steps := SetStatus(SetStatus(SetStatus(SetStatus(run.steps, "loc", Done), "dir", Done), "calc", Done), "osm", InProgress);
      var geoData := Reply(s.replies, |run.probes|);
      var asked := run.(steps := steps, probes := run.probes + [Probe(distance, DestinationPoint(c, Bearing(s), distance as real, s.sph))]);
      if HasAddress(geoData) then
        (asked.(address := Some(FormatAddress(geoData)), steps := SetStatus(steps, "osm", Done)), Some(geoData))
      else
        (asked, Some(geoData))
  }

  /**
   * The `while (distance <= maxDistance && !found)` loop of
   * `findBuildingAddress`, from the current `distance` on.
   */
  function SearchLoop(s: Search, distance: int, run: Run): (r: Run)
    requires distance >= 1
    ensures run.found ==> r == run
    ensures run.probes <= r.probes
    ensures !run.found && r.found ==> r.address.Some?
    decreases MaxDistance - distance
  {
    if distance <= MaxDistance && !run.found then
      var (run', result) := ComputeEndCoordinates(s, distance, run);
      if result.Some? && HasHouseNumber(result.value) then
        run'.(address := Some(FormatAddress(result.value)), found := true)
      else
        SearchLoop(s, distance * 2, run')
    else
      run
  }

  /** `findBuildingAddress`: the loop from `initialDistance` with `found` false. */
  function FindBuildingAddress(s: Search, run: Run): (r: Run)
    ensures run.probes <= r.probes
    ensures r.found ==> r.address.Some?
    ensures s.start.None? ==> r == run.(found := false)
  {
    if s.start.None? then
      SearchLoopWithoutPosition(s, InitialDistance, run.(found := false));
      SearchLoop(s, InitialDistance, run.(found := false))
    else
      SearchLoop(s, InitialDistance, run.(found := false))
  }

  // ---------------------------------------------------------------------
  // The search, described independently of the loop

  /** `address` after the first `n` probes of a run that started from `null`. */
  function AddressAfter(replies: seq<Option<GeoData>>, n: nat): Option<string> {
    match LastAddressed(replies, n)
    case Some(i) => Some(FormatAddress(Reply(replies, i)))
    case None => None
  }

  /** The step list after the first `n` probes. */
  function StepsAfter(replies: seq<Option<GeoData>>, n: nat): seq<Step> {
    if n == 0 then InitialSteps else ProbedSteps(HasAddress(Reply(replies, n - 1)))
  }

  /** The run state after `n` probes that found no house number. */
  function Reached(s: Search, n: nat): Run
    requires s.start.Some?
  {
    Run(false, AddressAfter(s.replies, n), StepsAfter(s.replies, n), Probes(s.start.value, Bearing(s), s.sph, n))
  }

  /** How a run that starts from a fresh state ends, read off the replies alone. */
  function Outcome(s: Search): Run
    requires s.start.Some?
  {
    var n := ProbesMade(s.replies);
    Run(FirstHouse(s.replies).Some?, AddressAfter(s.replies, n), StepsAfter(s.replies, n), Probes(s.start.value, Bearing(s), s.sph, n))
  }

  /** The run state `takePhoto` hands to the search: `address` null, the initial steps, no calls yet. */
  predicate Fresh(run: Run) {
    run.address.None? && run.steps == InitialSteps && run.probes == []
  }

  /**
   * One call of `computeEndCoordinates` at probe `j` of a run that has not
   * found a house moves it to the state after `j + 1` probes.
   */
  lemma ProbeAdvances(s: Search, j: nat)
    requires s.start.Some?
    ensures ComputeEndCoordinates(s, Pow2(j), Reached(s, j)) == (Reached(s, j + 1), Some(Reply(s.replies, j)))
  {
    var g := Reply(s.replies, j);
    assert Staged(StepsAfter(s.replies, j));
    ProbeUpdatesSteps(StepsAfter(s.replies, j), HasAddress(g));
  }

  /** From probe `j` on, the loop ends where `Outcome` says. */
  lemma {:induction false} SearchLoopFrom(s: Search, j: nat)
    requires s.start.Some? && j <= ProbeCount
    requires forall i :: 0 <= i < j ==> !HasHouseNumber(Reply(s.replies, i))
    ensures SearchLoop(s, Pow2(j), Reached(s, j)) == Outcome(s)
    decreases ProbeCount - j
  {
    if j == ProbeCount {
      LoopExhausted(s);
    } else if HasHouseNumber(Reply(s.replies, j)) {
      LoopHits(s, j);
    } else {
      SearchLoopFrom(s, j + 1);
      LoopMisses(s, j);
    }
  }

  lemma LoopExhausted(s: Search)
    requires s.start.Some?
    requires forall i :: 0 <= i < ProbeCount ==> !HasHouseNumber(Reply(s.replies, i))
    ensures SearchLoop(s, Pow2(ProbeCount), Reached(s, ProbeCount)) == Outcome(s)
  {
    FirstHouseSkips(s.replies, ProbeCount);
    WithinBound(ProbeCount);
  }

  lemma LoopHits(s: Search, j: nat)
    requires s.start.Some? && j < ProbeCount
    requires forall i :: 0 <= i < j ==> !HasHouseNumber(Reply(s.replies, i))
    requires HasHouseNumber(Reply(s.replies, j))
    ensures SearchLoop(s, Pow2(j), Reached(s, j)) == Outcome(s)
  {
    FirstHouseSkips(s.replies, j);
    WithinBound(j);
    ProbeAdvances(s, j);
    var g := Reply(s.replies, j);
    assert LastAddressed(s.replies, j + 1) == Some(j);
    assert AddressAfter(s.replies, j + 1) == Some(FormatAddress(g));
    assert ProbesMade(s.replies) == j + 1;
  }

  lemma LoopMisses(s: Search, j: nat)
    requires s.start.Some? && j < ProbeCount && !HasHouseNumber(Reply(s.replies, j))
    requires SearchLoop(s, Pow2(j + 1), Reached(s, j + 1)) == Outcome(s)
    ensures SearchLoop(s, Pow2(j), Reached(s, j)) == Outcome(s)
  {
    WithinBound(j);
    ProbeAdvances(s, j);
    assert Pow2(j) * 2 == Pow2(j + 1);
    SearchLoopStep(s, Pow2(j), Reached(s, j), Reached(s, j + 1), Reply(s.replies, j));
  }

  /** A probe within range that finds no house number hands over to the doubled distance. */
  lemma SearchLoopStep(s: Search, distance: int, run: Run, run2: Run, g: Option<GeoData>)
    requires 1 <= distance <= MaxDistance && !run.found
    requires ComputeEndCoordinates(s, distance, run) == (run2, Some(g)) && !HasHouseNumber(g)
    ensures SearchLoop(s, distance, run) == SearchLoop(s, distance * 2, run2)
  {
  }

  /** The search from 0 reaches the search from `j` when the first `j` probes miss. */
  lemma {:induction false} FirstHouseSkips(replies: seq<Option<GeoData>>, j: nat)
    requires forall i :: 0 <= i < j ==> !HasHouseNumber(Reply(replies, i))
    ensures FirstHouse(replies) == FirstHouseFrom(replies, j)
  {
    if j > 0 {
      FirstHouseSkips(replies, j - 1);
    }
  }

  /**
   * With a known position, `findBuildingAddress` from a fresh run ends as
   * `Outcome` says: it probes 1, 2, 4, ... metres in order and stops right
   * after the first reply with a house number (or after 64 m); `found` says
   * whether there was one; `address` is the formatted address of the last
   * reply that carried an address object, or null; the steps reflect the
   * last probe.
   */
  lemma FindBuildingAddressOutcome(s: Search, run: Run)
    requires s.start.Some? && Fresh(run)
    ensures FindBuildingAddress(s, run) == Outcome(s)
  {
    assert run.(found := false) == Reached(s, 0);
    SearchLoopFrom(s, 0);
  }

  /** With no position, the loop still runs to 64 m but never calls the geocoder. */
  lemma {:induction false} SearchLoopWithoutPosition(s: Search, distance: int, run: Run)
    requires s.start.None? && distance >= 1 && !run.found
    ensures SearchLoop(s, distance, run) == run
    decreases MaxDistance - distance
  {
    if distance <= MaxDistance {
      SearchLoopWithoutPosition(s, distance * 2, run);
    }
  }

  /**
   * The search's promises in the terms of the source: at most seven
   * geocode calls, at distances 1, 2, 4, ... in order; every call but the
   * last missed a house number; success exactly when one of the seven
   * probes had one, and then `address` is that reply formatted; a failed
   * search used all seven probes.
   */
  ghost predicate KeepsPromises(s: Search, r: Run) {
    && 1 <= |r.probes| <= ProbeCount
    && (forall i :: 0 <= i < |r.probes| ==> r.probes[i].distance == Pow2(i))
    && (forall i :: 0 <= i < |r.probes| - 1 ==> !HasHouseNumber(Reply(s.replies, i)))
    && (r.found <==> exists i :: 0 <= i < ProbeCount && HasHouseNumber(Reply(s.replies, i)))
    && (r.found ==> HasHouseNumber(Reply(s.replies, |r.probes| - 1))
                    && r.address == Some(FormatAddress(Reply(s.replies, |r.probes| - 1))))
    && (!r.found ==> |r.probes| == ProbeCount)
    && AddressFromLastAddressed(s, r)
  }

  /**
   * `address` is the formatted address of the last probed reply that had
   * an `address` object, house number or not, and stays null (as
   * `takePhoto` reset it) when none had one.
   */
  ghost predicate AddressFromLastAddressed(s: Search, r: Run) {
    && (r.address.None? <==> forall i :: 0 <= i < |r.probes| ==> !HasAddress(Reply(s.replies, i)))
    && (r.address.Some? ==>
          exists i :: 0 <= i < |r.probes| && HasAddress(Reply(s.replies, i))
                      && r.address.value == FormatAddress(Reply(s.replies, i))
                      && forall j :: i < j < |r.probes| ==> !HasAddress(Reply(s.replies, j)))
  }

  /**
   * The progress list at the end of a run: location, direction and
   * coordinates done; the geocode stage done exactly when the last probe's
   * reply carried an address, and otherwise still in progress.
   */
  ghost predicate StepsSettled(s: Search, r: Run) {
    && |r.steps| == 4 && |r.probes| >= 1
    && r.steps[0].status == Done && r.steps[1].status == Done && r.steps[2].status == Done
    && (r.steps[3].status == Done <==> HasAddress(Reply(s.replies, |r.probes| - 1)))
    && (r.steps[3].status != Done ==> r.steps[3].status == InProgress)
  }

  lemma FindBuildingAddressProperties(s: Search, run: Run)
    requires s.start.Some? && Fresh(run)
    ensures KeepsPromises(s, FindBuildingAddress(s, run))
    ensures StepsSettled(s, FindBuildingAddress(s, run))
  {
    FindBuildingAddressOutcome(s, run);
    OutcomeProperties(s);
  }

  lemma OutcomeProperties(s: Search)
    requires s.start.Some?
    ensures KeepsPromises(s, Outcome(s))
    ensures StepsSettled(s, Outcome(s))
  {
    var n := ProbesMade(s.replies);
    if FirstHouse(s.replies).Some? {
      assert LastAddressed(s.replies, n) == Some(n - 1);
    }
    assert Outcome(s).steps == ProbedSteps(HasAddress(Reply(s.replies, n - 1)));
  }

  // ---------------------------------------------------------------------
  // takePhoto

  /** The screen state `takePhoto` reads and writes. */
  datatype Ui = Ui(isBusy: bool, showSteps: bool, address: Option<string>, steps: seq<Step>)

  /** The state after one press of the shutter, and the geocode calls it made. */
  datatype Shot = Shot(ui: Ui, probes: seq<Probe>)

  /**
   * `takePhoto`. A press while busy changes nothing. Otherwise the run
   * starts busy with the steps shown, `address` null and the initial steps;
   * a failed guard ends it not busy with the steps hidden; a capture that
   * throws ends it not busy with the steps still shown; a search ends it
   * not busy, hiding the steps only on success.
   */
  function TakePhoto(ui: Ui, dev: Device, replies: seq<Option<GeoData>>, sph: Spherical): (o: Shot)
    ensures ui.isBusy ==> o == Shot(ui, [])
    ensures !ui.isBusy ==> !o.ui.isBusy
    ensures !ui.isBusy && !GuardsPass(dev) ==> o == Shot(Ui(false, false, None, InitialSteps), [])
    ensures !ui.isBusy && GuardsPass(dev) && !dev.captureSucceeds ==> o == Shot(Ui(false, true, None, InitialSteps), [])
  {
    if ui.isBusy then Shot(ui, [])
    else
      var started := Ui(true, true, None, InitialSteps);
      if !dev.cameraReady || dev.isCalibrating || dev.heading.None? || dev.loadingLocation then
        Shot(started.(isBusy := false, showSteps := false), [])
      else if !dev.captureSucceeds then
        Shot(started.(isBusy := false), [])
      else
        var s := Search(dev.coordinates, dev.heading.value, dev.declination, replies, sph);
        var run := FindBuildingAddress(s, Run(false, started.address, started.steps, []));
        Shot(Ui(false, !run.found, run.address, run.steps), run.probes)
  }

  /**
   * A press that gets past the guards with a known position runs the whole
   * search: its geocode calls, `address` and steps are the search's, and
   * the steps overlay is hidden exactly when a building was found.
   */
  lemma TakePhotoSearches(ui: Ui, dev: Device, replies: seq<Option<GeoData>>, sph: Spherical)
    requires !ui.isBusy && GuardsPass(dev) && dev.captureSucceeds && dev.coordinates.Some?
    ensures var s := Search(dev.coordinates, dev.heading.value, dev.declination, replies, sph);
            var o := TakePhoto(ui, dev, replies, sph);
            && o.probes == Outcome(s).probes
            && o.ui == Ui(false, FirstHouse(replies).None?, Outcome(s).address, Outcome(s).steps)
  {
    var s := Search(dev.coordinates, dev.heading.value, dev.declination, replies, sph);
    FindBuildingAddressOutcome(s, Run(false, None, InitialSteps, []));
  }

  /** With no position the search makes no call, finds nothing and leaves the steps shown. */
  lemma TakePhotoWithoutPosition(ui: Ui, dev: Device, replies: seq<Option<GeoData>>, sph: Spherical)
    requires !ui.isBusy && GuardsPass(dev) && dev.captureSucceeds && dev.coordinates.None?
    ensures TakePhoto(ui, dev, replies, sph) == Shot(Ui(false, true, None, InitialSteps), [])
  {
    var s := Search(dev.coordinates, dev.heading.value, dev.declination, replies, sph);
    SearchLoopWithoutPosition(s, InitialDistance, Run(false, None, InitialSteps, []));
  }
}
