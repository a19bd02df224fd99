/**
 * app-changed.tsx: the reworked screen. Its `takePhoto` has no busy flag
 * and no step list, never clears the previous address, and shows the
 * geocoder's `display_name` instead of a formatted address; the doubling
 * search is otherwise the one of App.tsx.
 */
module AppChanged {
  import opened Wrappers
  import opened Geocoding
  import opened Projection
  import opened AddressSearch
  import A = App

  /** The state a run writes: the `found` flag, `address` and the geocode calls made. */
  datatype Run = Run(found: bool, address: Option<string>, probes: seq<Probe>)

  /** The name the screen shows for a reply: its `display_name`. */
  function DisplayName(g: Option<GeoData>): string {
    match g
    case Some(d) => d.displayName
    case None => ""
  }

  /**
   * `computeEndCoordinates(distance)`: with no position it returns `null`
   * (`None`); otherwise it projects, asks the geocoder and shows the
   * `display_name` of a reply that carries an address.
   */
  function ComputeEndCoordinates(s: A.Search, distance: int, run: Run): (res: (Run, Option<Option<GeoData>>))
    ensures s.start.None? ==> res == (run, None)
    ensures s.start.Some? ==> res.1 == Some(Reply(s.replies, |run.probes|))
    ensures s.start.Some? ==> res.0.probes == run.probes + [Probe(distance, DestinationPoint(s.start.value, A.Bearing(s), distance as real, s.sph))]
    ensures s.start.Some? && HasAddress(Reply(s.replies, |run.probes|)) ==> res.0.address == Some(DisplayName(Reply(s.replies, |run.probes|)))
    ensures !HasAddress(Reply(s.replies, |run.probes|)) ==> res.0.address == run.address
    ensures res.0.found == run.found
  {
    match s.start
    case None => (run, None)
    case Some(c) =>
      var geoData := Reply(s.replies, |run.probes|);
      var asked := run.(probes := run.probes + [Probe(distance, DestinationPoint(c, A.Bearing(s), distance as real, s.sph))]);
      if HasAddress(geoData) then (asked.(address := Some(DisplayName(geoData))), Some(geoData))
      else (asked, Some(geoData))
  }

  /** The `while (distance <= maxDistance && !found)` loop. */
  function SearchLoop(s: A.Search, distance: int, run: Run): (r: Run)
    requires distance >= 1
    ensures run.found ==> r == run
    ensures run.probes <= r.probes
    ensures !run.found && r.found ==> r.address.Some?
    decreases MaxDistance - distance
  {
    if distance <= MaxDistance && !run.found then
      var (run', result) := ComputeEndCoordinates(s, distance, run);
      if result.Some? && HasHouseNumber(result.value) then
        run'.(address := Some(DisplayName(result.value)), found := true)
      else
        SearchLoop(s, distance * 2, run')
    else
      run
  }

  /** `findBuildingAddress`: the loop from `initialDistance` with `found` false. */
  function FindBuildingAddress(s: A.Search, address: Option<string>): (r: Run)
    ensures r.found ==> r.address.Some?
    ensures s.start.None? ==> r == Run(false, address, [])
  {
    if s.start.None? then
      SearchLoopWithoutPosition(s, InitialDistance, Run(false, address, []));
      SearchLoop(s, InitialDistance, Run(false, address, []))
    else
      SearchLoop(s, InitialDistance, Run(false, address, []))
  }

  // ---------------------------------------------------------------------
  // The search, described independently of the loop

  /** `address` after the first `n` probes, starting from whatever was shown before. */
  function AddressAfter(replies: seq<Option<GeoData>>, before: Option<string>, n: nat): Option<string> {
    match LastAddressed(replies, n)
    case Some(i) => Some(DisplayName(Reply(replies, i)))
    case None => before
  }

  function Reached(s: A.Search, before: Option<string>, n: nat): Run
    requires s.start.Some?
  {
    Run(false, AddressAfter(s.replies, before, n), Probes(s.start.value, A.Bearing(s), s.sph, n))
  }

  function Outcome(s: A.Search, before: Option<string>): Run
    requires s.start.Some?
  {
    var n := ProbesMade(s.replies);
    Run(FirstHouse(s.replies).Some?, AddressAfter(s.replies, before, n), Probes(s.start.value, A.Bearing(s), s.sph, n))
  }

  lemma ProbeAdvances(s: A.Search, before: Option<string>, j: nat)
    requires s.start.Some?
    ensures ComputeEndCoordinates(s, Pow2(j), Reached(s, before, j)) == (Reached(s, before, j + 1), Some(Reply(s.replies, j)))
  {
  }

  /** From probe `j` on, the loop ends where `Outcome` says. */
  lemma {:induction false} SearchLoopFrom(s: A.Search, before: Option<string>, j: nat)
    requires s.start.Some? && j <= ProbeCount
    requires forall i :: 0 <= i < j ==> !HasHouseNumber(Reply(s.replies, i))
    ensures SearchLoop(s, Pow2(j), Reached(s, before, j)) == Outcome(s, before)
    decreases ProbeCount - j
  {
    if j == ProbeCount {
      LoopExhausted(s, before);
    } else if HasHouseNumber(Reply(s.replies, j)) {
      LoopHits(s, before, j);
    } else {
      SearchLoopFrom(s, before, j + 1);
      LoopMisses(s, before, j);
    }
  }

  lemma LoopExhausted(s: A.Search, before: Option<string>)
    requires s.start.Some?
    requires forall i :: 0 <= i < ProbeCount ==> !HasHouseNumber(Reply(s.replies, i))
    ensures SearchLoop(s, Pow2(ProbeCount), Reached(s, before, ProbeCount)) == Outcome(s, before)
  {
    A.FirstHouseSkips(s.replies, ProbeCount);
    WithinBound(ProbeCount);
  }

  lemma LoopHits(s: A.Search, before: Option<string>, j: nat)
    requires s.start.Some? && j < ProbeCount
    requires forall i :: 0 <= i < j ==> !HasHouseNumber(Reply(s.replies, i))
    requires HasHouseNumber(Reply(s.replies, j))
    ensures SearchLoop(s, Pow2(j), Reached(s, before, j)) == Outcome(s, before)
  {
    A.FirstHouseSkips(s.replies, j);
    WithinBound(j);
    ProbeAdvances(s, before, j);
    assert LastAddressed(s.replies, j + 1) == Some(j);
    assert ProbesMade(s.replies) == j + 1;
  }

  lemma LoopMisses(s: A.Search, before: Option<string>, j: nat)
    requires s.start.Some? && j < ProbeCount && !HasHouseNumber(Reply(s.replies, j))
    requires SearchLoop(s, Pow2(j + 1), Reached(s, before, j + 1)) == Outcome(s, before)
    ensures SearchLoop(s, Pow2(j), Reached(s, before, j)) == Outcome(s, before)
  {
    WithinBound(j);
    ProbeAdvances(s, before, j);
    assert Pow2(j) * 2 == Pow2(j + 1);
    SearchLoopStep(s, Pow2(j), Reached(s, before, j), Reached(s, before, j + 1), Reply(s.replies, j));
  }

  /** A probe within range that finds no house number hands over to the doubled distance. */
  lemma SearchLoopStep(s: A.Search, distance: int, run: Run, run2: Run, g: Option<GeoData>)
    requires 1 <= distance <= MaxDistance && !run.found
    requires ComputeEndCoordinates(s, distance, run) == (run2, Some(g)) && !HasHouseNumber(g)
    ensures SearchLoop(s, distance, run) == SearchLoop(s, distance * 2, run2)
  {
  }

  /**
   * With a known position, `findBuildingAddress` ends as `Outcome` says:
   * the same probes as in App.tsx, and `address` is the `display_name` of
   * the last reply that carried an address, or what was shown before.
   */
  lemma FindBuildingAddressOutcome(s: A.Search, before: Option<string>)
    requires s.start.Some?
    ensures FindBuildingAddress(s, before) == Outcome(s, before)
  {
    assert Run(false, before, []) == Reached(s, before, 0);
    SearchLoopFrom(s, before, 0);
  }

  /**
   * A successful search shows the winning reply's `display_name`; a failed
   * one shows the last addressed reply's, and keeps the previous address
   * when no reply carried one.
   */
  lemma OutcomeAddress(s: A.Search, before: Option<string>)
    requires s.start.Some?
    ensures FirstHouse(s.replies).Some? ==>
              Outcome(s, before).address == Some(DisplayName(Reply(s.replies, FirstHouse(s.replies).value)))
    ensures (forall i :: 0 <= i < ProbeCount ==> !HasAddress(Reply(s.replies, i))) ==> Outcome(s, before).address == before
    ensures Outcome(s, before).found <==> exists i :: 0 <= i < ProbeCount && HasHouseNumber(Reply(s.replies, i))
  {
    var n := ProbesMade(s.replies);
    if FirstHouse(s.replies).Some? {
      assert LastAddressed(s.replies, n) == Some(n - 1);
    }
  }

  /** Both screens send the same geocode requests for the same inputs. */
  lemma SameProbesAsApp(s: A.Search, before: Option<string>, run: A.Run)
    requires s.start.Some? && A.Fresh(run)
    ensures FindBuildingAddress(s, before).probes == A.FindBuildingAddress(s, run).probes
    ensures FindBuildingAddress(s, before).found == A.FindBuildingAddress(s, run).found
  {
    FindBuildingAddressOutcome(s, before);
    A.FindBuildingAddressOutcome(s, run);
  }

  /**
   * Where the two screens differ: on the same replies both stop at the
   * same building, but this one shows its raw `display_name` where App.tsx
   * shows the address `formatAddress` builds.
   */
  lemma ShownTextDiffers(s: A.Search, before: Option<string>, run: A.Run)
    requires s.start.Some? && A.Fresh(run) && FirstHouse(s.replies).Some?
    ensures var g := Reply(s.replies, FirstHouse(s.replies).value);
            && FindBuildingAddress(s, before).address == Some(DisplayName(g))
            && A.FindBuildingAddress(s, run).address == Some(FormatAddress(g))
  {
    FindBuildingAddressOutcome(s, before);
    OutcomeAddress(s, before);
    A.FindBuildingAddressOutcome(s, run);
    A.OutcomeProperties(s);
    assert ProbesMade(s.replies) == FirstHouse(s.replies).value + 1;
  }

  /** With no position, the loop runs to 64 m without a single geocode call. */
  lemma {:induction false} SearchLoopWithoutPosition(s: A.Search, distance: int, run: Run)
    requires s.start.None? && distance >= 1 && !run.found
    ensures SearchLoop(s, distance, run) == run
    decreases MaxDistance - distance
  {
    if distance <= MaxDistance {
      SearchLoopWithoutPosition(s, distance * 2, run);
    }
  }

  // ---------------------------------------------------------------------
  // takePhoto

  /** The address shown after one press of the shutter, and the geocode calls it made. */
  datatype Shot = Shot(address: Option<string>, probes: seq<Probe>)

  /**
   * `takePhoto`. A failed guard or a capture that throws changes nothing;
   * otherwise the search runs from the address already shown.
   */
  function TakePhoto(address: Option<string>, dev: Device, replies: seq<Option<GeoData>>, sph: Spherical): (o: Shot)
    ensures !GuardsPass(dev) || !dev.captureSucceeds ==> o == Shot(address, [])
    ensures |o.probes| <= ProbeCount
  {
    if !dev.cameraReady || dev.isCalibrating || dev.heading.None? || dev.loadingLocation then
      Shot(address, [])
    else if !dev.captureSucceeds then
      Shot(address, [])
    else
      var s := A.Search(dev.coordinates, dev.heading.value, dev.declination, replies, sph);
      TakePhotoProbes(s, address);
      var run := FindBuildingAddress(s, address);
      Shot(run.address, run.probes)
  }

  /** A search makes at most seven geocode calls, and none without a position. */
  lemma TakePhotoProbes(s: A.Search, address: Option<string>)
    ensures |FindBuildingAddress(s, address).probes| <= ProbeCount
    ensures s.start.None? ==> FindBuildingAddress(s, address) == Run(false, address, [])
  {
    if s.start.Some? {
      FindBuildingAddressOutcome(s, address);
    } else {
      SearchLoopWithoutPosition(s, InitialDistance, Run(false, address, []));
    }
  }

  /**
   * A press that gets past the guards with a known position shows the
   * search's address: the winning reply's `display_name` on success.
   */
  lemma TakePhotoSearches(address: Option<string>, dev: Device, replies: seq<Option<GeoData>>, sph: Spherical)
    requires GuardsPass(dev) && dev.captureSucceeds && dev.coordinates.Some?
    ensures var s := A.Search(dev.coordinates, dev.heading.value, dev.declination, replies, sph);
            var o := TakePhoto(address, dev, replies, sph);
            && o.probes == Outcome(s, address).probes
            && o.address == AddressAfter(replies, address, ProbesMade(replies))
            && (FirstHouse(replies).Some? ==> o.address == Some(DisplayName(Reply(replies, FirstHouse(replies).value))))
  {
    var s := A.Search(dev.coordinates, dev.heading.value, dev.declination, replies, sph);
    FindBuildingAddressOutcome(s, address);
    OutcomeAddress(s, address);
  }
}
