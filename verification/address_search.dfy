/**
 * What the two versions of `findBuildingAddress` (App.tsx and
 * app-changed.tsx) share: the probe schedule 1, 2, 4, ..., 64 metres, the
 * geocoder as an oracle of replies, the device state `takePhoto` checks, and
 * an independent reference for which probe wins.
 */
module AddressSearch {
  import opened Wrappers
  import opened Geocoding
  import opened Projection

  /** `initialDistance` and `maxDistance`, in metres. */
  const InitialDistance: int := 1
  const MaxDistance: int := 64

  /** The loop guard `distance <= maxDistance` admits 1, 2, 4, ..., 64: seven probes. */
  const ProbeCount: nat := 7

  /** The distance of probe `k`: `initialDistance` doubled `k` times. */
  function Pow2(k: nat): (r: nat)
    ensures r >= 1
  {
    if k == 0 then 1 else 2 * Pow2(k - 1)
  }

  /** Probe `k` is inside the loop bound exactly when `k` is one of the seven probes. */
  lemma {:induction false} WithinBound(k: nat)
    ensures Pow2(k) <= MaxDistance <==> k < ProbeCount
  {
    if k >= ProbeCount {
      BeyondBound(k);
    } else {
      assert Pow2(6) == 64;
      assert k <= 6;
      if k < 6 {
        assert Pow2(k) <= Pow2(k + 1) <= Pow2(6) by { Doubling(k, 6); }
      }
    }
  }

  /** Probe distances grow with the probe number. */
  lemma {:induction false} Doubling(k: nat, j: nat)
    requires k <= j
    ensures Pow2(k) <= Pow2(j)
  {
    if k < j {
      Doubling(k, j - 1);
    }
  }

  lemma {:induction false} BeyondBound(k: nat)
    requires k >= ProbeCount
    ensures Pow2(k) >= 128
  {
    if k > ProbeCount {
      BeyondBound(k - 1);
    } else {
      assert Pow2(7) == 128;
    }
  }

  /**
   * The reply to the `k`-th geocode call of a run. A reply the oracle does
   * not supply behaves like a failed fetch, which `reverseGeocode` turns
   * into `null`.
   */
  function Reply(replies: seq<Option<GeoData>>, k: nat): Option<GeoData> {
    if k < |replies| then replies[k] else None
  }

  /** The first probe at or after `k` whose reply names a house number. */
  function FirstHouseFrom(replies: seq<Option<GeoData>>, k: nat): (r: Option<nat>)
    decreases ProbeCount - k
    ensures r.Some? ==> k <= r.value < ProbeCount && HasHouseNumber(Reply(replies, r.value))
    ensures r.Some? ==> forall i :: k <= i < r.value ==> !HasHouseNumber(Reply(replies, i))
    ensures r.None? ==> forall i :: k <= i < ProbeCount ==> !HasHouseNumber(Reply(replies, i))
  {
    if k >= ProbeCount then None
    else if HasHouseNumber(Reply(replies, k)) then Some(k)
    else FirstHouseFrom(replies, k + 1)
  }

  /** The winning probe of a run: the first of the seven with a house number. */
  function FirstHouse(replies: seq<Option<GeoData>>): Option<nat> {
    FirstHouseFrom(replies, 0)
  }

  /** How many geocode calls a run with a known position makes. */
  function ProbesMade(replies: seq<Option<GeoData>>): (n: nat)
    ensures 1 <= n <= ProbeCount
    ensures forall i :: 0 <= i < n - 1 ==> !HasHouseNumber(Reply(replies, i))
    ensures n < ProbeCount ==> HasHouseNumber(Reply(replies, n - 1))
  {
    match FirstHouse(replies)
    case Some(k) => k + 1
    case None => ProbeCount
  }

  /** The last of the first `n` replies that carried an `address` object. */
  function LastAddressed(replies: seq<Option<GeoData>>, n: nat): (r: Option<nat>)
    ensures r.Some? ==> r.value < n && HasAddress(Reply(replies, r.value))
    ensures r.Some? ==> forall i :: r.value < i < n ==> !HasAddress(Reply(replies, i))
    ensures r.None? ==> forall i :: 0 <= i < n ==> !HasAddress(Reply(replies, i))
  {
    if n == 0 then None
    else if HasAddress(Reply(replies, n - 1)) then Some(n - 1)
    else LastAddressed(replies, n - 1)
  }

  /** One geocode call: the distance probed and the point sent to the geocoder. */
  datatype Probe = Probe(distance: int, at: Coordinates)

  /** Probe `k` from `start` along `bearing`. */
  function ProbeAt(start: Coordinates, bearing: real, sph: Spherical, k: nat): Probe {
    Probe(Pow2(k), DestinationPoint(start, bearing, Pow2(k) as real, sph))
  }

  /** The first `n` probes of a run, nearest first. */
  function Probes(start: Coordinates, bearing: real, sph: Spherical, n: nat): (r: seq<Probe>)
    ensures |r| == n
    ensures forall i :: 0 <= i < n ==> r[i] == ProbeAt(start, bearing, sph, i)
  {
    if n == 0 then [] else Probes(start, bearing, sph, n - 1) + [ProbeAt(start, bearing, sph, n - 1)]
  }

  /** What `takePhoto` reads from the rest of the app when the shutter is pressed. */
  datatype Device = Device(
    cameraReady: bool,               // `camera.current` is set
    isCalibrating: bool,
    heading: Option<real>,           // `calibratedHeading`
    loadingLocation: bool,
    coordinates: Option<Coordinates>,
    declination: real,               // `magneticDeclination`
    captureSucceeds: bool            // the photo is taken and moved without throwing
  )

  /** The early-return guards of `takePhoto` all pass. */
  predicate GuardsPass(dev: Device) {
    dev.cameraReady && !dev.isCalibrating && dev.heading.Some? && !dev.loadingLocation
  }
}
