/**
 * `getDestinationPoint` of App.tsx (and its copy in app-changed.tsx). The
 * spherical trigonometry (`asin`, `atan2`, `sin`, `cos`) is a parameter of
 * the model; what is modelled is the unit conversion around it and the
 * longitude wrap.
 */
module Projection {
  import opened Angles

  datatype Coordinates = Coordinates(latitude: real, longitude: real)

  /**
   * The trigonometric core: from the start latitude and longitude, the
   * bearing and the angular distance (all in radians) to the destination
   * latitude and the `atan2` term added to the start longitude (radians).
   */
  type Spherical = (real, real, real, real) -> (real, real)

  /** `earthRadius`, in metres. */
  const EarthRadius: real := 6371000.0

  function Radians(degrees: real): real {
    degrees * Pi / 180.0
  }

  function Degrees(radians: real): real {
    radians * 180.0 / Pi
  }

  /**
   * The point `distance` metres from `start` along `bearing` degrees. With a
   * start longitude in [-180, 180] and an `atan2` term in [-pi, pi] (the
   * range of `Math.atan2`), the end longitude lands in [-180, 180).
   */
  function DestinationPoint(start: Coordinates, bearing: real, distance: real, sph: Spherical): (r: Coordinates)
    ensures var turn := sph(Radians(start.latitude), Radians(start.longitude), Radians(bearing), distance / EarthRadius).1;
            -180.0 <= start.longitude <= 180.0 && -Pi <= turn <= Pi ==> -180.0 <= r.longitude < 180.0
    ensures var turn := sph(Radians(start.latitude), Radians(start.longitude), Radians(bearing), distance / EarthRadius).1;
            -Pi <= Radians(start.longitude) + turn < Pi ==> r.longitude == start.longitude + Degrees(turn)
  {
    var lat1 := Radians(start.latitude);
    var lon1 := Radians(start.longitude);
    var (lat2, turn) := sph(lat1, lon1, Radians(bearing), distance / EarthRadius);
    WrapLongitudeFixesCanonical(lon1 + turn);
    var lon2 := WrapLongitude(lon1 + turn);
    Coordinates(Degrees(lat2), Degrees(lon2))
  }
}
