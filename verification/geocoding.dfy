/**
 * The reverse-geocoder's reply as the app reads it, and App.tsx's
 * `formatAddress`. A JavaScript field that is missing and one holding the
 * empty string are both falsy and behave alike everywhere in the app, so
 * both are the empty string here.
 */
module Geocoding {
  import opened Wrappers

  /** The `address` object of a Nominatim reply: the fields the app reads. */
  datatype Address = Address(city: string, town: string, village: string, road: string, houseNumber: string)

  /** One reverse-geocode reply: an optional `address` object and `display_name`. */
  datatype GeoData = GeoData(address: Option<Address>, displayName: string)

  /** `geoData && geoData.address`; a failed fetch is `None`. */
  predicate HasAddress(g: Option<GeoData>) {
    g.Some? && g.value.address.Some?
  }

  /** `geoData.address.house_number` is truthy: the probe hit a building. */
  predicate HasHouseNumber(g: Option<GeoData>) {
    HasAddress(g) && g.value.address.value.houseNumber != ""
  }

  /** The separator `parts.join(', ')` puts between parts. */
  const Separator: string := ", "

  /** `city || town || village || ''`. */
  function CityName(a: Address): (r: string)
    ensures r == "" <==> a.city == "" && a.town == "" && a.village == ""
    ensures r in {a.city, a.town, a.village}
  {
    if a.city != "" then a.city else if a.town != "" then a.town else a.village
  }

  /** `parts.filter(Boolean)` on strings: drops the empty ones, keeps the order. */
  function NonEmpty(parts: seq<string>): (r: seq<string>)
    ensures |r| <= |parts|
    ensures forall i :: 0 <= i < |r| ==> r[i] != "" && r[i] in parts
  {
    if |parts| == 0 then []
    else if parts[0] == "" then NonEmpty(parts[1..])
    else [parts[0]] + NonEmpty(parts[1..])
  }

  /** `parts.join(sep)`. */
  function Join(parts: seq<string>, sep: string): (r: string)
    ensures |parts| == 0 ==> r == ""
    ensures |parts| == 1 ==> r == parts[0]
    ensures |parts| > 0 ==> parts[0] <= r
  {
    if |parts| == 0 then ""
    else if |parts| == 1 then parts[0]
    else parts[0] + sep + Join(parts[1..], sep)
  }

  /** The three parts `formatAddress` considers, in output order. */
  function AddressParts(a: Address): seq<string> {
    [CityName(a), a.road, a.houseNumber]
  }

  /** App.tsx `formatAddress`: city, road and house number joined by ", ". */
  function FormatAddress(g: Option<GeoData>): (r: string)
    ensures !HasAddress(g) ==> r == ""
  {
    if !HasAddress(g) then ""
    else Join(NonEmpty(AddressParts(g.value.address.value)), Separator)
  }

  /**
   * `formatAddress` case by case: each combination of present parts gives
   * exactly the parts present, in the order city, road, house number, with a
   * single ", " between neighbours and none at either end.
   */
  ghost predicate FormatsAs(city: string, road: string, house: string, r: string) {
    && (city != "" && road != "" && house != "" ==> r == city + ", " + road + ", " + house)
    && (city != "" && road != "" && house == "" ==> r == city + ", " + road)
    && (city != "" && road == "" && house != "" ==> r == city + ", " + house)
    && (city == "" && road != "" && house != "" ==> r == road + ", " + house)
    && (city != "" && road == "" && house == "" ==> r == city)
    && (city == "" && road != "" && house == "" ==> r == road)
    && (city == "" && road == "" && house != "" ==> r == house)
    && (city == "" && road == "" && house == "" ==> r == "")
  }

  lemma FormatAddressCases(g: Option<GeoData>)
    requires HasAddress(g)
    ensures var a := g.value.address.value;
            FormatsAs(CityName(a), a.road, a.houseNumber, FormatAddress(g))
  {
    var a := g.value.address.value;
    var c, rd, h := CityName(a), a.road, a.houseNumber;
    NonEmptyOfThree(c, rd, h);
    var kept := Keep(c) + Keep(rd) + Keep(h);
    if |kept| == 2 {
      JoinTwo(kept, Separator);
    } else if |kept| == 3 {
      JoinThree(kept, Separator);
    }
  }

  lemma JoinTwo(parts: seq<string>, sep: string)
    requires |parts| == 2
    ensures Join(parts, sep) == parts[0] + sep + parts[1]
  {
    assert parts[1..] == [parts[1]];
  }

  lemma JoinThree(parts: seq<string>, sep: string)
    requires |parts| == 3
    ensures Join(parts, sep) == parts[0] + sep + (parts[1] + sep + parts[2])
  {
    var rest := parts[1..];
    assert rest[0] == parts[1] && rest[1] == parts[2];
    JoinTwo(rest, sep);
  }

  /** A single part as `filter(Boolean)` keeps it: itself if non-empty, else nothing. */
  function Keep(part: string): seq<string> {
    if part == "" then [] else [part]
  }

  lemma NonEmptyOfThree(a: string, b: string, c: string)
    ensures NonEmpty([a, b, c]) == Keep(a) + Keep(b) + Keep(c)
  {
    assert [a, b, c][1..] == [b, c];
    assert [b, c][1..] == [c];
    assert [c][1..] == [];
    assert NonEmpty([c]) == Keep(c);
    assert NonEmpty([b, c]) == Keep(b) + Keep(c);
  }

  /**
   * The formatted address is empty exactly when there is no address object
   * or none of city, town, village, road and house number is set.
   */
  lemma FormatAddressEmpty(g: Option<GeoData>)
    ensures FormatAddress(g) == "" <==>
              !HasAddress(g) ||
              (var a := g.value.address.value;
               a.city == "" && a.town == "" && a.village == "" && a.road == "" && a.houseNumber == "")
  {
    if HasAddress(g) {
      FormatAddressCases(g);
    }
  }

  /** A reply with a house number always shows it, at the end of the formatted address. */
  lemma HouseNumberShown(g: Option<GeoData>)
    requires HasHouseNumber(g)
    ensures var h := g.value.address.value.houseNumber; var r := FormatAddress(g);
            HasAddress(g) && |h| <= |r| && r[|r| - |h|..] == h
  {
    var h := g.value.address.value.houseNumber;
    FormatAddressCases(g);
    var r := FormatAddress(g);
    var front := r[..|r| - |h|];
    assert r == front + h;
  }

  /** The settlement shown is the city if set, else the town, else the village. */
  lemma CityPreferred(a: Address)
    ensures a.city != "" ==> CityName(a) == a.city
    ensures a.city == "" && a.town != "" ==> CityName(a) == a.town
    ensures a.city == "" && a.town == "" ==> CityName(a) == a.village
  {
  }
}
