/**
 * LocationService: refuses a nil or empty address, geocodes it, and projects the
 * first match onto a location record, or reports that geocoding failed.
 *
 * The geocoder is a parameter `search` from address to the list of matches.
 */
module LocationService {
  import opened Common

  const AddressRequired := "Address is required"
  const GeocodeFailed := "Failed to geocode address"

  /** The `address` breakdown of a match. */
  datatype AddressParts = AddressParts(postcode: Option<string>)

  /** A match's `data` hash, with the fields the service reads. */
  datatype MatchData = MatchData(placeId: Option<int>, lat: Option<Coord>, lon: Option<Coord>,
                                 displayName: Option<string>, address: Option<AddressParts>)

  /** One geocoding match; its `data` may be nil. */
  datatype Match = Match(data: Option<MatchData>)

  /** What `call` returns: a location, or a failure message, never both. */
  datatype Location =
    | Located(placeId: Option<int>, lat: Coord, lon: Coord, name: Option<string>, zipCode: Option<string>)
    | Failed(error: string)

  /** A service object: the address fixed at construction. */
  datatype Service = Service(address: string)

  /** `LocationService.new`: raises unless the address is present and non-empty. */
  function New(address: Option<string>): (r: Result<Service>)
    ensures r.Failure? <==> NilOrEmpty(address)
    ensures r.Failure? ==> r.error == AddressRequired
    ensures r.Success? ==> r.value.address == address.value
  {
    if NilOrEmpty(address) then Failure(AddressRequired) else Success(Service(address.value))
  }

  /**
   * `to_f` on a coordinate: the result is always a Float; a nil coordinate reads
   * as 0.0. Parsing the text of a string coordinate is not modelled.
   */
  function ToF(c: Option<Coord>): (f: Coord)
    ensures f.isFloat
    ensures f.reading == if c.Some? then c.value.reading else 0.0
  {
    match c
    case Some(v) => Coord(v.reading, true)
    case None => Coord(0.0, true)
  }

  /** `resp.dig("address", "postcode")`. */
  function Postcode(d: MatchData): Option<string>
  {
    match d.address
    case Some(parts) => parts.postcode
    case None => None
  }

  /**
   * `call`: geocodes the service's own address; only the first match counts;
   * without one, or without its data, geocoding has failed.
   */
  function Call(svc: Service, search: string -> seq<Match>): (loc: Location)
    ensures var matches := search(svc.address);
      loc.Failed? <==> matches == [] || matches[0].data.None?
    ensures loc.Failed? ==> loc.error == GeocodeFailed
    ensures loc.Located? ==>
      var d := search(svc.address)[0].data.value;
      && loc.placeId == d.placeId
      && loc.name == d.displayName
      && loc.lat == ToF(d.lat) && loc.lon == ToF(d.lon)
      && loc.zipCode == (if d.address.Some? then d.address.value.postcode else None)
  {
    var matches := search(svc.address);
    if matches == [] || matches[0].data.None? then Failed(GeocodeFailed)
    else
      var d := matches[0].data.value;
      Located(d.placeId, ToF(d.lat), ToF(d.lon), d.displayName, Postcode(d))
  }

  /** Matches after the first have no effect: geocoders that agree on the first match give the same result. */
  lemma OnlyFirstMatch(svc: Service, s1: string -> seq<Match>, s2: string -> seq<Match>)
    requires |s1(svc.address)| > 0 && |s2(svc.address)| > 0
    requires s1(svc.address)[0] == s2(svc.address)[0]
    ensures Call(svc, s1) == Call(svc, s2)
  {
  }

  /** A located result always carries Float coordinates. */
  lemma LocatedCoordinatesAreFloats(svc: Service, search: string -> seq<Match>)
    ensures Call(svc, search).Located? ==> Call(svc, search).lat.isFloat && Call(svc, search).lon.isFloat
  {
  }

  /** `LocationService.call(address:)`: construct, then geocode the address. */
  function Geocode(address: Option<string>, search: string -> seq<Match>): (r: Result<Location>)
    ensures r.Failure? <==> NilOrEmpty(address)
    ensures r.Failure? ==> r.error == AddressRequired
    ensures r.Success? ==> r.value == Call(Service(address.value), search)
  {
    match New(address)
    case Failure(e) => Failure(e)
    case Success(svc) => Success(Call(svc, search))
  }

  /**
   * A nil or empty address fails before any geocoding: the geocoder's answers
   * play no part.
   */
  lemma EmptyAddressNeedsNoSearch(address: Option<string>, s1: string -> seq<Match>, s2: string -> seq<Match>)
    requires NilOrEmpty(address)
    ensures Geocode(address, s1) == Geocode(address, s2) == Failure(AddressRequired)
  {
  }
}
