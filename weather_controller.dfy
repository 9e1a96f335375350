/**
 * WeatherController#index, one request at a time: a blank address ends the
 * request; otherwise the address is geocoded, a failure there is shown as the
 * alert; otherwise the weather for the location is fetched through the cache
 * under the location's zip code, or its place id when it has no zip code, and a
 * weather failure is shown as the alert and not cached.
 *
 * What the source reads from the environment and the clock (the geocoder, the
 * weather provider, `OPENWEATHER_API_KEY`, `CACHE_EXPIRATION_MINS`, `Time.now`,
 * the calendar) is the request's `Context`.
 */
module WeatherController {
  import opened Common
  import WS = WeatherService
  import LS = LocationService
  import Cache

  /** A calendar day, as given by `Time#to_date`. */
  type Day = int

  type Weather = WS.WeatherResult<Day>

  datatype Context = Context(
    search: string -> seq<LS.Match>,
    transport: WS.Request -> WS.Response,
    apiKey: Option<string>,
    ttlMinutes: nat,
    now: WS.Instant,
    dateOf: WS.Instant -> Day)

  /** How a request ends; exactly one of these. */
  datatype Outcome =
    | NoQuery
    | GeocodeFailed(error: string)
    | WeatherFailed(error: string)
    | Done(weather: Weather, cacheHit: bool)
    | Raised(error: string)   // an ArgumentError escaping `index`

  /**
   * The calls a request makes. `weather` is the weather service's own request
   * list; `geocoded` is a bookkeeping record of the address handed to the
   * geocoder, whose result is stated through `location`.
   */
  datatype Calls = Calls(geocoded: seq<string>, weather: seq<WS.Request>)

  /** The characters Ruby's `blank?` treats as space, limited to ASCII. */
  predicate Space(c: char)
  {
    c == ' ' || c == '\t' || c == '\n' || c == '\U{000B}' || c == '\U{000C}' || c == '\r'
  }

  /**
   * `params[:address].blank?`: nil, empty, or only spaces. A non-blank address
   * therefore always passes the location service's own guard.
   */
  function Blank(address: Option<string>): (b: bool)
    ensures NilOrEmpty(address) ==> b
    ensures b <==> address.None? || forall c :: c in address.value ==> Space(c)
  {
    address.None? || forall i :: 0 <= i < |address.value| ==> Space(address.value[i])
  }

  function Digit(d: nat): char
    requires d < 10
  {
    "0123456789"[d]
  }

  function Digits(n: nat): string
  {
    if n < 10 then [Digit(n)] else Digits(n / 10) + [Digit(n % 10)]
  }

  /** An integer place id as a cache key: its decimal text, as `to_param` gives it. */
  function Decimal(n: int): string
  {
    if n < 0 then "-" + Digits(-n) else Digits(n)
  }

  /** `zip_code || place_id`: the zip code whenever there is one, else the place id, else none. */
  function CacheKey(zipCode: Option<string>, placeId: Option<int>): (k: Option<string>)
    ensures zipCode.Some? ==> k == zipCode
    ensures zipCode.None? && placeId.Some? ==> k == Some(Decimal(placeId.value))
    ensures k.None? <==> zipCode.None? && placeId.None?
  {
    if zipCode.Some? then zipCode
    else if placeId.Some? then Some(Decimal(placeId.value))
    else None
  }

  /**
   * `weather_data(location)`: the weather service for the location's own
   * coordinates and the configured API key. A failure record has no
   * coordinates, so its `lat` reads as nil.
   */
  function WeatherData(loc: LS.Location, ctx: Context): (r: Result<WS.Exchange<Day>>)
    ensures loc.Located? ==>
      (r.Failure? <==> NilOrEmpty(ctx.apiKey) || !loc.lat.isFloat || !loc.lon.isFloat)
    ensures loc.Located? && r.Success? ==> forall q :: q in r.value.requests ==>
      q.query == WS.Query(ctx.apiKey.value, loc.lat, loc.lon, WS.Units)
    ensures loc.Located? && r.Success? ==>
      r.value == WS.Call(WS.New(ctx.apiKey, Some(loc.lat), Some(loc.lon)).value, ctx.transport, ctx.now, ctx.dateOf)
    ensures loc.Failed? ==> r.Failure?
  {
    var lat := if loc.Located? then Some(loc.lat) else None;
    var lon := if loc.Located? then Some(loc.lon) else None;
    WS.Fetch(ctx.apiKey, lat, lon, ctx.transport, ctx.now, ctx.dateOf)
  }

  /**
   * The block given to the cache: it runs `weather_data` and passes on the
   * result when it succeeded, nil otherwise; its note is what `weather_data`
   * gave, from which the controller takes the error message.
   */
  function Block(loc: LS.Location, ctx: Context): (b: (Option<Weather>, Result<WS.Exchange<Day>>))
    ensures b.1 == WeatherData(loc, ctx)
    ensures b.0.Some? <==> b.1.Success? && b.1.value.result.Fetched?
    ensures b.0.Some? ==> b.0.value == b.1.value.result
  {
    var r := WeatherData(loc, ctx);
    if r.Success? && r.value.result.Fetched? then (Some(r.value.result), r) else (None, r)
  }

  /** The location a non-blank address geocodes to. */
  function Locate(address: Option<string>, ctx: Context): LS.Location
    requires !Blank(address)
  {
    LS.Geocode(address, ctx.search).value
  }

  /** The cache key of a non-blank address whose geocoding succeeded. */
  function KeyFor(address: Option<string>, ctx: Context): Option<string>
    requires !Blank(address) && Locate(address, ctx).Located?
  {
    CacheKey(Locate(address, ctx).zipCode, Locate(address, ctx).placeId)
  }

  class Controller {
    var cachedWeather: bool
    var location: Option<LS.Location>
    var weatherData: Option<Weather>
    var alert: Option<string>   // flash.now[:alert]

    /** A fresh controller: every instance variable is nil. */
    constructor ()
      ensures !cachedWeather && location == None && weatherData == None && alert == None
    {
      cachedWeather, location, weatherData, alert := false, None, None, None;
    }

    /**
     * `index`. The cache key is nil only when the location has neither a zip
     * code nor a place id; then the cache is bypassed (see README).
     */
    method Index(address: Option<string>, cache: Cache.Store<Weather>, ctx: Context)
      returns (outcome: Outcome, calls: Calls)
      modifies this, cache
      // no query
      ensures Blank(address) ==>
        && outcome == NoQuery && calls == Calls([], []) && cachedWeather
        && location == old(location) && weatherData == old(weatherData) && alert == old(alert)
        && cache.entries == old(cache.entries)
      // geocoding
      ensures !Blank(address) ==>
        calls.geocoded == [address.value] && location == Some(Locate(address, ctx))
      ensures !Blank(address) && Locate(address, ctx).Failed? ==>
        && outcome == GeocodeFailed(Locate(address, ctx).error)
        && alert == Some(Locate(address, ctx).error)
        && calls.weather == [] && cachedWeather
        && weatherData == old(weatherData) && cache.entries == old(cache.entries)
      // cache hit
      ensures !Blank(address) && Locate(address, ctx).Located? && KeyFor(address, ctx).Some? &&
              Cache.Live(old(cache.entries), KeyFor(address, ctx).value, ctx.now) ==>
        var v := old(cache.entries)[KeyFor(address, ctx).value].value;
        && outcome == Done(v, true) && weatherData == Some(v) && cachedWeather
        && calls.weather == [] && alert == old(alert) && cache.entries == old(cache.entries)
      // cache miss, or no key: the block runs once
      ensures !Blank(address) && Locate(address, ctx).Located? &&
              (KeyFor(address, ctx).None? || !Cache.Live(old(cache.entries), KeyFor(address, ctx).value, ctx.now)) ==>
        var loc, key := Locate(address, ctx), KeyFor(address, ctx);
        var b := Block(loc, ctx);
        && !cachedWeather
        && cache.entries == (
             if key.None? then old(cache.entries)
             else if b.0.Some? then old(cache.entries)[key.value := Cache.Entry(b.0.value, ctx.now + ctx.ttlMinutes * 60)]
             else old(cache.entries) - {key.value})
        && (b.1.Failure? ==>
              outcome == Raised(b.1.error) && calls.weather == [] && weatherData == old(weatherData)
              && alert == old(alert))
        && (b.1.Success? ==> calls.weather == b.1.value.requests)
        && (b.0.Some? ==> outcome == Done(b.0.value, false) && weatherData == b.0 && alert == old(alert))
        && (b.1.Success? && b.1.value.result.Failed? ==>
              outcome == WeatherFailed(b.1.value.result.error) && weatherData == None
              && alert == Some(b.1.value.result.error))
    {
      cachedWeather := true;
      if Blank(address) {
        outcome, calls := NoQuery, Calls([], []);
        return;
      }

      var geocoded := LS.Geocode(address, ctx.search);
      // the controller's blank check already excludes what the service refuses
      assert geocoded.Success?;
      var loc := geocoded.value;
      location := Some(loc);
      if loc.Failed? {
        alert := Some(loc.error);
        outcome, calls := GeocodeFailed(loc.error), Calls([address.value], []);
        return;
      }

      var key := CacheKey(loc.zipCode, loc.placeId);
      cachedWeather := true;
      var weatherErrorMessage: Option<string> := None;
      var value: Option<Weather>;
      var note: Option<Result<WS.Exchange<Day>>>;
      if key.Some? {
        value, note := cache.Fetch(key.value, ctx.now, ctx.ttlMinutes * 60, () => Block(loc, ctx));
      } else {
        var b := Block(loc, ctx);
        value, note := b.0, Some(b.1);
      }

      var requests: seq<WS.Request> := [];
      if note.Some? {
        // the block ran
        cachedWeather := false;
        match note.value
        case Failure(e) =>
          outcome, calls := Raised(e), Calls([address.value], []);
          return;
        case Success(x) =>
          requests := x.requests;
          if x.result.Failed? {
            weatherErrorMessage := Some(x.result.error);
          }
      }

      weatherData := value;
      if value.None? {
        alert := weatherErrorMessage;
        outcome := WeatherFailed(weatherErrorMessage.value);
      } else {
        outcome := Done(value.value, cachedWeather);
      }
      calls := Calls([address.value], requests);
    }
  }

  /**
   * Two requests for the same address, on a fresh cache, the second at
   * `later`. A successful first answer is served from the cache while it is
   * live, without asking the weather provider again; a weather failure is not
   * cached, so the second request asks the provider again and fails alike.
   */
  method RepeatedLookup(address: Option<string>, ctx: Context, later: WS.Instant)
    returns (first: Outcome, second: Outcome, secondCalls: Calls)
    requires ctx.now <= later
    ensures first.Done? ==> !first.cacheHit
    ensures first.Done? && !Blank(address) && Locate(address, ctx).Located? && KeyFor(address, ctx).Some? &&
            later < ctx.now + ctx.ttlMinutes * 60 ==>
      second == Done(first.weather, true) && secondCalls.weather == []
    ensures first.WeatherFailed? ==> second == first && secondCalls.weather != []
  {
    var cache := new Cache.Store<Weather>();
    var c1 := new Controller();
    var calls1;
    first, calls1 := c1.Index(address, cache, ctx);
    var c2 := new Controller();
    second, secondCalls := c2.Index(address, cache, ctx.(now := later));
  }
}
