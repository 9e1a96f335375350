/**
 * WeatherService: validates its arguments, asks the weather provider for the
 * current weather and then for the forecast, stops at the first response whose
 * status is not 200, turns each provider record into a flat sample, and groups
 * the forecast samples by calendar date.
 *
 * The HTTP client is a parameter `transport` from request to response; `Call`
 * returns, beside its result, the requests it made, in order.
 */
module WeatherService {
  import opened Common
  import Grouping

  const CurrentPath := "/weather"
  const ForecastPath := "/forecast"
  const Units := "imperial"
  const IconBase := "http://openweathermap.org/img/w/"
  const IconSuffix := ".png"

  const ApiKeyRequired := "API key is required"
  const LatitudeRequired := "Latitude is required float value"
  const LongitudeRequired := "Longitude is required float value"
  const CurrentFailed := "Failed to fetch current weather"
  const ForecastFailed := "Failed to fetch forecast weather"

  /** Seconds since the epoch, as in the provider's `dt` and in `Time.now`. */
  type Instant = int

  /** The query sent with every request: `APPID`, `lat`, `lon` and `units`. */
  datatype Query = Query(appId: string, lat: Coord, lon: Coord, units: string)

  datatype Request = Request(path: string, query: Query)

  /** One entry of a provider record's `weather` array. */
  datatype Condition = Condition(description: Option<string>, icon: Option<string>)

  /** A provider record's `main` block. */
  datatype Measurements = Measurements(temp: Option<real>, tempMax: Option<real>, tempMin: Option<real>)

  /**
   * A provider record, for current weather or one forecast slot. An absent
   * `weather` array and an empty one are both the empty sequence.
   */
  datatype Record = Record(dt: Option<Instant>, weather: seq<Condition>,
                           main: Option<Measurements>, name: Option<string>)

  /**
   * A provider response: its status `cod`, its `message`, and its payload: the
   * record itself for current weather, the `list` of records for the forecast.
   */
  datatype Response = Response(cod: int, message: Option<string>, body: Record, list: seq<Record>)

  /** A normalised weather sample. */
  datatype Sample = Sample(date: Instant, description: Option<string>, iconUrl: Option<string>,
                           temp: Option<real>, highTemp: Option<real>, lowTemp: Option<real>,
                           location: Option<string>)

  /** Forecast samples grouped by calendar date, first-seen date first. */
  type Forecast<D> = seq<Grouping.Bucket<D, Sample>>

  /** What `call` returns: success with both parts, or failure with a message, never both. */
  datatype WeatherResult<D> = Fetched(current: Sample, forecast: Forecast<D>) | Failed(error: string)

  /** A service object: the request options fixed at construction. */
  datatype Service = Service(options: Query)

  /** The result of `call` together with the requests it made. */
  datatype Exchange<D> = Exchange(result: WeatherResult<D>, requests: seq<Request>)

  /**
   * `WeatherService.new`: the API key is checked first, then the latitude, then
   * the longitude; the first failing check raises its message.
   */
  function New(apiKey: Option<string>, lat: Option<Coord>, lon: Option<Coord>): (r: Result<Service>)
    ensures r.Success? <==> !NilOrEmpty(apiKey) && IsFloat(lat) && IsFloat(lon)
    ensures NilOrEmpty(apiKey) ==> r == Failure(ApiKeyRequired)
    ensures !NilOrEmpty(apiKey) && !IsFloat(lat) ==> r == Failure(LatitudeRequired)
    ensures !NilOrEmpty(apiKey) && IsFloat(lat) && !IsFloat(lon) ==> r == Failure(LongitudeRequired)
    ensures r.Success? ==> r.value.options == Query(apiKey.value, lat.value, lon.value, "imperial")
  {
    if NilOrEmpty(apiKey) then Failure(ApiKeyRequired)
    else if !IsFloat(lat) then Failure(LatitudeRequired)
    else if !IsFloat(lon) then Failure(LongitudeRequired)
    else Success(Service(Query(apiKey.value, lat.value, lon.value, Units)))
  }

  /** `icon_url`: nil without an icon code, otherwise the provider's image URL for it. */
  function IconUrl(icon: Option<string>): (u: Option<string>)
    ensures u.None? <==> icon.None?
    ensures icon.Some? ==> u == Some(IconBase + icon.value + IconSuffix)
  {
    match icon
    case None => None
    case Some(code) => Some(IconBase + code + IconSuffix)
  }

  /** Distinct icon codes give distinct URLs, so the URL determines the icon. */
  lemma IconUrlInjective(a: Option<string>, b: Option<string>)
    requires IconUrl(a) == IconUrl(b)
    ensures a == b
  {
    if a.Some? {
      var u := IconUrl(a).value;
      assert u[|IconBase|..|u| - |IconSuffix|] == a.value;
      assert u[|IconBase|..|u| - |IconSuffix|] == b.value;
    }
  }

  /** `resp.dig("weather", 0, key)`: the first condition, when there is one. */
  function FirstCondition(r: Record): Option<Condition>
  {
    if |r.weather| > 0 then Some(r.weather[0]) else None
  }

  function Description(r: Record): Option<string>
  {
    match FirstCondition(r)
    case Some(c) => c.description
    case None => None
  }

  function Icon(r: Record): Option<string>
  {
    match FirstCondition(r)
    case Some(c) => c.icon
    case None => None
  }

  /**
   * `build_weather`: the date is the record's `dt`, or the clock when it has
   * none; description and icon come from the first condition only; the
   * temperatures from `main`; the location from `name`.
   */
  function BuildWeather(r: Record, now: Instant): (s: Sample)
    ensures s.date == if r.dt.Some? then r.dt.value else now
    ensures s.description == (if |r.weather| > 0 then r.weather[0].description else None)
    ensures s.iconUrl == IconUrl(if |r.weather| > 0 then r.weather[0].icon else None)
    ensures s.iconUrl.Some? <==> |r.weather| > 0 && r.weather[0].icon.Some?
    ensures s.temp == (if r.main.Some? then r.main.value.temp else None)
    ensures s.highTemp == (if r.main.Some? then r.main.value.tempMax else None)
    ensures s.lowTemp == (if r.main.Some? then r.main.value.tempMin else None)
    ensures s.location == r.name
  {
    var m := r.main;
    Sample(
      date := if r.dt.Some? then r.dt.value else now,
      description := Description(r),
      iconUrl := IconUrl(Icon(r)),
      temp := if m.Some? then m.value.temp else None,
      highTemp := if m.Some? then m.value.tempMax else None,
      lowTemp := if m.Some? then m.value.tempMin else None,
      location := r.name)
  }

  /** Conditions after the first one never affect the sample. */
  lemma BuildWeatherUsesFirstCondition(r: Record, r': Record, now: Instant)
    requires r.dt == r'.dt && r.main == r'.main && r.name == r'.name
    requires |r.weather| > 0 && |r'.weather| > 0 && r.weather[0] == r'.weather[0]
    ensures BuildWeather(r, now) == BuildWeather(r', now)
  {
  }

  /** `get_current`: nil unless the status is 200, otherwise the record as a sample. */
  function GetCurrent(resp: Response, now: Instant): (s: Option<Sample>)
    ensures s.Some? <==> resp.cod == 200
    ensures s.Some? ==> s.value == BuildWeather(resp.body, now)
  {
    if resp.cod != 200 then None else Some(BuildWeather(resp.body, now))
  }

  /** `resp["list"].map { build_weather }`. */
  function Samples(list: seq<Record>, now: Instant): (ss: seq<Sample>)
    ensures |ss| == |list|
    ensures forall i :: 0 <= i < |list| ==> ss[i] == BuildWeather(list[i], now)
  {
    seq(|list|, i requires 0 <= i < |list| => BuildWeather(list[i], now))
  }

  /** `weather.date.to_date`, with the calendar of the sample's instant given as `dateOf`. */
  function DateKey<D>(dateOf: Instant -> D): Sample -> D
  {
    (s: Sample) => dateOf(s.date)
  }

  /**
   * `data.group_by { |weather| weather.date.to_date }`: the forecast samples
   * grouped by the calendar date of their instant. Where each sample goes is
   * stated by `GroupByDateBuckets`.
   */
  function GroupByDate<D(==)>(list: seq<Record>, now: Instant, dateOf: Instant -> D): (f: Forecast<D>)
    ensures |f| <= |list|
    ensures f == [] <==> list == []
    ensures forall i :: 0 <= i < |f| ==> f[i].items != []
  {
    Grouping.GroupBy(Samples(list, now), DateKey(dateOf))
  }

  /** `get_forecast`: nil unless the status is 200, otherwise the grouped samples. */
  function GetForecast<D(==)>(resp: Response, now: Instant, dateOf: Instant -> D): (f: Option<Forecast<D>>)
    ensures f.Some? <==> resp.cod == 200
    ensures f.Some? ==> f.value == GroupByDate(resp.list, now, dateOf)
  {
    if resp.cod != 200 then None else Some(GroupByDate(resp.list, now, dateOf))
  }

  /**
   * The dates of the grouped forecast are the records' dates in order of first
   * appearance, and each bucket holds the samples of its date in list order.
   */
  lemma GroupByDateStructure<D>(list: seq<Record>, now: Instant, dateOf: Instant -> D)
    ensures |GroupByDate(list, now, dateOf)| == |Grouping.FirstSeen(Samples(list, now), DateKey(dateOf))|
    ensures forall i :: 0 <= i < |GroupByDate(list, now, dateOf)| ==>
      GroupByDate(list, now, dateOf)[i].key == Grouping.FirstSeen(Samples(list, now), DateKey(dateOf))[i]
    ensures forall i :: 0 <= i < |GroupByDate(list, now, dateOf)| ==>
      GroupByDate(list, now, dateOf)[i].items ==
        Grouping.Filter(Samples(list, now), DateKey(dateOf), GroupByDate(list, now, dateOf)[i].key)
  {
    Grouping.GroupByBuckets(Samples(list, now), DateKey(dateOf));
  }

  /**
   * Each forecast record lands in the bucket for its own calendar date and in no
   * other; buckets are non-empty and have distinct dates.
   */
  lemma GroupByDateBuckets<D>(list: seq<Record>, now: Instant, dateOf: Instant -> D, p: nat)
    requires p < |list|
    ensures exists i ::
              && 0 <= i < |GroupByDate(list, now, dateOf)|
              && GroupByDate(list, now, dateOf)[i].key == dateOf(BuildWeather(list[p], now).date)
    ensures forall i :: 0 <= i < |GroupByDate(list, now, dateOf)| ==>
      (BuildWeather(list[p], now) in GroupByDate(list, now, dateOf)[i].items <==>
       GroupByDate(list, now, dateOf)[i].key == dateOf(BuildWeather(list[p], now).date))
    ensures forall i :: 0 <= i < |GroupByDate(list, now, dateOf)| ==> GroupByDate(list, now, dateOf)[i].items != []
    ensures forall i, j :: 0 <= i < j < |GroupByDate(list, now, dateOf)| ==>
      GroupByDate(list, now, dateOf)[i].key != GroupByDate(list, now, dateOf)[j].key
  {
    var ss := Samples(list, now);
    var key := DateKey(dateOf);
    Grouping.GroupByPlacement(ss, key, p);
    Grouping.GroupByShape(ss, key);
    var g := GroupByDate(list, now, dateOf);
    assert key(ss[p]) == dateOf(BuildWeather(list[p], now).date);
    var i :| 0 <= i < |g| && g[i].key == key(ss[p]);
    assert g[i].key == dateOf(BuildWeather(list[p], now).date);
  }

  /**
   * `forecast[date].first`: looking up the calendar date of the first forecast
   * record gives a bucket that starts with that record's sample.
   */
  lemma ForecastFirstOfDay<D>(list: seq<Record>, now: Instant, dateOf: Instant -> D)
    requires |list| > 0
    ensures var day := Grouping.Get(GroupByDate(list, now, dateOf), dateOf(BuildWeather(list[0], now).date));
      day.Some? && |day.value| > 0 && day.value[0] == BuildWeather(list[0], now)
  {
    var ss := Samples(list, now);
    var key := DateKey(dateOf);
    var d := dateOf(BuildWeather(list[0], now).date);
    assert key(ss[0]) == d;
    Grouping.GroupByGet(ss, key, d);
  }

  /** The current-weather case of the service's tests: temperature, description and icon URL. */
  lemma CurrentWeatherExample(now: Instant)
    ensures GetCurrent(Response(200, None,
                                Record(None, [Condition(Some("clear sky"), Some("01d"))],
                                       Some(Measurements(Some(75.0), None, None)), None),
                                []), now)
         == Some(Sample(now, Some("clear sky"), Some("http://openweathermap.org/img/w/01d.png"),
                        Some(75.0), None, None, None))
  {
    assert IconBase + "01d" + IconSuffix == "http://openweathermap.org/img/w/01d.png";
  }

  /**
   * `call`: current weather first; a failure there is reported as such and the
   * forecast is never requested. Then the forecast; a failure there drops the
   * current weather. Both requests carry the service's options.
   */
  function Call<D(==)>(svc: Service, transport: Request -> Response, now: Instant, dateOf: Instant -> D): (x: Exchange<D>)
    ensures |x.requests| >= 1 && x.requests[0] == Request(CurrentPath, svc.options)
    ensures forall q :: q in x.requests ==> q.query == svc.options
    ensures transport(Request(CurrentPath, svc.options)).cod != 200 ==>
      x == Exchange(Failed(CurrentFailed), [Request(CurrentPath, svc.options)])
    ensures transport(Request(CurrentPath, svc.options)).cod == 200 ==>
      x.requests == [Request(CurrentPath, svc.options), Request(ForecastPath, svc.options)]
    ensures transport(Request(CurrentPath, svc.options)).cod == 200
              && transport(Request(ForecastPath, svc.options)).cod != 200
            ==> x.result == Failed(ForecastFailed)
    ensures x.result.Fetched? <==>
      transport(Request(CurrentPath, svc.options)).cod == 200 && transport(Request(ForecastPath, svc.options)).cod == 200
    ensures x.result.Fetched? ==>
      && x.result.current == BuildWeather(transport(Request(CurrentPath, svc.options)).body, now)
      && x.result.forecast == GroupByDate(transport(Request(ForecastPath, svc.options)).list, now, dateOf)
  {
    var currentRequest := Request(CurrentPath, svc.options);
    var current := GetCurrent(transport(currentRequest), now);
    if current.None? then Exchange(Failed(CurrentFailed), [currentRequest])
    else
      var forecastRequest := Request(ForecastPath, svc.options);
      var forecast := GetForecast(transport(forecastRequest), now, dateOf);
      if forecast.None? then Exchange(Failed(ForecastFailed), [currentRequest, forecastRequest])
      else Exchange(Fetched(current.value, forecast.value), [currentRequest, forecastRequest])
  }

  /**
   * When the current weather fails, the forecast response plays no part: two
   * providers that agree on the current weather give the same exchange.
   */
  lemma CurrentFailureIgnoresForecast<D>(svc: Service, t1: Request -> Response, t2: Request -> Response,
                                            now: Instant, dateOf: Instant -> D)
    requires t1(Request(CurrentPath, svc.options)) == t2(Request(CurrentPath, svc.options))
    requires t1(Request(CurrentPath, svc.options)).cod != 200
    ensures Call(svc, t1, now, dateOf) == Call(svc, t2, now, dateOf)
  {
  }

  /** `WeatherService.call(**kwargs)`: construct, then call. */
  function Fetch<D(==)>(apiKey: Option<string>, lat: Option<Coord>, lon: Option<Coord>,
                        transport: Request -> Response, now: Instant, dateOf: Instant -> D): (r: Result<Exchange<D>>)
    ensures r.Failure? <==> New(apiKey, lat, lon).Failure?
    ensures r.Failure? ==> r.error == New(apiKey, lat, lon).error
    ensures r.Success? ==> forall q :: q in r.value.requests ==>
      q.query == Query(apiKey.value, lat.value, lon.value, Units)
    ensures r.Success? ==> r.value == Call(New(apiKey, lat, lon).value, transport, now, dateOf)
  {
    match New(apiKey, lat, lon)
    case Failure(e) => Failure(e)
    case Success(svc) => Success(Call(svc, transport, now, dateOf))
  }
}
