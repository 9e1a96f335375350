# Weather lookup: a Dafny model

This project models the core of a small Rails application that shows the weather
for a free-text address. A request goes through two hops with a cache in between:

1. **LocationService** geocodes the address. It refuses a nil or empty address,
   uses only the first geocoding match, and returns either a location record or
   the failure "Failed to geocode address".
2. **WeatherService** validates an API key and a latitude/longitude pair. It asks
   the OpenWeatherMap provider for current weather and then for the forecast, and
   stops at the first response whose `cod` is not 200. It turns each provider
   record into a flat sample and groups the forecast samples by calendar date,
   with Ruby's stable `group_by`.
3. **WeatherController#index** connects the two. It stops on a blank address and
   shows a geocoding failure as the alert. Otherwise it fetches the weather via
   `Rails.cache.fetch` with `skip_nil: true`. The cache key is the zip code, or
   the place id when there is no zip code. It records whether the value came
   from the cache, and it shows a weather failure as the alert without caching it.

## How the model is structured

| file | module | form |
|---|---|---|
| `common.dfy` | `Common` | `Option` (Ruby's nil), `Result` (an `ArgumentError` raised by a constructor), `Coord` |
| `grouping.dfy` | `Grouping` | `group_by` as a recursive function, with lemmas against reference definitions |
| `weather_service.dfy` | `WeatherService` | functions: construction, record normalisation, icon URL, the two-stage call |
| `location_service.dfy` | `LocationService` | functions: construction, first-match projection |
| `cache.dfy` | `Cache` | class `Store` holding the entry map, with a `Fetch` method |
| `weather_controller.dfy` | `WeatherController` | class `Controller` with the instance variables of `index`, and its `Index` method |

Remote calls and ambient state are explicit inputs:

- The HTTP client (`self.class.get`) is a parameter `transport: Request -> Response`.
  `WeatherService.Call` returns its result together with the list of requests it
  made. That list is what shows that the forecast endpoint is never requested
  after a current-weather failure.
- `Geocoder.search` is a parameter `search: string -> seq<Match>`. Each match's
  `data` may be nil.
- The API key, the TTL in minutes, the clock (`Time.now`) and the calendar
  (`Time#to_date`, a function from instant to day) make up the controller's
  `Context`.
- The cache block writes to `@cached_weather` and to the local
  `weather_error_message`. Here the block returns a "note" together with its
  value. `Store.Fetch` returns `Some(note)` exactly when the block ran, and
  `Index` applies those writes straight after the fetch.
- Ruby's loosely typed `OpenStruct` results become tagged unions:
  `WeatherResult = Fetched(current, forecast) | Failed(error)` and
  `Location = Located(...) | Failed(error)`. Success and failure therefore cannot
  occur together.

Where the code behaves in ways that are easy to miss, the model follows the code:

- The code checks the coordinates only with `is_a?(Float)`, so a NaN or infinite
  Float is accepted.
- When `OPENWEATHER_API_KEY` is nil or empty, `WeatherService.new` raises inside
  the cache block. The exception escapes `index`. The model adds a fifth outcome,
  `Raised`, to the four ways `index` otherwise ends: no query, geocode failed,
  weather failed, done.
- `index` tests the address with `blank?`, so whitespace-only input counts as
  "no query". `LocationService` itself tests only `empty?`.
- The provider's failure message is only logged. It is carried in
  `Response.message` and otherwise unused.
- Rails drops an expired entry before running the block. A miss that fails
  therefore leaves the map without the key, which matters only when the key held
  an expired entry.

## Model

| member | source | states |
|---|---|---|
| `Grouping.GroupBy` | app/services/weather_service.rb:110 | there are no more buckets than elements, none exactly for empty input, and no bucket is empty; the full result is stated by `GroupByBuckets`, `GroupByShape`, `GroupByPlacement` and `GroupByGet` |
| `Grouping.Insert` | app/services/weather_service.rb:110 | adding one element keeps every existing bucket's place and key; every bucket with another key is unchanged; the first bucket with the element's key gains the element at its end, and a new key opens a one-element bucket after all the others |
| `Grouping.InsertGet` | app/services/weather_service.rb:110 | after inserting under a key, looking that key up gives what it held before followed by the element, or the element alone for a new key |
| `Grouping.InsertKeepsOthers` | app/services/weather_service.rb:110 | inserting under one key leaves every other key's lookup unchanged |
| `Grouping.GroupByBuckets` | app/services/weather_service.rb:110 | the grouped hash has one bucket per key, keys in order of first appearance, each bucket equal to the input filtered to its key in input order, and no element lost or duplicated |
| `Grouping.GroupByShape` | app/services/weather_service.rb:110 | buckets are non-empty and their keys are pairwise distinct |
| `Grouping.GroupByPlacement` | app/services/weather_service.rb:110 | every element is in the bucket for its own key and in no other bucket |
| `Grouping.GroupByGet` | spec/services/weather_service_spec.rb:68 | looking a key up in the grouped hash gives the input filtered to that key if some element has the key, and nil otherwise |
| `Grouping.FirstSeenOrder` | app/services/weather_service.rb:110 | if key i is listed before key j, some element with key i comes before every element with key j |
| `Grouping.FirstSeenMembers` | app/services/weather_service.rb:110 | a key is listed exactly when some element has it |
| `Grouping.FirstSeenDistinct` | app/services/weather_service.rb:110 | no key is listed twice |
| `Grouping.FilterMembers` | app/services/weather_service.rb:110 | a bucket's filter holds exactly the input elements with that key |
| `Grouping.Get` | spec/services/weather_service_spec.rb:68 | `hash[k]` is nil exactly when no bucket has key k, and otherwise a bucket with key k |
| `WeatherService.New` | app/services/weather_service.rb:38-44 | construction succeeds only with a non-empty key and Float lat and lon; the checks run key, then latitude, then longitude, and the first one that fails raises its message; the query is the key, lat, lon and units "imperial" |
| `WeatherService.IconUrl` | app/services/weather_service.rb:137-141 | nil exactly when the icon is absent; otherwise the provider's base path, the code and ".png" |
| `WeatherService.IconUrlInjective` | app/services/weather_service.rb:137-141 | equal icon URLs come from equal icon codes |
| `WeatherService.BuildWeather` | app/services/weather_service.rb:119-131 | the date is `dt`, or the clock when `dt` is absent; description is the first condition's, nil without one; the icon URL is `IconUrl` of the first condition's icon, so there is one exactly when that icon exists; temp, high and low are `main`'s temp, temp_max and temp_min, nil without `main`; location is `name` |
| `WeatherService.BuildWeatherUsesFirstCondition` | app/services/weather_service.rb:124-125 | conditions after the first have no effect on the sample |
| `WeatherService.GetCurrent` | app/services/weather_service.rb:85-93 | a sample exactly when `cod` is 200, and then it is the normalised record |
| `WeatherService.Samples` | app/services/weather_service.rb:106-108 | one sample per forecast record, in list order |
| `WeatherService.GetForecast` | app/services/weather_service.rb:99-111 | a forecast exactly when `cod` is 200, and then it is the samples grouped by date |
| `WeatherService.GroupByDate` | app/services/weather_service.rb:106-110 | no more dates than records, none exactly for an empty list, and no date's bucket is empty |
| `WeatherService.GroupByDateStructure` | app/services/weather_service.rb:106-110 | the dates are the records' dates in order of first appearance, and each bucket holds the samples of its date in list order |
| `WeatherService.GroupByDateBuckets` | app/services/weather_service.rb:106-110 | each forecast record's sample is in the bucket for its own date and in no other; buckets are non-empty and their dates distinct |
| `WeatherService.ForecastFirstOfDay` | spec/services/weather_service_spec.rb:113-115 | looking up the first record's date gives a bucket that starts with that record's sample |
| `WeatherService.CurrentWeatherExample` | spec/services/weather_service_spec.rb:90-100 | the test's current-weather response gives temperature 75.0, "clear sky" and the 01d icon URL |
| `WeatherService.Call` | app/services/weather_service.rb:65-77 | asks for current weather first, with the service's query on every request; a current failure gives "Failed to fetch current weather" after that one request; a forecast failure gives "Failed to fetch forecast weather" and drops the current weather; success exactly when both answer 200 |
| `WeatherService.CurrentFailureIgnoresForecast` | app/services/weather_service.rb:66-67 | after a current-weather failure the forecast response plays no part in the result |
| `WeatherService.Fetch` | app/services/weather_service.rb:54-56 | the class-level call raises exactly when construction does; otherwise every request carries the given key, lat and lon |
| `LocationService.New` | app/services/location_service.rb:27-31 | a nil or empty address raises "Address is required"; any other address is kept |
| `LocationService.ToF` | app/services/location_service.rb:49-50 | `to_f` always gives a Float; a nil coordinate reads as 0.0 |
| `LocationService.Call` | app/services/location_service.rb:42-54 | geocodes the service's own address; fails with "Failed to geocode address" exactly when there is no first match or it has no data; otherwise place id, name, lat, lon and zip code (nil without a postcode) come from the first match |
| `LocationService.OnlyFirstMatch` | app/services/location_service.rb:43 | two geocoders that agree on the first match for the address give the same result |
| `LocationService.LocatedCoordinatesAreFloats` | app/services/location_service.rb:49-50 | a located result has Float coordinates |
| `LocationService.Geocode` | app/services/location_service.rb:37-39 | the class-level call raises exactly for a nil or empty address; otherwise it geocodes exactly that address |
| `LocationService.EmptyAddressNeedsNoSearch` | app/services/location_service.rb:30 | a nil or empty address fails whatever the geocoder would answer |
| `Cache.Store.Fetch` | app/controllers/weather_controller.rb:23 | a live entry is returned and the block does not run; otherwise the block runs once, a non-nil value is stored with expiry now + TTL, and a nil value is not stored |
| `WeatherController.Blank` | app/controllers/weather_controller.rb:4 | nil, empty or all-space addresses are blank, and nothing else; so a non-blank address also passes the location service's nil-or-empty guard |
| `WeatherController.CacheKey` | app/controllers/weather_controller.rb:18 | the zip code whenever there is one, otherwise the place id, otherwise none |
| `WeatherController.WeatherData` | app/controllers/weather_controller.rb:43-51 | the weather service gets the location's own lat and lon and the configured key; it raises exactly for a missing key or non-Float coordinates, and otherwise gives the weather service's `call` exchange for the constructed service |
| `WeatherController.Block` | app/controllers/weather_controller.rb:24-31 | the block yields the weather result exactly when it succeeded, and nil otherwise |
| `WeatherController.Controller.Index` | app/controllers/weather_controller.rb:2-39 | blank address: no query, nothing touched, the cached flag true; geocode failure: its error as alert, no weather call; live hit: the stored value, no loader call, flag true; miss: one loader call, flag false, success stored with expiry now + TTL, failure not stored, data nil and the service's error as alert; a raised `ArgumentError` leaves the data and the alert as they were |
| `WeatherController.RepeatedLookup` | app/controllers/weather_controller.rb:21-36 | on a fresh cache, a successful answer repeated within the TTL comes from the cache with no provider call; a weather failure is asked again and fails the same way |

## Left out

- HTTP transport, retries and exceptions from HTTParty or network errors: the transport is a total function, and the base URI is not modelled.
- Geocoder internals and their errors: `search` is a total function.
- `Rails.logger`, `flash` as a framework object, `render`, the views: the alert is a field of the controller.
- Reading `ENV`: the API key and the TTL are inputs. `String#to_i` on `CACHE_EXPIRATION_MINS` is not modelled, and the TTL is a natural number, so Rails' refusal of a negative expiry is not covered.
- Float semantics: a coordinate is a numeric reading plus an "is a Float" flag. Parsing in `to_f`, NaN and infinities are not modelled, and temperatures pass through unchanged.
- `cod` parsing with `String#to_i`: `cod` is an integer, and anything other than 200 is a failure.
- Time zones: instants are integers and the calendar is a parameter. One clock value serves the whole request, while Ruby reads `Time.now` again for each record that lacks `dt`.
- A 200 forecast response without a `list` (a `NoMethodError` in Ruby): the list is always a sequence. An absent `weather` array and an empty one are treated alike.
- Concurrency: races between concurrent misses on one key, and last write wins across processes.
- The nil cache key: when a location has neither a zip code nor a place id, Rails' behaviour for a nil key depends on the store. The model chooses to bypass the cache for that request: the block runs and nothing is stored.
- Cache store configuration: eviction (LRU, memory limits) and the null store are not modelled. The store keeps entries until they expire.
- `blank?` on non-ASCII whitespace is not modelled; only ASCII spaces count.
- A `"dt"` key whose value is nil: `Record.dt` is an option, so such a key reads as absent and the sample takes the clock, whereas Ruby's `has_key?` is true for it and `Time.at(nil)` raises `TypeError`.
- The unused second parameter `date` of `build_weather` is not modelled.
