# weather-service: the IP-to-weather pipeline, modelled in Dafny

This project models the core of the `weather-service` Spring application. That core is the operation that
takes a client's IP address (given, or extracted from the HTTP request) and returns the location and current
weather for it. It uses a Redis cache of composed answers along the way. Four Java services are modelled:

- `LocationWeatherService`, the orchestrator (module `Orchestrator`). It picks the client address from the
  forwarded-for headers or the socket's remote address, and validates it with its own IPv6 and IPv4
  patterns. It swaps a loopback literal for the public address an echo service reports, then answers from
  the cache. On a cache miss it looks up the location, then the weather for the location's city, composes
  the answer and caches it. Its two catch blocks decide which exception a caller sees.
- `LocationService` (module `Locations`): the endpoint choice (its own, narrower copy of the IPv6 pattern),
  the URL, the provider call and the payload mapping.
- `WeatherService` (module `Weather`): the URL with the city interpolated, the provider call and the
  payload mapping.
- `RedisService` (module `Cache`): key `"weather:" + ip`, a fixed 10-minute expiry, and reads and writes
  that never throw.

The supporting modules are:

- `Dto`: the data-transfer objects and the exceptions.
- `JavaStrings`: the `java.lang.String` behaviours the code relies on:
  - `null` rendered as `"null"` by concatenation and `String.format`;
  - `split(",")[0]`, including its failure on a string of commas only;
  - `trim()`;
  - `equalsIgnoreCase("unknown")`, where the Kelvin sign U+212A matches `k`.
- `IpSyntax`: the alternatives of the address patterns, read over the `':'`-separated fields of the text.
  Each alternative is a predicate.
- `Classification`: how the two IPv6 patterns and the IPv4 pattern relate to each other and to concrete
  addresses.
- `AddressTexts`: the concrete addresses and messages of the examples, each written as the
  concatenation of its parts.
- `Scenarios`: the behaviours the repository's tests check, and some edge cases.

Java `null` is `Option.None`, and a thrown exception is `Result.Failure`. The world outside the service is a
parameter of the model:

- the echo service, as an `EchoOutcome`;
- the two providers, as functions from the requested URL to an outcome;
- whether each Redis operation completes or throws.

`Orchestrator.GetWeatherByIpRun` describes one request as a `Run`. A `Run` holds the answer or exception,
the sequence of collaborator calls in order, and the cache contents afterwards. The class method
`Orchestrator.LocationWeatherService.GetWeatherByIp` is written the way the Java method is. It updates the
`Cache.RedisService` object's `store` field, and is proved to agree with that function.

## Behaviour of the code worth knowing

Source paths below are relative to
`weather-service/src/main/java/com/weatherapi/weather_service/services/`.

- **Loopback resolution.** Only the exact strings `127.0.0.1` and `0:0:0:0:0:0:0:1` are replaced by the
  echo service's answer (LocationWeatherService.java:121-122). Other loopback spellings such as `::1` are looked
  up as they are (`Scenarios.ShortLoopbackNotResolved`). The echo body is not validated, and a null body
  becomes the address `null` (`Scenarios.NullEchoBodyFails`).
- **Comma handling.** The cut at `','` applies to whichever value extraction settled on, the remote
  address included (LocationWeatherService.java:109-111). A non-empty value made only of commas makes
  `split(",")[0]` throw `ArrayIndexOutOfBoundsException`, which surfaces wrapped in
  `RuntimeException("Failed to retrieve weather data")` (`Orchestrator.CommaOnlyHeaderFails`).
- **Null remote address.** When every header is absent and the remote address is null, validation fails
  with `"Invalid IP address provided in the request: null"` (LocationWeatherService.java:51-53 and 141-142).
- **Null location payload.** The `RuntimeException("Failed to retrieve location data.")` thrown for a null
  payload (LocationService.java:39-41) is caught by the same method's `catch (Exception e)` and rethrown
  as `RuntimeException("Error retrieving location data")` (LocationService.java:47-49).
- **Missing city.** The `IllegalArgumentException` for a null city (LocationService.java:63-81) is thrown
  inside the try block of `getLocationByIp` and wrapped into `RuntimeException("Error retrieving location
  data")`. The orchestrator wraps that again in `RuntimeException("Failed to retrieve weather data")`
  (LocationWeatherService.java:85-87), so it does not reach the caller as an `IllegalArgumentException`.
- **Weather failure message.** `getWeatherByCity` throws `RuntimeException("Error occurred while fetching
  weather data.")` for every failure (WeatherService.java:50-53). A null payload or a null `current` is the
  inner `"Failed to retrieve weather data."` (WeatherService.java:40-43). The orchestrator wraps it once
  more.
- **Malformed provider URI.** A `URISyntaxException` becomes `IllegalArgumentException("Invalid URI: ...")`
  (LocationService.java:45-46). The orchestrator rethrows it unchanged (LocationWeatherService.java:82-84),
  so it reaches the caller with the same exception class as an invalid address.
- **IPv6 coverage.** The orchestrator's pattern accepts a zone only after a lower-case `fe80`
  (LocationWeatherService.java:161). It refuses upper-case forms such as `::FFFF:` followed by a dotted
  quad (`Classification.UpperMappedIsInvalid`). The location service's copy of the pattern
  (LocationService.java:83-99) has no zone form and no "six groups, `::`, one group" form. So
  `fe80::1%eth0` passes validation and is sent to the IPv4 base (`Scenarios.ZoneAddressUsesV4Base`).
- **Cache expiry.** The doc comment of `saveWeatherToCache` says 3 minutes (RedisService.java:45). The
  call writes with 10 minutes (RedisService.java:53), and the model follows the call.

## Model

Source paths are relative to the repository root.

| member | source | states |
|---|---|---|
| JavaStrings.JavaText | weather-service/src/main/java/com/weatherapi/weather_service/services/LocationWeatherService.java:53 | how Java renders a possibly-null string in concatenation and `%s`: "null" for null; what this means for the cache is Cache.CacheKeyInjective (a null address shares its key with the text "null" and with nothing else) |
| JavaStrings.SplitFirst | weather-service/src/main/java/com/weatherapi/weather_service/services/LocationWeatherService.java:110 | element 0 of `split(",")` is missing exactly when the string is non-empty and all separators; otherwise it is the first field of the full split |
| JavaStrings.JoinSplitAll | weather-service/src/main/java/com/weatherapi/weather_service/services/LocationWeatherService.java:110 | the split loses nothing: joining the fields with the separator gives back the string |
| JavaStrings.SplitAllJoin | weather-service/src/main/java/com/weatherapi/weather_service/services/LocationWeatherService.java:110 | the other half of the round trip: separator-free fields joined and split again are the same fields |
| JavaStrings.Trim | weather-service/src/main/java/com/weatherapi/weather_service/services/LocationWeatherService.java:110 | `trim()` yields a slice of the input framed only by characters up to the space, and its own ends are not such characters |
| JavaStrings.TrimKeepsFramed | weather-service/src/main/java/com/weatherapi/weather_service/services/LocationWeatherService.java:110 | a value that neither starts nor ends with whitespace or a control character is unchanged by `trim()` |
| IpSyntax.OctetIsDecimalAtMost255 | weather-service/src/main/java/com/weatherapi/weather_service/services/LocationWeatherService.java:178-181 | the octet alternative `25[0-5]\|2[0-4][0-9]\|[0-1]?[0-9][0-9]?` accepts exactly the 1-3 digit strings whose value is at most 255, leading zeros allowed |
| IpSyntax.Ipv4IsFourDecimalOctets | weather-service/src/main/java/com/weatherapi/weather_service/services/LocationWeatherService.java:177-183 | the IPv4 pattern accepts exactly four '.'-separated decimal octets of value at most 255 |
| IpSyntax.IsIPv4 | weather-service/src/main/java/com/weatherapi/weather_service/services/LocationWeatherService.java:177-183 | the IPv4 pattern as four '.'-separated octets of the pattern's alternation; its meaning as decimal octets up to 255 is IpSyntax.Ipv4IsFourDecimalOctets |
| Locations.BuildUrl | weather-service/src/main/java/com/weatherapi/weather_service/services/LocationService.java:53-61 | the endpoint choice followed by '/', the address verbatim and the token; which base a validated address gets is Classification.ValidatedAddressRouting (the IPv4 base for every IPv4 address and for the six-then-one and zone forms) |
| Locations.IsIPv6 | weather-service/src/main/java/com/weatherapi/weather_service/services/LocationService.java:83-99 | the location service's IPv6 pattern as the ten alternatives it lists, over the ':'-separated fields; Classification.NarrowingGap relates it to the orchestrator's |
| Locations.MapToLocationResponse | weather-service/src/main/java/com/weatherapi/weather_service/services/LocationService.java:63-81 | a null payload and a null city are IllegalArgumentExceptions with their messages; mapping succeeds exactly when both are present, and copies city and (possibly null) country |
| Locations.MappingIgnoresOtherFields | weather-service/src/main/java/com/weatherapi/weather_service/services/LocationService.java:73-80 | payloads with equal city and country map to the same response, whatever their other fields hold |
| Locations.GetLocationByIp | weather-service/src/main/java/com/weatherapi/weather_service/services/LocationService.java:32-51 | a null address is a NullPointerException from buildUrl; a rejected URI is IllegalArgumentException "Invalid URI: " + reason; for a non-null address every other failure is RuntimeException "Error retrieving location data" with a cause: the client's exception, the RuntimeException "Failed to retrieve location data." for a null payload, or the mapping's IllegalArgumentException; success exactly when the provider answers with a mappable payload, and then the mapping |
| Weather.WeatherUrl | weather-service/src/main/java/com/weatherapi/weather_service/services/WeatherService.java:34 | the city interpolated unencoded after the fixed query prefix; its meaning is Weather.WeatherUrlDeterminesCityText (two cities are asked for with the same URL exactly when their texts agree, a null city as "null") |
| Weather.WeatherUrlDeterminesCityText | weather-service/src/main/java/com/weatherapi/weather_service/services/WeatherService.java:34 | two cities give the same URL if and only if their text is equal, so a null city asks for the city named "null" |
| Weather.ConditionText | weather-service/src/main/java/com/weatherapi/weather_service/services/WeatherService.java:87-89 | the description is present exactly when the condition and its text are, and is that text |
| Weather.MapToWeatherResponse | weather-service/src/main/java/com/weatherapi/weather_service/services/WeatherService.java:63-93 | a null payload is IllegalArgumentException "API response is null"; a null `current` is a NullPointerException at the second warning check; otherwise temperature and humidity come from `current` and the description from the condition text |
| Weather.GetWeatherByCity | weather-service/src/main/java/com/weatherapi/weather_service/services/WeatherService.java:33-54 | every failure is RuntimeException "Error occurred while fetching weather data."; success exactly when the provider answers with a `current` part, and then the mapping of that payload |
| Weather.OnlyTemperatureHumidityAndTextMatter | weather-service/src/main/java/com/weatherapi/weather_service/services/WeatherService.java:78-92 | payloads that agree on Celsius temperature, humidity and condition text map to the same response |
| Cache.CacheKey | weather-service/src/main/java/com/weatherapi/weather_service/services/RedisService.java:29 | the key is "weather:" followed by the address's text |
| Cache.CacheKeyInjective | weather-service/src/main/java/com/weatherapi/weather_service/services/RedisService.java:51 | two addresses share a key if and only if their text is equal: distinct non-null addresses never collide, and a null address shares the key of the text "null" |
| Cache.CacheRead | weather-service/src/main/java/com/weatherapi/weather_service/services/RedisService.java:28-42 | a read yields an answer exactly when it completes and the key is present, and then the stored answer |
| Cache.CacheWrite | weather-service/src/main/java/com/weatherapi/weather_service/services/RedisService.java:50-58 | a completed write adds or replaces exactly the address's key with the answer and a 10-minute expiry; a failed write changes nothing; other keys are kept |
| Cache.ReadAfterWrite | weather-service/src/main/java/com/weatherapi/weather_service/services/RedisService.java:50-58 | reading back after a completed write yields the written answer, and reads of addresses with other text are unaffected by any write |
| Cache.RedisService.constructor | weather-service/src/main/java/com/weatherapi/weather_service/services/RedisService.java:18-20 | the service only takes its handle on the store, whose contents, possibly non-empty, are given |
| Cache.RedisService.GetWeatherFromCache | weather-service/src/main/java/com/weatherapi/weather_service/services/RedisService.java:28-42 | returns the store's answer for the key as CacheRead describes, and null whenever the read throws |
| Cache.RedisService.SaveWeatherToCache | weather-service/src/main/java/com/weatherapi/weather_service/services/RedisService.java:50-58 | the new store is the old one after CacheWrite; a failed write leaves it as it was |
| Orchestrator.FirstPresent | weather-service/src/main/java/com/weatherapi/weather_service/services/LocationWeatherService.java:99-108 | the chosen value is the first candidate that is not null, empty or "unknown", with every earlier candidate skipped, or the fallback when all are skipped |
| Orchestrator.HeaderPrecedence | weather-service/src/main/java/com/weatherapi/weather_service/services/LocationWeatherService.java:99-108 | the settled value is X-Forwarded-For, else Proxy-Client-IP, else WL-Proxy-Client-IP, else the remote address, each header taken only when present |
| Orchestrator.UnknownInAnyCase | weather-service/src/main/java/com/weatherapi/weather_service/services/LocationWeatherService.java:100 | a non-empty header value is skipped exactly when it spells "unknown" with each letter in lower or upper case (or the Kelvin sign for the k), for every string; "unknown1" and "unknowm" are kept |
| Orchestrator.ExtractClientIp | weather-service/src/main/java/com/weatherapi/weather_service/services/LocationWeatherService.java:98-113 | the guarded reassignments and the split compute the client address ClientIp describes |
| Orchestrator.ClientIp | weather-service/src/main/java/com/weatherapi/weather_service/services/LocationWeatherService.java:98-113 | extractClientIp's answer: the settled header value, cut at ',' to its trimmed first field, with the ArrayIndexOutOfBoundsException of a comma-only value; characterised by Orchestrator.HeaderPrecedence and Orchestrator.ClientIpCommaHandling |
| Orchestrator.ClientIpCommaHandling | weather-service/src/main/java/com/weatherapi/weather_service/services/LocationWeatherService.java:109-111 | extraction fails, with ArrayIndexOutOfBounds, if and only if the settled value is non-empty and all commas; a value without ',' is kept verbatim; otherwise it is its first field trimmed; an extracted address never holds ',' |
| Orchestrator.ForwardedChainYieldsFirstHop | weather-service/src/main/java/com/weatherapi/weather_service/services/LocationWeatherService.java:99-111 | a forwarded-for chain "client,rest" yields its first entry whatever the other headers hold |
| Orchestrator.ResolvePublicIp | weather-service/src/main/java/com/weatherapi/weather_service/services/LocationWeatherService.java:121-133 | it fails exactly when a loopback literal meets a failing echo call, with RuntimeException "Failed to retrieve public IP" caused by the echo's exception; otherwise the two loopback literals become the echo body, unvalidated and possibly null, and every other address passes through unchanged |
| Orchestrator.AsServiceFailure | weather-service/src/main/java/com/weatherapi/weather_service/services/LocationWeatherService.java:82-88 | an IllegalArgumentException is rethrown as it is; any other exception becomes RuntimeException "Failed to retrieve weather data" with it as cause |
| Orchestrator.IsIPv6 | weather-service/src/main/java/com/weatherapi/weather_service/services/LocationWeatherService.java:151-169 | the orchestrator's IPv6 pattern as its twelve alternatives, over the ':'-separated fields, the zone form over the text before '%' |
| Orchestrator.IsValidIp | weather-service/src/main/java/com/weatherapi/weather_service/services/LocationWeatherService.java:141-143 | isValidIp: non-null, and IPv6 or IPv4 |
| Orchestrator.Identify | weather-service/src/main/java/com/weatherapi/weather_service/services/LocationWeatherService.java:45-48 | the supplied address when non-null and non-empty, else extractClientIp's answer or exception |
| Orchestrator.LookupRun | weather-service/src/main/java/com/weatherapi/weather_service/services/LocationWeatherService.java:60-81 | the cache probe, then on a miss the location and weather lookups, the composition and the cache write, with the calls in order |
| Orchestrator.ResolvedRun | weather-service/src/main/java/com/weatherapi/weather_service/services/LocationWeatherService.java:56-57 | loopback resolution, with its echo call, before LookupRun on the resolved address |
| Orchestrator.GetWeatherByIpRun | weather-service/src/main/java/com/weatherapi/weather_service/services/LocationWeatherService.java:43-89 | one request: identification, validation, resolution, then LookupRun, with both catch blocks applied; Orchestrator.LocationWeatherService.GetWeatherByIp is proved to behave as it does |
| Orchestrator.SuppliedIpSkipsHeaders | weather-service/src/main/java/com/weatherapi/weather_service/services/LocationWeatherService.java:46-48 | with a non-empty supplied address the whole request behaves the same whatever its headers and remote address |
| Orchestrator.InvalidAddressRejectedFirst | weather-service/src/main/java/com/weatherapi/weather_service/services/LocationWeatherService.java:51-54 | an address failing validation, null included, is IllegalArgumentException naming it, with no collaborator called and the cache untouched |
| Orchestrator.CommaOnlyHeaderFails | weather-service/src/main/java/com/weatherapi/weather_service/services/LocationWeatherService.java:109-111 | a settled value of commas only ends the request with the split's exception wrapped in "Failed to retrieve weather data", before any call |
| Orchestrator.LoopbackResolution | weather-service/src/main/java/com/weatherapi/weather_service/services/LocationWeatherService.java:56-57 | a loopback literal costs one echo call and the rest of the request runs on the echo body; an echo failure ends it wrapped twice; any other address runs unchanged with no echo call |
| Orchestrator.CacheHitShortCircuits | weather-service/src/main/java/com/weatherapi/weather_service/services/LocationWeatherService.java:61-65 | a cache hit returns the stored answer after one cache lookup, with no provider call and no write |
| Orchestrator.MissComposesAndSavesOnce | weather-service/src/main/java/com/weatherapi/weather_service/services/LocationWeatherService.java:67-81 | on a miss the location is looked up by address and the weather by the location's city; the answer {ip, location, weather} is returned and saved exactly once under that address |
| Orchestrator.OneReadAtMostOneWrite | weather-service/src/main/java/com/weatherapi/weather_service/services/LocationWeatherService.java:43-89 | every request reads the cache at most once and writes it at most once, the write only for a freshly composed answer which is what it stores, and a failed request leaves the cache as it was |
| Orchestrator.AtMostOneRead | weather-service/src/main/java/com/weatherapi/weather_service/services/LocationWeatherService.java:43-89 | no request reads the cache more than once |
| Orchestrator.LookupRunReadsOnce | weather-service/src/main/java/com/weatherapi/weather_service/services/LocationWeatherService.java:60-65 | once the address is resolved, the cache is read exactly once, before any provider call, under the resolved address |
| Orchestrator.LookupRunSaves | weather-service/src/main/java/com/weatherapi/weather_service/services/LocationWeatherService.java:61-81 | the same single-write property for the cache-and-providers stage alone |
| Orchestrator.LookupFailureChannels | weather-service/src/main/java/com/weatherapi/weather_service/services/LocationWeatherService.java:82-88 | a failure of the cache-and-providers stage is either an "Invalid URI: " IllegalArgumentException passed through, or "Failed to retrieve weather data" wrapping a non-IllegalArgument cause |
| Orchestrator.FailureChannels | weather-service/src/main/java/com/weatherapi/weather_service/services/LocationWeatherService.java:82-88 | a request fails only as the invalid-address IllegalArgumentException, an "Invalid URI: " IllegalArgumentException, or "Failed to retrieve weather data" wrapping any other failure |
| Orchestrator.FailedReadIsAMiss | weather-service/src/main/java/com/weatherapi/weather_service/services/RedisService.java:38-41 | a request whose cache read throws answers and calls exactly as it would against an empty cache |
| Orchestrator.FailedWriteIsSwallowed | weather-service/src/main/java/com/weatherapi/weather_service/services/RedisService.java:55-57 | a request whose cache write throws answers and calls as one whose write completes, and leaves the cache as it was |
| Orchestrator.LocationWeatherService.constructor | weather-service/src/main/java/com/weatherapi/weather_service/services/LocationWeatherService.java:27-32 | the collaborators are the ones injected |
| Orchestrator.LocationWeatherService.GetWeatherByIp | weather-service/src/main/java/com/weatherapi/weather_service/services/LocationWeatherService.java:43-89 | the method returns the answer or exception of GetWeatherByIpRun and leaves the Redis store as that run describes |
| Classification.FieldFormHasNoZone | weather-service/src/main/java/com/weatherapi/weather_service/services/LocationWeatherService.java:152-167 | no address accepted by a field-shaped alternative (all but the fe80 zone form) contains '%' |
| Classification.NarrowFormHasNoZone | weather-service/src/main/java/com/weatherapi/weather_service/services/LocationService.java:83-99 | the location service's IPv6 pattern accepts no address containing '%' |
| Classification.ZoneFormIsLowerCase | weather-service/src/main/java/com/weatherapi/weather_service/services/LocationWeatherService.java:161 | an address the orchestrator's pattern accepts with a '%' is a zone form whose first group is lower-case "fe80" |
| Classification.NarrowWithinWide | weather-service/src/main/java/com/weatherapi/weather_service/services/LocationService.java:83-99 | every address the location service's pattern accepts, the orchestrator's accepts too |
| Classification.Ipv6HasColon | weather-service/src/main/java/com/weatherapi/weather_service/services/LocationWeatherService.java:151-169 | every address the orchestrator's IPv6 pattern accepts contains ':' |
| Classification.NoAddressIsBoth | weather-service/src/main/java/com/weatherapi/weather_service/services/LocationWeatherService.java:141-143 | no text is accepted by both the IPv4 and the IPv6 pattern |
| Classification.CompressedAlternatives | weather-service/src/main/java/com/weatherapi/weather_service/services/LocationWeatherService.java:154-159 | the orchestrator's "groups :: groups" alternatives together accept exactly the at most 8 fields with one inner gap; the location service's copy accepts exactly those whose gap follows at most five groups |
| Classification.SixThenOneIsNotNarrow | weather-service/src/main/java/com/weatherapi/weather_service/services/LocationService.java:84-97 | six groups, "::", one group is rejected by the location service's pattern |
| Classification.NarrowingGap | weather-service/src/main/java/com/weatherapi/weather_service/services/LocationService.java:84-97 | an address is accepted by the orchestrator's pattern and refused by the location service's if and only if it is six groups "::" one group, or an fe80 zone form |
| Classification.ValidatedAddressRouting | weather-service/src/main/java/com/weatherapi/weather_service/services/LocationService.java:53-61 | a validated address is sent to the IPv6 base exactly when it is neither in the gap between the two patterns nor IPv4 |
| Classification.FullFormAccepted | weather-service/src/main/java/com/weatherapi/weather_service/services/LocationWeatherService.java:152 | every eight hex groups of 1-4 digits joined by ':' is IPv6 for both patterns |
| Classification.CompressedFormAccepted | weather-service/src/main/java/com/weatherapi/weather_service/services/LocationWeatherService.java:154-159 | groups "::" groups with at most seven groups in all is IPv6 for the orchestrator, and for the location service exactly when at most five groups precede "::" |
| Classification.DottedQuadForm | weather-service/src/main/java/com/weatherapi/weather_service/services/LocationWeatherService.java:177-183 | four octets joined by '.' are IPv4 |
| Classification.BadOctetForm | weather-service/src/main/java/com/weatherapi/weather_service/services/LocationWeatherService.java:177-183 | a dotted quad whose first part is not an octet is not IPv4 |
| Classification.Ipv4IsValid | weather-service/src/main/java/com/weatherapi/weather_service/services/LocationWeatherService.java:141-143 | every IPv4 text passes validation |
| Classification.NoSeparatorNoAddress | weather-service/src/main/java/com/weatherapi/weather_service/services/LocationWeatherService.java:141-143 | a text with neither ':' nor '.' fails validation |
| Classification.LoopbackV4Classified | weather-service/src/test/java/com/weatherapi/weather_service/services/LocationServiceTest.java:166-169 | "127.0.0.1" is IPv4 and not IPv6 for either pattern |
| Classification.OctetRangeExamples | weather-service/src/main/java/com/weatherapi/weather_service/services/LocationWeatherService.java:178-181 | "256.0.0.1" is refused and "099.0.0.1" (leading zero) accepted |
| Classification.EightGroupForm | weather-service/src/main/java/com/weatherapi/weather_service/services/LocationWeatherService.java:152 | any eight hex groups separated by ':' are IPv6 for both patterns |
| Classification.DocumentationAddressAccepted | weather-service/src/test/java/com/weatherapi/weather_service/services/LocationServiceTest.java:160-163 | "2001:0db8:85a3:0000:0000:8a2e:0370:7334" is IPv6 for both patterns |
| Classification.LeadingGapForm | weather-service/src/main/java/com/weatherapi/weather_service/services/LocationWeatherService.java:160 | "::" followed by one hex group is IPv6 for both patterns |
| Classification.LongLoopbackIsIPv6 | weather-service/src/main/java/com/weatherapi/weather_service/services/LocationWeatherService.java:152 | the loopback literal "0:0:0:0:0:0:0:1" passes both IPv6 patterns |
| Classification.ShortLoopbackIsIPv6 | weather-service/src/main/java/com/weatherapi/weather_service/services/LocationWeatherService.java:160 | "::1" passes both IPv6 patterns |
| Classification.SixThenOneForm | weather-service/src/main/java/com/weatherapi/weather_service/services/LocationWeatherService.java:154 | six groups, "::", one group is IPv6 for the orchestrator and not for the location service |
| Classification.SixThenOneExample | weather-service/src/main/java/com/weatherapi/weather_service/services/LocationWeatherService.java:154 | "1:2:3:4:5:6::7" is accepted by the orchestrator and refused by the location service |
| Classification.ZoneForm | weather-service/src/main/java/com/weatherapi/weather_service/services/LocationWeatherService.java:161 | "fe80::" group '%' alphanumeric zone is IPv6 for the orchestrator and not for the location service |
| Classification.ZoneExample | weather-service/src/main/java/com/weatherapi/weather_service/services/LocationWeatherService.java:161 | "fe80::1%eth0" is accepted by the orchestrator and refused by the location service |
| Classification.UpperZoneForm | weather-service/src/main/java/com/weatherapi/weather_service/services/LocationWeatherService.java:161 | the same zone form with upper-case "FE80" is not IPv6 for the orchestrator |
| Classification.UpperZoneExample | weather-service/src/main/java/com/weatherapi/weather_service/services/LocationWeatherService.java:161 | "FE80::1%eth0" is refused |
| Classification.UnspecifiedIsIPv6 | weather-service/src/main/java/com/weatherapi/weather_service/services/LocationWeatherService.java:160 | "::" is IPv6 for both patterns |
| Classification.MappedForm | weather-service/src/main/java/com/weatherapi/weather_service/services/LocationWeatherService.java:162-164 | "::ffff:" followed by an IPv4 address is IPv6 for both patterns |
| Classification.UpperMappedIsNotIPv6 | weather-service/src/main/java/com/weatherapi/weather_service/services/LocationWeatherService.java:162-164 | "::FFFF:" followed by an IPv4 address is not IPv6: the mapped prefix is lower-case only |
| Classification.UpperMappedIsNotIPv4 | weather-service/src/main/java/com/weatherapi/weather_service/services/LocationWeatherService.java:177-183 | nor is it IPv4 |
| Classification.UpperMappedIsInvalid | weather-service/src/main/java/com/weatherapi/weather_service/services/LocationWeatherService.java:141-143 | "::FFFF:" followed by any dotted quad fails validation, so the upper-case mapped form is refused |
| Scenarios.ValidAddressComposesAndCaches | weather-service/src/main/java/com/weatherapi/weather_service/services/LocationWeatherService.java:61-81 | a valid non-loopback address that misses the cache, with the providers answering San Jose and clear sky, yields the composed answer saved once under the address |
| Scenarios.ValidIpTest | weather-service/src/test/java/com/weatherapi/weather_service/services/LocationWeatherServiceTest.java:57-93 | "68.49.0.196" yields {68.49.0.196, San Jose USA, 25.0 60 "Clear sky"}, saved once |
| Scenarios.InvalidAddressRefused | weather-service/src/test/java/com/weatherapi/weather_service/services/LocationWeatherServiceTest.java:95-101 | "invalid_ip" is IllegalArgumentException "Invalid IP address provided in the request: invalid_ip", with no call |
| Scenarios.CachedAnswerReturned | weather-service/src/main/java/com/weatherapi/weather_service/services/LocationWeatherService.java:61-65 | a cached answer for a valid non-loopback address is returned as it is, with nothing saved and the cache unchanged |
| Scenarios.CachedDataTest | weather-service/src/test/java/com/weatherapi/weather_service/services/LocationWeatherServiceTest.java:144-158 | the cached answer for "192.168.1.1" is returned and nothing is saved |
| Scenarios.LoopbackUsesPublicAddress | weather-service/src/main/java/com/weatherapi/weather_service/services/LocationWeatherService.java:121-126 | a loopback literal is answered for the echo service's address: first call the echo, answer composed and saved under the public address |
| Scenarios.LocalIpTest | weather-service/src/test/java/com/weatherapi/weather_service/services/LocationWeatherServiceTest.java:110-142 | "127.0.0.1" with the echo answering "68.43.0.196" yields the San Jose answer for 68.43.0.196, saved under it |
| Scenarios.ShortLoopbackNotResolved | weather-service/src/main/java/com/weatherapi/weather_service/services/LocationWeatherService.java:122 | "::1" is valid but looked up as it is, with no echo call |
| Scenarios.NullEchoBodyFails | weather-service/src/main/java/com/weatherapi/weather_service/services/LocationWeatherService.java:125-126 | a null echo body becomes the address: the cache is probed under "weather:null", and on a miss the location lookup's NullPointerException surfaces wrapped |
| Scenarios.ZoneAddressUsesV4Base | weather-service/src/main/java/com/weatherapi/weather_service/services/LocationService.java:53-61 | "fe80::1%eth0" passes validation and is sent to the IPv4 base |

## Left out

- `WeatherController`, the HTTP layer, and the application class's rate-limit key resolver are not part of this model.
- Logging: every `logger` call is left out, since none influences a result.
- Cache expiry is recorded as the 10-minute TTL of each entry. Entries are never expired, and concurrent requests and their last-write-wins races are not modelled.
- The general Java regular-expression engine is not modelled. The two fixed IPv6 patterns and the IPv4 pattern are modelled alternative by alternative over the text's ':'- and '.'-separated fields, so each predicate accepts the same strings as its alternative.
- `String.split` is modelled only for a one-character literal separator, and `trim()` only as removal of characters up to U+0020.
- `equalsIgnoreCase("unknown")` is modelled letter by letter, including the Kelvin sign; no other Unicode case folding is involved.
- Header names are looked up case-insensitively by the servlet container; the model takes the three header values and the remote address as given.
- The `java.net.URI` parser is not modelled. A URL it rejects is an outcome of the location provider (`UriRejected` with the parser's reason), chosen by the environment.
- HTTP clients, the Redis client and its serialisation are not modelled. Their outcomes are parameters: a failing cast of a cached value is a read that throws.
- `double` values are copied from payloads to answers, never computed on, so they are kept as their IEEE-754 bit patterns.
- The injected `@Value` configuration (provider URLs and keys, the echo-service URL) is a constructor or function parameter.
- `Orchestrator.LocationWeatherService.constructor`: the Java constructor receives `LocationService`, `WeatherService`, `RestTemplate` and `RedisService`. The model takes the two services' configurations and the echo URL instead, since the services hold no state besides their configuration.
- The test at `LocationWeatherServiceTest.java:128` stubs `resolvePublicIp` on an object that is not a mock. The model follows the code's behaviour for loopback literals rather than that stub.
