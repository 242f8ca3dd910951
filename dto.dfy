/**
 * The data-transfer objects of the weather service, and the exceptions its
 * services throw. Every Java reference field may be null, so each becomes an
 * Option; primitive fields (double, int) never are.
 */
module Dto {
  import opened Wrappers

  /** A Java double. Values are only copied from provider payloads to responses, so its IEEE-754 bits suffice. */
  datatype Double = Double(bits: bv64)

  /** A Java int. */
  newtype Int32 = x: int | -0x8000_0000 <= x < 0x8000_0000

  /** Payload of the geolocation provider (models/LocationApiResponse.java). */
  datatype LocationApiResponse = LocationApiResponse(
    ip: Option<string>,
    hostname: Option<string>,
    city: Option<string>,
    region: Option<string>,
    country: Option<string>,
    loc: Option<string>,
    org: Option<string>,
    postal: Option<string>,
    timezone: Option<string>)

  /** What the service reports about a location (models/LocationResponse.java). */
  datatype LocationResponse = LocationResponse(city: Option<string>, country: Option<string>)

  /** models/WeatherCondition.java */
  datatype WeatherCondition = WeatherCondition(text: Option<string>, icon: Option<string>, code: Int32)

  /** models/WeatherCurrent.java: the current-conditions part of the weather provider's payload. */
  datatype WeatherCurrent = WeatherCurrent(
    lastUpdated: Option<string>,
    tempC: Double,
    tempF: Double,
    isDay: Int32,
    humidity: Int32,
    feelslikeC: Double,
    feelslikeF: Double,
    windMph: Double,
    windKph: Double,
    windDir: Option<string>,
    windDegree: Int32,
    condition: Option<WeatherCondition>)

  /** models/WeatherLocation.java */
  datatype WeatherLocation = WeatherLocation(
    name: Option<string>,
    region: Option<string>,
    country: Option<string>,
    lat: Double,
    lon: Double,
    tzId: Option<string>,
    localtime: Option<string>)

  /** Payload of the weather provider (models/WeatherApiResponse.java). */
  datatype WeatherApiResponse = WeatherApiResponse(location: Option<WeatherLocation>, current: Option<WeatherCurrent>)

  /** What the service reports about the weather (models/WeatherResponse.java). */
  datatype WeatherResponse = WeatherResponse(temperature: Double, humidity: Int32, description: Option<string>)

  /** The composed answer, and the unit stored in the cache (models/LocationWeatherResponse.java). */
  datatype LocationWeatherResponse = LocationWeatherResponse(
    ip: Option<string>,
    location: Option<LocationResponse>,
    weather: Option<WeatherResponse>)

  /**
   * The exceptions that reach the services' callers. A RuntimeException keeps
   * the exception it wraps as its cause. TransportError stands for whatever an
   * HTTP client or the key-value store throws; its class and message are not
   * modelled, since every service wraps or swallows it.
   */
  datatype JavaException =
    | IllegalArgument(message: string)
    | Runtime(message: string, cause: Option<JavaException>)
    | NullPointer
    | ArrayIndexOutOfBounds
    | TransportError
}
