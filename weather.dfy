/**
 * WeatherService: the weather lookup by city name. One provider call whose
 * failures all surface as one RuntimeException, and a mapping that keeps
 * temperature, humidity and the condition text.
 */
module Weather {
  import opened Wrappers
  import opened JavaStrings
  import opened Dto

  /** The injected configuration: endpoint and access key. */
  datatype WeatherConfig = WeatherConfig(apiUrl: string, apiKey: string)

  /** What requesting a URL from the provider yields: the client throws, or a payload, possibly null. */
  datatype WeatherCall =
    | WeatherThrew(error: JavaException)
    | WeatherAnswered(body: Option<WeatherApiResponse>)

  /** The exception getWeatherByCity throws for every failure. */
  const WeatherError := "Error occurred while fetching weather data."

  /** The query prefix that comes before the city, which is appended as it is, without percent-encoding. */
  function QueryPrefix(cfg: WeatherConfig): string {
    cfg.apiUrl + "?key=" + cfg.apiKey + "&q="
  }

  /** `String.format("%s?key=%s&q=%s", ...)`: a null city is written as "null". */
  function WeatherUrl(cfg: WeatherConfig, city: Option<string>): (url: string)
    ensures url == QueryPrefix(cfg) + JavaText(city)
  {
    cfg.apiUrl + "?key=" + cfg.apiKey + "&q=" + JavaText(city)
  }

  /**
   * Since the city is not encoded, the URL determines the city text and
   * nothing more: two cities share a URL exactly when their text is equal,
   * and a null city asks for the city literally named "null".
   */
  lemma WeatherUrlDeterminesCityText(cfg: WeatherConfig, a: Option<string>, b: Option<string>)
    ensures WeatherUrl(cfg, a) == WeatherUrl(cfg, b) <==> JavaText(a) == JavaText(b)
    ensures WeatherUrl(cfg, None) == WeatherUrl(cfg, Some("null"))
  {
    var p := QueryPrefix(cfg);
    if WeatherUrl(cfg, a) == WeatherUrl(cfg, b) {
      assert JavaText(a) == WeatherUrl(cfg, a)[|p|..];
      assert JavaText(b) == WeatherUrl(cfg, b)[|p|..];
    }
  }

  /** The condition text, when the condition and its text are both present. */
  function ConditionText(current: WeatherCurrent): (text: Option<string>)
    ensures text.Some? <==> current.condition.Some? && current.condition.value.text.Some?
    ensures text.Some? ==> text == current.condition.value.text
  {
    if current.condition.Some? && current.condition.value.text.Some? then current.condition.value.text else None
  }

  /**
   * mapToWeatherResponse. A null payload is an IllegalArgumentException; a
   * null `current` fails with a NullPointerException on the second warning
   * check. Otherwise temperature and humidity come from `current`, and the
   * description is the condition text or is left null.
   */
  function MapToWeatherResponse(apiResponse: Option<WeatherApiResponse>): (r: Result<WeatherResponse, JavaException>)
    ensures apiResponse.None? ==> r == Failure(IllegalArgument("API response is null"))
    ensures apiResponse.Some? && apiResponse.value.current.None? ==> r == Failure(NullPointer)
    ensures r.Success? <==> apiResponse.Some? && apiResponse.value.current.Some?
    ensures r.Success? ==>
              var current := apiResponse.value.current.value;
              && r.value.temperature == current.tempC
              && r.value.humidity == current.humidity
              && r.value.description == ConditionText(current)
  {
    match apiResponse
    case None => Failure(IllegalArgument("API response is null"))
    case Some(body) =>
      match body.current
      case None => Failure(NullPointer)
      case Some(current) => Success(WeatherResponse(current.tempC, current.humidity, ConditionText(current)))
  }

  /**
   * getWeatherByCity. The city is interpolated into the URL; a client
   * failure, a null payload or a null `current` all end in
   * RuntimeException(WeatherError), so the lookup succeeds exactly when the
   * provider answers with a `current` part, and then reports its mapping.
   */
  function GetWeatherByCity(cfg: WeatherConfig, city: Option<string>, api: string -> WeatherCall)
    : (r: Result<WeatherResponse, JavaException>)
    ensures r.Failure? ==> r.error.Runtime? && r.error.message == WeatherError
    ensures r.Success? <==>
              var call := api(WeatherUrl(cfg, city));
              call.WeatherAnswered? && call.body.Some? && call.body.value.current.Some?
    ensures r.Success? ==> r == MapToWeatherResponse(api(WeatherUrl(cfg, city)).body)
  {
    match api(WeatherUrl(cfg, city))
    case WeatherThrew(e) => Failure(Runtime(WeatherError, Some(e)))
    case WeatherAnswered(body) =>
      if body.None? || body.value.current.None? then
        Failure(Runtime(WeatherError, Some(Runtime("Failed to retrieve weather data.", None))))
      else
        match MapToWeatherResponse(body)
        case Success(weather) => Success(weather)
        case Failure(e) => Failure(Runtime(WeatherError, Some(e)))
  }

  /**
   * No field of the payload besides the current temperature in Celsius, the
   * humidity and the condition text (not `temp_f`, wind, `is_day`, the
   * location part, ...) influences the result.
   */
  lemma OnlyTemperatureHumidityAndTextMatter(a: WeatherApiResponse, b: WeatherApiResponse)
    requires a.current.Some? && b.current.Some?
    requires a.current.value.tempC == b.current.value.tempC
    requires a.current.value.humidity == b.current.value.humidity
    requires ConditionText(a.current.value) == ConditionText(b.current.value)
    ensures MapToWeatherResponse(Some(a)) == MapToWeatherResponse(Some(b))
  {
  }
}
