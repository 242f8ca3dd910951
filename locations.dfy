/**
 * LocationService: the geolocation lookup. It picks the IPv4 or IPv6
 * endpoint with its own copy of the IPv6 pattern, calls the provider once,
 * and maps the payload to a LocationResponse.
 */
module Locations {
  import opened Wrappers
  import opened JavaStrings
  import opened Dto
  import opened IpSyntax

  /** The injected configuration: the two endpoint bases and the access token. */
  datatype LocationConfig = LocationConfig(apiUrlV4: string, apiUrlV6: string, apiKey: string)

  /**
   * What building `new URI(url)` and requesting it yields: the URI parser
   * rejects the text (with its reason), the HTTP client throws, or the
   * provider answers with a payload, possibly null.
   */
  datatype LocationCall =
    | UriRejected(reason: string)
    | CallThrew(error: JavaException)
    | Answered(body: Option<LocationApiResponse>)

  /**
   * This service's IPv6 pattern: the orchestrator's alternatives without the
   * six-groups-"::"-one-group alternative and without the fe80 zone form.
   */
  predicate IsIPv6(ip: string) {
    var f := SplitAll(ip, ':');
    || EightGroups(f)
    || GroupsThenGap(f)
    || GroupsAroundGap(f, 5, 2)
    || GroupsAroundGap(f, 4, 3)
    || GroupsAroundGap(f, 3, 4)
    || GroupsAroundGap(f, 2, 5)
    || GroupsAroundGap(f, 1, 6)
    || GapThenGroups(f)
    || MappedIPv4(f)
    || GroupsThenIPv4(f)
  }

  /** The provider URL for `ip`: the chosen base, '/', the address verbatim, and the token parameter. */
  function BuildUrl(cfg: LocationConfig, ip: string): (url: string)
    ensures IsIPv6(ip) ==> url == cfg.apiUrlV6 + "/" + ip + "?token=" + cfg.apiKey
    ensures !IsIPv6(ip) ==> url == cfg.apiUrlV4 + "/" + ip + "?token=" + cfg.apiKey
  {
    var base := if IsIPv6(ip) then cfg.apiUrlV6 else cfg.apiUrlV4;
    base + "/" + ip + "?token=" + cfg.apiKey
  }

  /**
   * mapToLocationResponse: a null payload or a null city is an
   * IllegalArgumentException; otherwise city and country are copied, country
   * possibly null, and every other provider field is dropped.
   */
  function MapToLocationResponse(apiResponse: Option<LocationApiResponse>): (r: Result<LocationResponse, JavaException>)
    ensures apiResponse.None? ==> r == Failure(IllegalArgument("Location API response is null"))
    ensures apiResponse.Some? && apiResponse.value.city.None? ==>
              r == Failure(IllegalArgument("City in Location API response is null"))
    ensures r.Success? <==> apiResponse.Some? && apiResponse.value.city.Some?
    ensures r.Success? ==> r.value.city == apiResponse.value.city && r.value.country == apiResponse.value.country
  {
    match apiResponse
    case None => Failure(IllegalArgument("Location API response is null"))
    case Some(body) =>
      if body.city.None? then Failure(IllegalArgument("City in Location API response is null"))
      else Success(LocationResponse(body.city, body.country))
  }

  /** Only the city and the country of the payload influence the mapping. */
  lemma MappingIgnoresOtherFields(a: LocationApiResponse, b: LocationApiResponse)
    requires a.city == b.city && a.country == b.country
    ensures MapToLocationResponse(Some(a)) == MapToLocationResponse(Some(b))
  {
  }

  /** The exception getLocationByIp throws for every failure but a malformed URI. */
  const LocationError := "Error retrieving location data"

  /**
   * getLocationByIp. A null address fails in buildUrl, before the try block,
   * with a NullPointerException. A malformed URI becomes an
   * IllegalArgumentException "Invalid URI: ..."; a client failure, a null
   * payload and a mapping failure are all wrapped in RuntimeException(LocationError).
   */
  function GetLocationByIp(cfg: LocationConfig, ip: Option<string>, api: string -> LocationCall)
    : (r: Result<LocationResponse, JavaException>)
    ensures ip.None? ==> r == Failure(NullPointer)
    ensures ip.Some? && api(BuildUrl(cfg, ip.value)).UriRejected? ==>
              r == Failure(IllegalArgument("Invalid URI: " + api(BuildUrl(cfg, ip.value)).reason))
    ensures ip.Some? && !api(BuildUrl(cfg, ip.value)).UriRejected? && r.Failure? ==>
              r.error.Runtime? && r.error.message == LocationError && r.error.cause.Some?
    ensures ip.Some? && api(BuildUrl(cfg, ip.value)).CallThrew? ==>
              r == Failure(Runtime(LocationError, Some(api(BuildUrl(cfg, ip.value)).error)))
    ensures ip.Some? && api(BuildUrl(cfg, ip.value)) == Answered(None) ==>
              r == Failure(Runtime(LocationError, Some(Runtime("Failed to retrieve location data.", None))))
    ensures ip.Some? && api(BuildUrl(cfg, ip.value)).Answered? && api(BuildUrl(cfg, ip.value)).body.Some?
            && MapToLocationResponse(api(BuildUrl(cfg, ip.value)).body).Failure? ==>
              r == Failure(Runtime(LocationError, Some(MapToLocationResponse(api(BuildUrl(cfg, ip.value)).body).error)))
    ensures r.Success? <==>
              ip.Some? && api(BuildUrl(cfg, ip.value)).Answered? &&
              MapToLocationResponse(api(BuildUrl(cfg, ip.value)).body).Success?
    ensures r.Success? ==> r == MapToLocationResponse(api(BuildUrl(cfg, ip.value)).body)
  {
    match ip
    case None => Failure(NullPointer)
    case Some(address) =>
      match api(BuildUrl(cfg, address))
      case UriRejected(reason) => Failure(IllegalArgument("Invalid URI: " + reason))
      case CallThrew(e) => Failure(Runtime(LocationError, Some(e)))
      case Answered(None) => Failure(Runtime(LocationError, Some(Runtime("Failed to retrieve location data.", None))))
      case Answered(Some(body)) =>
        match MapToLocationResponse(Some(body))
        case Success(location) => Success(location)
        case Failure(e) => Failure(Runtime(LocationError, Some(e)))
  }
}
