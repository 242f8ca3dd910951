/**
 * LocationWeatherService: the end-to-end ip -> weather operation. It
 * identifies the client address, validates it, swaps a loopback literal for
 * the public address, answers from the cache when it can, and otherwise
 * composes a location lookup and a weather lookup and caches the result.
 */
module Orchestrator {
  import opened Wrappers
  import opened JavaStrings
  import opened Dto
  import opened IpSyntax
  import Locations
  import Weather
  import opened Cache

  // ---- Address classification ----

  /** The orchestrator's IPv6 pattern: the union of its twelve alternatives. */
  predicate IsIPv6(ip: string) {
    var f := SplitAll(ip, ':');
    || EightGroups(f)
    || GroupsThenGap(f)
    || GroupsAroundGap(f, 6, 1)
    || GroupsAroundGap(f, 5, 2)
    || GroupsAroundGap(f, 4, 3)
    || GroupsAroundGap(f, 3, 4)
    || GroupsAroundGap(f, 2, 5)
    || GroupsAroundGap(f, 1, 6)
    || GapThenGroups(f)
    || LinkLocalWithZone(ip)
    || MappedIPv4(f)
    || GroupsThenIPv4(f)
  }

  /** isValidIp: non-null and IPv6 or IPv4. */
  predicate IsValidIp(ip: Option<string>) {
    ip.Some? && (IsIPv6(ip.value) || IsIPv4(ip.value))
  }

  // ---- Client address extraction ----

  /** The request as far as the service reads it: three headers and the socket's remote address. */
  datatype ClientRequest = ClientRequest(
    forwardedFor: Option<string>,      // X-Forwarded-For
    proxyClientIp: Option<string>,     // Proxy-Client-IP
    wlProxyClientIp: Option<string>,   // WL-Proxy-Client-IP
    remoteAddr: Option<string>)

  /** A header value the service skips: null, empty, or "unknown" in any case. */
  predicate Absent(h: Option<string>) {
    h.None? || h.value == "" || IsUnknownIgnoringCase(h.value)
  }

  /** The first candidate that is not Absent, or `fallback` when every one is. */
  function FirstPresent(candidates: seq<Option<string>>, fallback: Option<string>): (chosen: Option<string>)
    ensures (forall i :: 0 <= i < |candidates| ==> Absent(candidates[i])) ==> chosen == fallback
    ensures (exists i :: 0 <= i < |candidates| && !Absent(candidates[i])) ==>
              exists i :: 0 <= i < |candidates| && !Absent(candidates[i]) && chosen == candidates[i]
                && forall j :: 0 <= j < i ==> Absent(candidates[j])
  {
    if |candidates| == 0 then fallback
    else if !Absent(candidates[0]) then candidates[0]
    else
      var chosen := FirstPresent(candidates[1..], fallback);
      assert forall i :: 1 <= i < |candidates| ==> candidates[i] == candidates[1..][i - 1];
      chosen
  }

  /** The value extractClientIp settles on before looking for ','. */
  function Settled(request: ClientRequest): Option<string> {
    FirstPresent(HeaderCandidates(request), request.remoteAddr)
  }

  /** The headers in the order the service consults them. */
  function HeaderCandidates(request: ClientRequest): seq<Option<string>> {
    [request.forwardedFor, request.proxyClientIp, request.wlProxyClientIp]
  }

  /**
   * extractClientIp: the first present header, else the remote address; a
   * value holding ',' is cut to its trimmed first field, and one made of
   * commas only makes `split(",")[0]` throw.
   */
  function ClientIp(request: ClientRequest): Result<Option<string>, JavaException> {
    match Settled(request)
    case None => Success(None)
    case Some(v) =>
      if ',' !in v then Success(Some(v))
      else
        match SplitFirst(v, ',')
        case None => Failure(ArrayIndexOutOfBounds)
        case Some(first) => Success(Some(Trim(first)))
  }

  /** extractClientIp as the source writes it: four guarded reassignments of one variable, then the split. */
  method ExtractClientIp(request: ClientRequest) returns (r: Result<Option<string>, JavaException>)
    ensures r == ClientIp(request)
  {
    var ip := request.forwardedFor;
    if Absent(ip) {
      ip := request.proxyClientIp;
    }
    if Absent(ip) {
      ip := request.wlProxyClientIp;
    }
    if Absent(ip) {
      ip := request.remoteAddr;
    }
    HeaderPrecedence(request);
    if ip.Some? && ',' in ip.value {
      var parts := SplitFirst(ip.value, ',');
      if parts.None? {
        return Failure(ArrayIndexOutOfBounds);
      }
      ip := Some(Trim(parts.value));
    }
    return Success(ip);
  }

  /** Header precedence: X-Forwarded-For, then Proxy-Client-IP, then WL-Proxy-Client-IP, then the remote address. */
  lemma HeaderPrecedence(request: ClientRequest)
    ensures Settled(request) ==
              if !Absent(request.forwardedFor) then request.forwardedFor
              else if !Absent(request.proxyClientIp) then request.proxyClientIp
              else if !Absent(request.wlProxyClientIp) then request.wlProxyClientIp
              else request.remoteAddr
  {
    var c, remote := HeaderCandidates(request), request.remoteAddr;
    assert c[1..] == [request.proxyClientIp, request.wlProxyClientIp];
    assert c[1..][1..] == [request.wlProxyClientIp];
    assert FirstPresent(c[1..][1..][1..], remote) == remote;
    assert FirstPresent(c[1..][1..], remote) == if Absent(c[2]) then remote else c[2];
    assert FirstPresent(c[1..], remote) == if Absent(c[1]) then FirstPresent(c[1..][1..], remote) else c[1];
  }

  /**
   * The spellings of "unknown" a header may carry: seven letters, each the
   * lower-case or the upper-case letter, and the KELVIN SIGN in place of 'k'.
   */
  predicate UnknownSpelling(v: string) {
    |v| == 7 && forall i :: 0 <= i < 7 ==>
      v[i] == "unknown"[i] || v[i] == "UNKNOWN"[i] || (i == 2 && v[i] == '\U{212A}')
  }

  /**
   * A non-empty header value is skipped exactly when it spells "unknown" in
   * any mix of letter cases; "unknown1" and "unknowm" are kept.
   */
  lemma UnknownInAnyCase()
    ensures forall v :: v != "" ==> (Absent(Some(v)) <==> UnknownSpelling(v))
    ensures !Absent(Some("unknown1")) && !Absent(Some("unknowm"))
  {
    forall v | v != ""
      ensures Absent(Some(v)) <==> UnknownSpelling(v)
    {
      if |v| == 7 {
        UnknownLetters(v);
      }
    }
    assert !SameLetterIgnoringCase('m', "unknown"[6]);
  }

  lemma UnknownLetters(v: string)
    requires |v| == 7
    ensures IsUnknownIgnoringCase(v) <==> UnknownSpelling(v)
  {
    forall i | 0 <= i < 7
      ensures SameLetterIgnoringCase(v[i], "unknown"[i]) <==>
                v[i] == "unknown"[i] || v[i] == "UNKNOWN"[i] || (i == 2 && v[i] == '\U{212A}')
    {
      UnknownUpperLetter(i);
    }
  }

  lemma UnknownUpperLetter(i: int)
    requires 0 <= i < 7
    ensures ("unknown"[i] as int - 32) as char == "UNKNOWN"[i]
    ensures "unknown"[i] == 'k' <==> i == 2
  {
  }

  /**
   * The value extractClientIp settles on is used verbatim unless it holds
   * ',': then it is its first ','-separated field, trimmed, and a value of
   * commas only throws. Either way the resulting address holds no ','.
   */
  lemma ClientIpCommaHandling(request: ClientRequest)
    ensures ClientIp(request).Failure? <==>
              Settled(request).Some? && |Settled(request).value| > 0
              && forall i :: 0 <= i < |Settled(request).value| ==> Settled(request).value[i] == ','
    ensures ClientIp(request).Failure? ==> ClientIp(request).error == ArrayIndexOutOfBounds
    ensures Settled(request).None? || ',' !in Settled(request).value ==> ClientIp(request) == Success(Settled(request))
    ensures ClientIp(request).Success? && Settled(request).Some? && ',' in Settled(request).value ==>
              ClientIp(request) == Success(Some(Trim(SplitAll(Settled(request).value, ',')[0])))
    ensures ClientIp(request).Success? && ClientIp(request).value.Some? ==> ',' !in ClientIp(request).value.value
  {
    var v := Settled(request);
    if v.Some? && |v.value| > 0 {
      assert v.value[0] in v.value;
    }
    if v.Some? && ',' in v.value {
      var first := SplitFirst(v.value, ',');
      if first.Some? {
        TrimAvoids(first.value, ',');
      }
    }
  }

  /**
   * A forwarded-for chain "client, proxy..." whose first entry is a framed,
   * comma-free value yields that entry, whatever the other headers hold.
   */
  lemma ForwardedChainYieldsFirstHop(request: ClientRequest, first: string, rest: string)
    requires request.forwardedFor == Some(first + [','] + rest)
    requires first != [] && ',' !in first
    requires !IsTrimmable(first[0]) && !IsTrimmable(first[|first| - 1])
    ensures ClientIp(request) == Success(Some(first))
  {
    var v := first + [','] + rest;
    assert v[|first|] == ',';
    assert !IsUnknownIgnoringCase(v) by {
      if |v| == 7 {
        assert !SameLetterIgnoringCase(v[|first|], "unknown"[|first|]);
      }
    }
    assert Settled(request) == Some(v);
    SplitAllCons(first, ',', rest);
    TrimKeepsFramed(first);
  }

  // ---- Loopback resolution ----

  /** The two spellings resolvePublicIp replaces; other loopback spellings such as "::1" are kept. */
  predicate IsLoopbackLiteral(ip: string) {
    ip == "127.0.0.1" || ip == "0:0:0:0:0:0:0:1"
  }

  /** What the public-address echo service yields: a plain-text body, possibly null, or a client failure. */
  datatype EchoOutcome = EchoBody(body: Option<string>) | EchoThrew(error: JavaException)

  /**
   * resolvePublicIp: a loopback literal is replaced by the echo body, which
   * is not validated; an echo failure is a RuntimeException; every other
   * address is returned as it is.
   */
  function ResolvePublicIp(ip: string, echo: EchoOutcome): (r: Result<Option<string>, JavaException>)
    ensures r.Failure? <==> IsLoopbackLiteral(ip) && echo.EchoThrew?
    ensures r.Failure? ==> r.error == Runtime("Failed to retrieve public IP", Some(echo.error))
    ensures !IsLoopbackLiteral(ip) ==> r == Success(Some(ip))
    ensures IsLoopbackLiteral(ip) && echo.EchoBody? ==> r == Success(echo.body)
  {
    if IsLoopbackLiteral(ip) then
      match echo
      case EchoBody(body) => Success(body)
      case EchoThrew(e) => Failure(Runtime("Failed to retrieve public IP", Some(e)))
    else Success(Some(ip))
  }

  // ---- The orchestration ----

  /** The injected collaborators' configuration. */
  datatype Services = Services(location: Locations.LocationConfig, weather: Weather.WeatherConfig, localIpUrl: string)

  /**
   * Everything outside the service that one request meets: the echo
   * service, the two providers (by requested URL), and whether each store
   * operation completes.
   */
  datatype Environment = Environment(
    echo: EchoOutcome,
    locationApi: string -> Locations.LocationCall,
    weatherApi: string -> Weather.WeatherCall,
    cacheRead: StoreCall,
    cacheWrite: StoreCall)

  /** The collaborator calls one request makes, in order. */
  datatype Call =
    | PublicIpLookup(url: string)
    | CacheLookup(ip: Option<string>)
    | LocationLookup(ip: Option<string>)
    | WeatherLookup(city: Option<string>)
    | CacheSave(ip: Option<string>, value: LocationWeatherResponse)

  /** The outcome of one request: the answer or exception, the calls made, and the store afterwards. */
  datatype Run = Run(result: Result<LocationWeatherResponse, JavaException>, calls: seq<Call>, store: map<string, CacheEntry>)

  const WeatherDataError := "Failed to retrieve weather data"

  /** The two catch blocks: an IllegalArgumentException is rethrown as it is, anything else is wrapped. */
  function AsServiceFailure(e: JavaException): (thrown: JavaException)
    ensures e.IllegalArgument? ==> thrown == e
    ensures !e.IllegalArgument? ==> thrown == Runtime(WeatherDataError, Some(e))
  {
    if e.IllegalArgument? then e else Runtime(WeatherDataError, Some(e))
  }

  function InvalidIpMessage(ip: Option<string>): string {
    "Invalid IP address provided in the request: " + JavaText(ip)
  }

  /** Step 1: the supplied address when it is non-null and non-empty, else the one extracted from the request. */
  function Identify(ip: Option<string>, request: ClientRequest): Result<Option<string>, JavaException> {
    if ip.Some? && ip.value != "" then Success(ip) else ClientIp(request)
  }

  /** Cache probe, then on a miss location, weather, composition and cache write, for the resolved address. */
  function LookupRun(svc: Services, ip: Option<string>, env: Environment, store: map<string, CacheEntry>): Run {
    match CacheRead(store, ip, env.cacheRead)
    case Some(cached) => Run(Success(cached), [CacheLookup(ip)], store)
    case None =>
      match Locations.GetLocationByIp(svc.location, ip, env.locationApi)
      case Failure(e) => Run(Failure(AsServiceFailure(e)), [CacheLookup(ip), LocationLookup(ip)], store)
      case Success(location) =>
        var lookups := [CacheLookup(ip), LocationLookup(ip), WeatherLookup(location.city)];
        match Weather.GetWeatherByCity(svc.weather, location.city, env.weatherApi)
        case Failure(e) => Run(Failure(AsServiceFailure(e)), lookups, store)
        case Success(weather) =>
          var response := LocationWeatherResponse(ip, Some(location), Some(weather));
          Run(Success(response), lookups + [CacheSave(ip, response)], CacheWrite(store, ip, response, env.cacheWrite))
  }

  /** Loopback resolution of a validated address, then LookupRun on the address it resolves to. */
  function ResolvedRun(svc: Services, address: string, env: Environment, store: map<string, CacheEntry>): Run {
    var echoCalls := if IsLoopbackLiteral(address) then [PublicIpLookup(svc.localIpUrl)] else [];
    match ResolvePublicIp(address, env.echo)
    case Failure(e) => Run(Failure(AsServiceFailure(e)), echoCalls, store)
    case Success(resolved) =>
      var run := LookupRun(svc, resolved, env, store);
      run.(calls := echoCalls + run.calls)
  }

  /** getWeatherByIp as a function of its inputs, its environment and the store. */
  function GetWeatherByIpRun(svc: Services, ip: Option<string>, request: ClientRequest, env: Environment,
                             store: map<string, CacheEntry>): Run {
    match Identify(ip, request)
    case Failure(e) => Run(Failure(AsServiceFailure(e)), [], store)
    case Success(candidate) =>
      if !IsValidIp(candidate) then Run(Failure(IllegalArgument(InvalidIpMessage(candidate))), [], store)
      else ResolvedRun(svc, candidate.value, env, store)
  }

  // ---- Properties of one request ----

  /** The cache writes among `calls`, in order. */
  function Saves(calls: seq<Call>): (saves: seq<Call>)
    ensures |saves| <= |calls|
    ensures forall i :: 0 <= i < |saves| ==> saves[i].CacheSave?
  {
    if |calls| == 0 then []
    else (if calls[0].CacheSave? then [calls[0]] else []) + Saves(calls[1..])
  }

  lemma {:induction false} SavesAppend(a: seq<Call>, b: seq<Call>)
    ensures Saves(a + b) == Saves(a) + Saves(b)
    decreases |a|
  {
    if |a| == 0 {
      assert a + b == b;
    } else {
      assert (a + b)[0] == a[0];
      assert (a + b)[1..] == a[1..] + b;
      SavesAppend(a[1..], b);
    }
  }

  lemma {:induction false} NoSaves(calls: seq<Call>)
    requires forall i :: 0 <= i < |calls| ==> !calls[i].CacheSave?
    ensures Saves(calls) == []
    decreases |calls|
  {
    if |calls| > 0 {
      NoSaves(calls[1..]);
    }
  }

  /** The cache reads among `calls`, in order. */
  function Reads(calls: seq<Call>): (lookups: seq<Call>)
    ensures |lookups| <= |calls|
    ensures forall i :: 0 <= i < |lookups| ==> lookups[i].CacheLookup?
  {
    if |calls| == 0 then []
    else (if calls[0].CacheLookup? then [calls[0]] else []) + Reads(calls[1..])
  }

  lemma {:induction false} ReadsAppend(a: seq<Call>, b: seq<Call>)
    ensures Reads(a + b) == Reads(a) + Reads(b)
    decreases |a|
  {
    if |a| == 0 {
      assert a + b == b;
    } else {
      assert (a + b)[0] == a[0];
      assert (a + b)[1..] == a[1..] + b;
      ReadsAppend(a[1..], b);
    }
  }

  lemma {:induction false} NoReads(calls: seq<Call>)
    requires forall i :: 0 <= i < |calls| ==> !calls[i].CacheLookup?
    ensures Reads(calls) == []
    decreases |calls|
  {
    if |calls| > 0 {
      NoReads(calls[1..]);
    }
  }

  /** A supplied, non-empty address means the request's headers and remote address are never consulted. */
  lemma SuppliedIpSkipsHeaders(svc: Services, ip: Option<string>, a: ClientRequest, b: ClientRequest,
                               env: Environment, store: map<string, CacheEntry>)
    requires ip.Some? && ip.value != ""
    ensures GetWeatherByIpRun(svc, ip, a, env, store) == GetWeatherByIpRun(svc, ip, b, env, store)
  {
  }

  /**
   * An address that fails validation, null included, is an
   * IllegalArgumentException naming it, thrown before the echo service, the
   * cache or a provider is called.
   */
  lemma InvalidAddressRejectedFirst(svc: Services, ip: Option<string>, request: ClientRequest,
                                    env: Environment, store: map<string, CacheEntry>)
    requires Identify(ip, request).Success? && !IsValidIp(Identify(ip, request).value)
    ensures var run := GetWeatherByIpRun(svc, ip, request, env, store);
            && run.result == Failure(IllegalArgument(InvalidIpMessage(Identify(ip, request).value)))
            && run.calls == [] && run.store == store
  {
  }

  /**
   * A header of commas only makes the split fail; that failure is wrapped
   * like any other, before validation and before any collaborator call.
   */
  lemma CommaOnlyHeaderFails(svc: Services, ip: Option<string>, request: ClientRequest,
                             env: Environment, store: map<string, CacheEntry>)
    requires ip.None? || ip.value == ""
    requires Settled(request).Some? && |Settled(request).value| > 0
    requires forall i :: 0 <= i < |Settled(request).value| ==> Settled(request).value[i] == ','
    ensures var run := GetWeatherByIpRun(svc, ip, request, env, store);
            && run.result == Failure(Runtime(WeatherDataError, Some(ArrayIndexOutOfBounds)))
            && run.calls == [] && run.store == store
  {
    ClientIpCommaHandling(request);
  }

  /**
   * Only the two loopback literals reach the echo service. Its body, null or
   * not and unvalidated, replaces the address for every later step; its
   * failure ends the request with "Failed to retrieve public IP" as the
   * cause. Any other address goes on unchanged, without an echo call.
   */
  lemma LoopbackResolution(svc: Services, address: string, env: Environment, store: map<string, CacheEntry>)
    ensures IsLoopbackLiteral(address) && env.echo.EchoBody? ==>
              var run := LookupRun(svc, env.echo.body, env, store);
              ResolvedRun(svc, address, env, store) == run.(calls := [PublicIpLookup(svc.localIpUrl)] + run.calls)
    ensures IsLoopbackLiteral(address) && env.echo.EchoThrew? ==>
              ResolvedRun(svc, address, env, store) ==
                Run(Failure(Runtime(WeatherDataError, Some(Runtime("Failed to retrieve public IP", Some(env.echo.error))))),
                    [PublicIpLookup(svc.localIpUrl)], store)
    ensures !IsLoopbackLiteral(address) ==> ResolvedRun(svc, address, env, store) == LookupRun(svc, Some(address), env, store)
  {
    var run := LookupRun(svc, Some(address), env, store);
    assert [] + run.calls == run.calls;
  }

  /** A cache hit is returned as stored: no provider is asked and nothing is written. */
  lemma CacheHitShortCircuits(svc: Services, ip: Option<string>, env: Environment, store: map<string, CacheEntry>)
    requires env.cacheRead == Completes && CacheKey(ip) in store
    ensures LookupRun(svc, ip, env, store) == Run(Success(store[CacheKey(ip)].value), [CacheLookup(ip)], store)
  {
  }

  /**
   * On a miss the location is looked up with the resolved address and the
   * weather with the location's city; the composed answer {ip, location,
   * weather} is returned and saved exactly once, under that address.
   */
  lemma MissComposesAndSavesOnce(svc: Services, ip: Option<string>, env: Environment, store: map<string, CacheEntry>)
    requires CacheRead(store, ip, env.cacheRead).None?
    requires Locations.GetLocationByIp(svc.location, ip, env.locationApi).Success?
    requires var city := Locations.GetLocationByIp(svc.location, ip, env.locationApi).value.city;
             Weather.GetWeatherByCity(svc.weather, city, env.weatherApi).Success?
    ensures var location := Locations.GetLocationByIp(svc.location, ip, env.locationApi).value;
            var weather := Weather.GetWeatherByCity(svc.weather, location.city, env.weatherApi).value;
            var response := LocationWeatherResponse(ip, Some(location), Some(weather));
            var run := LookupRun(svc, ip, env, store);
            && run.result == Success(response)
            && run.calls == [CacheLookup(ip), LocationLookup(ip), WeatherLookup(location.city), CacheSave(ip, response)]
            && Saves(run.calls) == [CacheSave(ip, response)]
            && run.store == CacheWrite(store, ip, response, env.cacheWrite)
  {
    var location := Locations.GetLocationByIp(svc.location, ip, env.locationApi).value;
    var weather := Weather.GetWeatherByCity(svc.weather, location.city, env.weatherApi).value;
    var response := LocationWeatherResponse(ip, Some(location), Some(weather));
    var lookups := [CacheLookup(ip), LocationLookup(ip), WeatherLookup(location.city)];
    NoSaves(lookups);
    SavesAppend(lookups, [CacheSave(ip, response)]);
    assert [CacheSave(ip, response)][1..] == [];
  }

  /** The cache-and-providers stage reads the cache exactly once, first, under the address it was given. */
  lemma LookupRunReadsOnce(svc: Services, ip: Option<string>, env: Environment, store: map<string, CacheEntry>)
    ensures var run := LookupRun(svc, ip, env, store);
            |run.calls| >= 1 && run.calls[0] == CacheLookup(ip) && Reads(run.calls) == [CacheLookup(ip)]
  {
    var calls := LookupRun(svc, ip, env, store).calls;
    var rest := calls[1..];
    assert calls == [CacheLookup(ip)] + rest;
    assert forall i :: 0 <= i < |rest| ==> !rest[i].CacheLookup?;
    NoReads(rest);
    ReadsAppend([CacheLookup(ip)], rest);
    assert [CacheLookup(ip)][1..] == [];
  }

  /** No request reads the cache more than once. */
  lemma AtMostOneRead(svc: Services, ip: Option<string>, request: ClientRequest,
                      env: Environment, store: map<string, CacheEntry>)
    ensures |Reads(GetWeatherByIpRun(svc, ip, request, env, store).calls)| <= 1
  {
    match Identify(ip, request)
    case Failure(_) =>
    case Success(candidate) =>
      if IsValidIp(candidate) {
        var address := candidate.value;
        var echoCalls := if IsLoopbackLiteral(address) then [PublicIpLookup(svc.localIpUrl)] else [];
        NoReads(echoCalls);
        match ResolvePublicIp(address, env.echo)
        case Failure(_) =>
        case Success(resolved) =>
          ReadsAppend(echoCalls, LookupRun(svc, resolved, env, store).calls);
          LookupRunReadsOnce(svc, resolved, env, store);
      }
  }

  /**
   * Every request reads the cache at most once and writes it at most once;
   * a write happens only for a freshly composed answer, which is what it
   * stores; and a failed request leaves the store as it was.
   */
  lemma {:induction false} OneReadAtMostOneWrite(svc: Services, ip: Option<string>, request: ClientRequest,
                                                 env: Environment, store: map<string, CacheEntry>)
    ensures var run := GetWeatherByIpRun(svc, ip, request, env, store);
            && |Reads(run.calls)| <= 1
            && |Saves(run.calls)| <= 1
            && (|Saves(run.calls)| == 1 ==>
                  run.result.Success? && Saves(run.calls)[0] == CacheSave(run.result.value.ip, run.result.value)
                  && run.store == CacheWrite(store, run.result.value.ip, run.result.value, env.cacheWrite))
            && (|Saves(run.calls)| == 0 ==> run.store == store)
            && (run.result.Failure? ==> run.store == store)
  {
    AtMostOneRead(svc, ip, request, env, store);
    match Identify(ip, request)
    case Failure(_) =>
    case Success(candidate) =>
      if IsValidIp(candidate) {
        var address := candidate.value;
        var echoCalls := if IsLoopbackLiteral(address) then [PublicIpLookup(svc.localIpUrl)] else [];
        assert Saves(echoCalls) == [] by {
          if IsLoopbackLiteral(address) { assert echoCalls[1..] == []; }
        }
        match ResolvePublicIp(address, env.echo)
        case Failure(_) =>
        case Success(resolved) =>
          var run := LookupRun(svc, resolved, env, store);
          SavesAppend(echoCalls, run.calls);
          LookupRunSaves(svc, resolved, env, store);
      }
  }

  lemma LookupRunSaves(svc: Services, ip: Option<string>, env: Environment, store: map<string, CacheEntry>)
    ensures var run := LookupRun(svc, ip, env, store);
            && |Saves(run.calls)| <= 1
            && (|Saves(run.calls)| == 1 ==>
                  run.result.Success? && Saves(run.calls)[0] == CacheSave(run.result.value.ip, run.result.value)
                  && run.store == CacheWrite(store, run.result.value.ip, run.result.value, env.cacheWrite))
            && (|Saves(run.calls)| == 0 ==> run.store == store)
  {
    var run := LookupRun(svc, ip, env, store);
    if CacheRead(store, ip, env.cacheRead).Some? {
      NoSaves(run.calls);
    } else {
      var location := Locations.GetLocationByIp(svc.location, ip, env.locationApi);
      if location.Failure? {
        NoSaves(run.calls);
      } else if Weather.GetWeatherByCity(svc.weather, location.value.city, env.weatherApi).Failure? {
        NoSaves(run.calls);
      } else {
        MissComposesAndSavesOnce(svc, ip, env, store);
      }
    }
  }

  /** The message prefix of the IllegalArgumentException for a malformed provider URI. */
  predicate IsInvalidUriMessage(m: string) {
    |m| >= 13 && m[..13] == "Invalid URI: "
  }

  /**
   * The failures of the cache-and-providers stage: a malformed provider URI
   * passes through as its IllegalArgumentException; anything else is wrapped
   * in RuntimeException("Failed to retrieve weather data").
   */
  lemma LookupFailureChannels(svc: Services, ip: Option<string>, env: Environment, store: map<string, CacheEntry>)
    ensures var r := LookupRun(svc, ip, env, store).result;
            r.Failure? ==>
              || (r.error.IllegalArgument? && IsInvalidUriMessage(r.error.message))
              || (r.error.Runtime? && r.error.message == WeatherDataError && r.error.cause.Some?
                  && !r.error.cause.value.IllegalArgument?)
  {
    if CacheRead(store, ip, env.cacheRead).None? {
      var location := Locations.GetLocationByIp(svc.location, ip, env.locationApi);
      if location.Failure? && location.error.IllegalArgument? {
        var reason := env.locationApi(Locations.BuildUrl(svc.location, ip.value)).reason;
        assert ("Invalid URI: " + reason)[..13] == "Invalid URI: ";
      }
    }
  }

  /**
   * The error-channel policy: a request fails either with an
   * IllegalArgumentException — the invalid address, or a malformed provider
   * URI passed through unchanged — or with RuntimeException("Failed to
   * retrieve weather data") wrapping any other failure.
   */
  lemma FailureChannels(svc: Services, ip: Option<string>, request: ClientRequest,
                        env: Environment, store: map<string, CacheEntry>)
    ensures var r := GetWeatherByIpRun(svc, ip, request, env, store).result;
            r.Failure? ==>
              || (Identify(ip, request).Success? && r.error == IllegalArgument(InvalidIpMessage(Identify(ip, request).value)))
              || (r.error.IllegalArgument? && IsInvalidUriMessage(r.error.message))
              || (r.error.Runtime? && r.error.message == WeatherDataError && r.error.cause.Some?
                  && !r.error.cause.value.IllegalArgument?)
  {
    var id := Identify(ip, request);
    if id.Success? && IsValidIp(id.value) {
      ResolvedFailureChannels(svc, id.value.value, env, store);
    }
  }

  /** The same two channels after loopback resolution: a failed echo call is wrapped too. */
  lemma ResolvedFailureChannels(svc: Services, address: string, env: Environment, store: map<string, CacheEntry>)
    ensures var r := ResolvedRun(svc, address, env, store).result;
            r.Failure? ==>
              || (r.error.IllegalArgument? && IsInvalidUriMessage(r.error.message))
              || (r.error.Runtime? && r.error.message == WeatherDataError && r.error.cause.Some?
                  && !r.error.cause.value.IllegalArgument?)
  {
    var resolved := ResolvePublicIp(address, env.echo);
    if resolved.Success? {
      LookupFailureChannels(svc, resolved.value, env, store);
    }
  }

  /** A failed cache read is indistinguishable from a miss on an empty store. */
  lemma FailedReadIsAMiss(svc: Services, ip: Option<string>, request: ClientRequest,
                          env: Environment, store: map<string, CacheEntry>)
    ensures var failed := GetWeatherByIpRun(svc, ip, request, env.(cacheRead := Throws), store);
            var empty := GetWeatherByIpRun(svc, ip, request, env.(cacheRead := Completes), map[]);
            failed.result == empty.result && failed.calls == empty.calls
  {
    var id := Identify(ip, request);
    if id.Success? && IsValidIp(id.value) {
      var resolved := ResolvePublicIp(id.value.value, env.echo);
      if resolved.Success? {
        FailedReadLookup(svc, resolved.value, env, store);
      }
    }
  }

  lemma FailedReadLookup(svc: Services, ip: Option<string>, env: Environment, store: map<string, CacheEntry>)
    ensures var failed := LookupRun(svc, ip, env.(cacheRead := Throws), store);
            var empty := LookupRun(svc, ip, env.(cacheRead := Completes), map[]);
            failed.result == empty.result && failed.calls == empty.calls
  {
  }

  /** A failed cache write changes neither the answer nor the calls, and leaves the store as it was. */
  lemma FailedWriteIsSwallowed(svc: Services, ip: Option<string>, request: ClientRequest,
                               env: Environment, store: map<string, CacheEntry>)
    ensures var failed := GetWeatherByIpRun(svc, ip, request, env.(cacheWrite := Throws), store);
            var written := GetWeatherByIpRun(svc, ip, request, env.(cacheWrite := Completes), store);
            failed.result == written.result && failed.calls == written.calls && failed.store == store
  {
    var id := Identify(ip, request);
    if id.Success? && IsValidIp(id.value) {
      var resolved := ResolvePublicIp(id.value.value, env.echo);
      if resolved.Success? {
        FailedWriteLookup(svc, resolved.value, env, store);
      }
    }
  }

  lemma FailedWriteLookup(svc: Services, ip: Option<string>, env: Environment, store: map<string, CacheEntry>)
    ensures var failed := LookupRun(svc, ip, env.(cacheWrite := Throws), store);
            var written := LookupRun(svc, ip, env.(cacheWrite := Completes), store);
            failed.result == written.result && failed.calls == written.calls && failed.store == store
  {
  }

  class LocationWeatherService {
    const locationConfig: Locations.LocationConfig
    const weatherConfig: Weather.WeatherConfig
    const redisService: RedisService
    const localIpUrl: string

    constructor (locationConfig: Locations.LocationConfig, weatherConfig: Weather.WeatherConfig,
                 redisService: RedisService, localIpUrl: string)
      ensures this.locationConfig == locationConfig && this.weatherConfig == weatherConfig
      ensures this.redisService == redisService && this.localIpUrl == localIpUrl
    {
      this.locationConfig := locationConfig;
      this.weatherConfig := weatherConfig;
      this.redisService := redisService;
      this.localIpUrl := localIpUrl;
    }

    /**
     * getWeatherByIp. The answer is the one GetWeatherByIpRun describes, and
     * the store is changed only as that run's cache write says.
     */
    method GetWeatherByIp(ip: Option<string>, request: ClientRequest, env: Environment)
      returns (r: Result<LocationWeatherResponse, JavaException>)
      modifies redisService
      ensures var run := GetWeatherByIpRun(Services(locationConfig, weatherConfig, localIpUrl), ip, request, env,
                                           old(redisService.store));
              r == run.result && redisService.store == run.store
    {
      var address := ip;
      if address.None? || address.value == "" {
        var extracted := ExtractClientIp(request);
        if extracted.Failure? {
          return Failure(AsServiceFailure(extracted.error));
        }
        address := extracted.value;
      }
      if !IsValidIp(address) {
        return Failure(IllegalArgument(InvalidIpMessage(address)));
      }
      var resolved := ResolvePublicIp(address.value, env.echo);
      if resolved.Failure? {
        return Failure(AsServiceFailure(resolved.error));
      }
      address := resolved.value;
      var cached := redisService.GetWeatherFromCache(address, env.cacheRead);
      if cached.Some? {
        return Success(cached.value);
      }
      var location := Locations.GetLocationByIp(locationConfig, address, env.locationApi);
      if location.Failure? {
        return Failure(AsServiceFailure(location.error));
      }
      var weather := Weather.GetWeatherByCity(weatherConfig, location.value.city, env.weatherApi);
      if weather.Failure? {
        return Failure(AsServiceFailure(weather.error));
      }
      var response := LocationWeatherResponse(address, Some(location.value), Some(weather.value));
      redisService.SaveWeatherToCache(address, response, env.cacheWrite);
      return Success(response);
    }
  }
}
