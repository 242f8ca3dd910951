/**
 * The behaviours the service's own tests exercise, and a few edge cases of
 * the orchestration, as statements about GetWeatherByIpRun with the
 * collaborators stubbed the way those tests stub them.
 */
module Scenarios {
  import opened Wrappers
  import opened JavaStrings
  import opened Dto
  import opened IpSyntax
  import opened Cache
  import Locations
  import Weather
  import Classification
  import AddressTexts
  import opened Orchestrator

  /** 25.0 as an IEEE 754 double. */
  const TwentyFive := Double(0x4039_0000_0000_0000)

  const SanJose := LocationResponse(Some("San Jose"), Some("USA"))

  const ClearSky := WeatherResponse(TwentyFive, 60, Some("Clear sky"))

  /** The location provider answers `address` with a payload naming San Jose, USA. */
  predicate LocatesSanJose(svc: Services, env: Environment, address: string) {
    var call := env.locationApi(Locations.BuildUrl(svc.location, address));
    call.Answered? && call.body.Some? && call.body.value.city == Some("San Jose")
    && call.body.value.country == Some("USA")
  }

  /** The weather provider answers San Jose with 25.0 degrees, 60% humidity and "Clear sky". */
  predicate ReportsClearSky(svc: Services, env: Environment) {
    var call := env.weatherApi(Weather.WeatherUrl(svc.weather, Some("San Jose")));
    && call.WeatherAnswered? && call.body.Some? && call.body.value.current.Some?
    && var current := call.body.value.current.value;
       current.tempC == TwentyFive && current.humidity == 60
       && current.condition.Some? && current.condition.value.text == Some("Clear sky")
  }

  /**
   * A valid address other than the two loopback literals that misses the
   * cache is answered with the composed location and weather, and that
   * answer is saved once under the address.
   */
  lemma ValidAddressComposesAndCaches(svc: Services, address: string, request: ClientRequest, env: Environment,
                                      store: map<string, CacheEntry>)
    requires IsValidIp(Some(address)) && !IsLoopbackLiteral(address)
    requires CacheKey(Some(address)) !in store
    requires LocatesSanJose(svc, env, address) && ReportsClearSky(svc, env)
    ensures var run := GetWeatherByIpRun(svc, Some(address), request, env, store);
            var expected := LocationWeatherResponse(Some(address), Some(SanJose), Some(ClearSky));
            run.result == Success(expected) && Saves(run.calls) == [CacheSave(Some(address), expected)]
  {
    LoopbackResolution(svc, address, env, store);
    MissComposesAndSavesOnce(svc, Some(address), env, store);
  }

  lemma ValidIpTest(svc: Services, request: ClientRequest, env: Environment, store: map<string, CacheEntry>)
    requires CacheKey(Some("68.49.0.196")) !in store
    requires LocatesSanJose(svc, env, "68.49.0.196") && ReportsClearSky(svc, env)
    ensures var run := GetWeatherByIpRun(svc, Some("68.49.0.196"), request, env, store);
            var expected := LocationWeatherResponse(Some("68.49.0.196"), Some(SanJose), Some(ClearSky));
            run.result == Success(expected) && Saves(run.calls) == [CacheSave(Some("68.49.0.196"), expected)]
  {
    ValidIpTestAddress();
    ValidAddressComposesAndCaches(svc, "68.49.0.196", request, env, store);
  }

  /** The address of the valid-address test is a valid IPv4 address and not a loopback literal. */
  lemma ValidIpTestAddress()
    ensures IsValidIp(Some("68.49.0.196")) && !IsLoopbackLiteral("68.49.0.196")
  {
    AddressTexts.ValidIpTestFields();
    Classification.DottedQuadForm("68", "49", "0", "196");
    Classification.Ipv4IsValid("68.49.0.196");
  }

  /** "invalid_ip" is refused with an IllegalArgumentException before any collaborator is called. */
  lemma InvalidAddressRefused(svc: Services, request: ClientRequest, env: Environment, store: map<string, CacheEntry>)
    ensures var run := GetWeatherByIpRun(svc, Some("invalid_ip"), request, env, store);
            && run.result == Failure(IllegalArgument("Invalid IP address provided in the request: invalid_ip"))
            && run.calls == [] && run.store == store
  {
    Classification.NoSeparatorNoAddress("invalid_ip");
    AddressTexts.InvalidIpText();
  }

  /** A cached answer is returned as it is, and nothing is saved. */
  lemma CachedAnswerReturned(svc: Services, address: string, request: ClientRequest, env: Environment,
                             store: map<string, CacheEntry>, cached: LocationWeatherResponse)
    requires IsValidIp(Some(address)) && !IsLoopbackLiteral(address)
    requires env.cacheRead == Completes
    requires CacheKey(Some(address)) in store && store[CacheKey(Some(address))].value == cached
    ensures var run := GetWeatherByIpRun(svc, Some(address), request, env, store);
            run.result == Success(cached) && Saves(run.calls) == [] && run.store == store
  {
    CacheHitShortCircuits(svc, Some(address), env, store);
    assert [CacheLookup(Some(address))][1..] == [];
  }

  lemma CachedDataTest(svc: Services, request: ClientRequest, env: Environment,
                       store: map<string, CacheEntry>, cached: LocationWeatherResponse)
    requires env.cacheRead == Completes
    requires CacheKey(Some("192.168.1.1")) in store && store[CacheKey(Some("192.168.1.1"))].value == cached
    ensures var run := GetWeatherByIpRun(svc, Some("192.168.1.1"), request, env, store);
            run.result == Success(cached) && Saves(run.calls) == [] && run.store == store
  {
    CachedDataTestAddress();
    CachedAnswerReturned(svc, "192.168.1.1", request, env, store, cached);
  }

  /** The address of the cached-data test is a valid IPv4 address and not a loopback literal. */
  lemma CachedDataTestAddress()
    ensures IsValidIp(Some("192.168.1.1")) && !IsLoopbackLiteral("192.168.1.1")
  {
    AddressTexts.CachedDataTestFields();
    Classification.DottedQuadForm("192", "168", "1", "1");
    Classification.Ipv4IsValid("192.168.1.1");
  }

  /**
   * A loopback literal is replaced by the echo service's answer, which is
   * then looked up, composed and cached under that answer.
   */
  lemma LoopbackUsesPublicAddress(svc: Services, literal: string, public: string, request: ClientRequest,
                                  env: Environment, store: map<string, CacheEntry>)
    requires IsLoopbackLiteral(literal) && IsValidIp(Some(literal))
    requires env.echo == EchoBody(Some(public))
    requires CacheKey(Some(public)) !in store
    requires LocatesSanJose(svc, env, public) && ReportsClearSky(svc, env)
    ensures var run := GetWeatherByIpRun(svc, Some(literal), request, env, store);
            var expected := LocationWeatherResponse(Some(public), Some(SanJose), Some(ClearSky));
            && run.result == Success(expected)
            && run.calls[0] == PublicIpLookup(svc.localIpUrl)
            && Saves(run.calls) == [CacheSave(Some(public), expected)]
  {
    LoopbackResolution(svc, literal, env, store);
    MissComposesAndSavesOnce(svc, Some(public), env, store);
    var run := LookupRun(svc, Some(public), env, store);
    SavesAppend([PublicIpLookup(svc.localIpUrl)], run.calls);
    assert [PublicIpLookup(svc.localIpUrl)][1..] == [];
  }

  lemma LocalIpTest(svc: Services, request: ClientRequest, env: Environment, store: map<string, CacheEntry>)
    requires env.echo == EchoBody(Some("68.43.0.196"))
    requires CacheKey(Some("68.43.0.196")) !in store
    requires LocatesSanJose(svc, env, "68.43.0.196") && ReportsClearSky(svc, env)
    ensures var run := GetWeatherByIpRun(svc, Some("127.0.0.1"), request, env, store);
            var expected := LocationWeatherResponse(Some("68.43.0.196"), Some(SanJose), Some(ClearSky));
            && run.result == Success(expected)
            && run.calls[0] == PublicIpLookup(svc.localIpUrl)
            && Saves(run.calls) == [CacheSave(Some("68.43.0.196"), expected)]
  {
    Classification.LoopbackV4Classified();
    Classification.Ipv4IsValid("127.0.0.1");
    LoopbackUsesPublicAddress(svc, "127.0.0.1", "68.43.0.196", request, env, store);
  }

  /** "::1" is valid but not one of the two literals: it is looked up as it is, without an echo call. */
  lemma ShortLoopbackNotResolved(svc: Services, request: ClientRequest, env: Environment,
                                 store: map<string, CacheEntry>)
    ensures GetWeatherByIpRun(svc, Some("::1"), request, env, store) == LookupRun(svc, Some("::1"), env, store)
  {
    Classification.ShortLoopbackIsIPv6();
    LoopbackResolution(svc, "::1", env, store);
  }

  /**
   * An echo answer of null becomes the address: the cache is probed under
   * "weather:null" and, on a miss, building the location URL throws, which
   * surfaces wrapped.
   */
  lemma NullEchoBodyFails(svc: Services, literal: string, request: ClientRequest, env: Environment,
                          store: map<string, CacheEntry>)
    requires IsLoopbackLiteral(literal) && IsValidIp(Some(literal))
    requires env.echo == EchoBody(None) && env.cacheRead == Completes && "weather:null" !in store
    ensures var run := GetWeatherByIpRun(svc, Some(literal), request, env, store);
            && run.result == Failure(Runtime(WeatherDataError, Some(NullPointer)))
            && run.calls == [PublicIpLookup(svc.localIpUrl), CacheLookup(None), LocationLookup(None)]
            && run.store == store
  {
    LoopbackResolution(svc, literal, env, store);
    NullAddressLookup(svc, env, store);
  }

  /** With the key "weather:null" absent, a null address misses the cache and fails at the location lookup. */
  lemma NullAddressLookup(svc: Services, env: Environment, store: map<string, CacheEntry>)
    requires env.cacheRead == Completes && "weather:null" !in store
    ensures LookupRun(svc, None, env, store)
            == Run(Failure(Runtime(WeatherDataError, Some(NullPointer))), [CacheLookup(None), LocationLookup(None)], store)
  {
    AddressTexts.NullCacheKeyText();
  }

  /** A zone-qualified link-local address passes validation and is sent to the IPv4 base of the location provider. */
  lemma ZoneAddressUsesV4Base(cfg: Locations.LocationConfig)
    ensures IsValidIp(Some("fe80::1%eth0"))
    ensures Locations.BuildUrl(cfg, "fe80::1%eth0") == cfg.apiUrlV4 + "/" + "fe80::1%eth0" + "?token=" + cfg.apiKey
  {
    Classification.ZoneExample();
  }
}
