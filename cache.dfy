/**
 * RedisService: the best-effort cache of composed answers. Entries live in
 * an external key-value store under "weather:" + ip; a failing read is a
 * miss and a failing write is ignored, so the cache never throws.
 */
module Cache {
  import opened Wrappers
  import opened JavaStrings
  import opened Dto

  const CachePrefix: string := "weather:"

  /** The expiry passed with every write. The method's doc comment says 3 minutes; the call passes 10. */
  const TtlMinutes: nat := 10

  /** A stored answer with the expiry it was written with. Expiry itself happens in the store and is not modelled. */
  datatype CacheEntry = CacheEntry(value: LocationWeatherResponse, ttlMinutes: nat)

  /** Whether one operation on the store completes or throws (connection failure, failed cast, ...). */
  datatype StoreCall = Completes | Throws

  /** The store key for an address; a null address is rendered "null". */
  function CacheKey(ip: Option<string>): (key: string)
    ensures |key| == |CachePrefix| + |JavaText(ip)|
    ensures key[..|CachePrefix|] == CachePrefix && key[|CachePrefix|..] == JavaText(ip)
  {
    CachePrefix + JavaText(ip)
  }

  /** Distinct addresses have distinct keys; only a null address shares its key, with the text "null". */
  lemma CacheKeyInjective(a: Option<string>, b: Option<string>)
    ensures CacheKey(a) == CacheKey(b) <==> JavaText(a) == JavaText(b)
    ensures a.Some? && b.Some? ==> (CacheKey(a) == CacheKey(b) <==> a == b)
    ensures CacheKey(None) == CacheKey(Some("null"))
  {
    if CacheKey(a) == CacheKey(b) {
      assert JavaText(a) == CacheKey(a)[|CachePrefix|..];
    }
  }

  /** What getWeatherFromCache returns against `store`: the stored answer, or null on a miss or a failed read. */
  function CacheRead(store: map<string, CacheEntry>, ip: Option<string>, call: StoreCall): (cached: Option<LocationWeatherResponse>)
    ensures cached.Some? <==> call == Completes && CacheKey(ip) in store
    ensures cached.Some? ==> cached.value == store[CacheKey(ip)].value
  {
    if call == Completes && CacheKey(ip) in store then Some(store[CacheKey(ip)].value) else None
  }

  /** The store after saveWeatherToCache: the entry written with the fixed TTL, or nothing changed if the write failed. */
  function CacheWrite(store: map<string, CacheEntry>, ip: Option<string>, value: LocationWeatherResponse, call: StoreCall)
    : (after: map<string, CacheEntry>)
    ensures call == Throws ==> after == store
    ensures call == Completes ==> after.Keys == store.Keys + {CacheKey(ip)}
    ensures call == Completes ==> after[CacheKey(ip)] == CacheEntry(value, TtlMinutes)
    ensures forall k :: k in store && k != CacheKey(ip) ==> k in after && after[k] == store[k]
  {
    if call == Completes then store[CacheKey(ip) := CacheEntry(value, TtlMinutes)] else store
  }

  /**
   * Reading back after a completed write yields the value written, and reads
   * of every other address are unaffected by any write.
   */
  lemma ReadAfterWrite(store: map<string, CacheEntry>, ip: Option<string>, value: LocationWeatherResponse,
                       write: StoreCall, other: Option<string>, read: StoreCall)
    ensures CacheRead(CacheWrite(store, ip, value, Completes), ip, Completes) == Some(value)
    ensures JavaText(other) != JavaText(ip) ==>
              CacheRead(CacheWrite(store, ip, value, write), other, read) == CacheRead(store, other, read)
  {
    CacheKeyInjective(ip, other);
  }

  class RedisService {
    /** The contents of the key-value store, by key. */
    var store: map<string, CacheEntry>

    /** The service only keeps its handle on the store, which may already hold entries. */
    constructor (initial: map<string, CacheEntry>)
      ensures store == initial
    {
      store := initial;
    }

    /** getWeatherFromCache: never throws; a failed read looks like a miss. */
    method GetWeatherFromCache(ip: Option<string>, call: StoreCall) returns (cached: Option<LocationWeatherResponse>)
      ensures cached == CacheRead(store, ip, call)
      ensures call == Throws ==> cached.None?
    {
      var key := CachePrefix + JavaText(ip);
      if call == Throws {
        cached := None;
      } else if key in store {
        cached := Some(store[key].value);
      } else {
        cached := None;
      }
    }

    /** saveWeatherToCache: writes the entry with the fixed TTL; a failed write is swallowed. */
    method SaveWeatherToCache(ip: Option<string>, weatherResponse: LocationWeatherResponse, call: StoreCall)
      modifies this
      ensures store == CacheWrite(old(store), ip, weatherResponse, call)
    {
      var key := CachePrefix + JavaText(ip);
      if call == Completes {
        store := store[key := CacheEntry(weatherResponse, TtlMinutes)];
      }
    }
  }
}
