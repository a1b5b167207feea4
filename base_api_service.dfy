/**
  The shared plumbing of smart-cart-vite/src/services/api/BaseAPIService.js: the
  connection fields copied from a Store, and an in-memory cache whose entries are
  served for five minutes after they were stored.

  The clock (`Date.now()`) and the fetch function are outside the model: each call
  receives the clock reading taken at lookup, the outcome the fetch would settle with
  (its value, or the error it rejects with) and
  the clock reading taken after it; `didFetch` reports whether the fetch was invoked.
*/
module ApiServices {
  import opened Wrappers
  import opened Stores

  /** Milliseconds since the epoch, as `Date.now()` returns them. */
  type Millis = int

  datatype CacheEntry<D> = CacheEntry(data: D, timestamp: Millis)

  /** 5 minutes, in milliseconds. */
  const CacheTTL: Millis := 5 * 60 * 1000

  class BaseAPIService<D> {
    const store: Store
    const baseURL: string
    const headers: map<string, string>
    const cacheTTL: Millis := CacheTTL
    const apiKey: Option<string>
    var cache: map<string, CacheEntry<D>>

    constructor (store: Store)
      ensures this.store == store
      ensures baseURL == store.apiEndpoint
      ensures headers == GetAPIConfig(store).headers
      ensures apiKey == if store.apiKey == "" then None else Some(store.apiKey)
      ensures cacheTTL == 300000
      ensures cache == map[]
    {
      this.store := store;
      baseURL := store.apiEndpoint;
      headers := GetAPIConfig(store).headers;
      cache := map[];
      apiKey := if store.apiKey != "" then Some(store.apiKey) else None;
    }

    /** A lookup at `now` is served from the cache: an entry exists and is younger than the TTL. */
    predicate IsHit(key: string, now: Millis)
      reads this
    {
      key in cache && now - cache[key].timestamp < cacheTTL
    }

    /**
      A hit returns the stored data. A miss awaits the fetch: its value is stored, stamped
      `fetchedAt`, and returned; a rejected fetch reaches the caller and stores nothing.
    */
    method GetCachedOrFetch<E>(key: string, now: Millis, fetched: Result<D, E>, fetchedAt: Millis)
      returns (r: Result<D, E>, didFetch: bool)
      modifies this
      ensures didFetch <==> !old(IsHit(key, now))
      ensures old(key in cache) && now - old(cache[key].timestamp) == cacheTTL ==> didFetch
      ensures !didFetch ==> r == Success(old(cache[key].data)) && cache == old(cache)
      ensures didFetch ==> r == fetched
      ensures didFetch && fetched.Success? ==> cache == old(cache)[key := CacheEntry(fetched.value, fetchedAt)]
      ensures didFetch && fetched.Failure? ==> cache == old(cache)
      ensures r.Success? ==> key in cache && cache[key].data == r.value
      ensures old(cache).Keys <= cache.Keys
      ensures forall k :: k != key && k in old(cache) ==> cache[k] == old(cache[k])
    {
      if key in cache && now - cache[key].timestamp < cacheTTL {
        return Success(cache[key].data), false;
      }
      r, didFetch := fetched, true;
      if fetched.Success? {
        cache := cache[key := CacheEntry(fetched.value, fetchedAt)];
      }
    }

    method ClearCache()
      modifies this
      ensures cache == map[]
      ensures forall key, now :: !IsHit(key, now)
    {
      cache := map[];
    }
  }

  /**
    Two lookups of a key the cache does not hold, the first fetch succeeding: the first
    fetches; the second is served from the cache, without a fetch, exactly when it comes
    within the TTL of the first fetch's completion.
  */
  method LookupTwice<D, E>(svc: BaseAPIService<D>, key: string,
                           t1: Millis, v1: D, done1: Millis,
                           t2: Millis, v2: Result<D, E>, done2: Millis)
    returns (d1: Result<D, E>, fetched1: bool, d2: Result<D, E>, fetched2: bool)
    requires key !in svc.cache
    modifies svc
    ensures fetched1 && d1 == Success(v1)
    ensures t2 - done1 < CacheTTL ==> !fetched2 && d2 == d1
    ensures t2 - done1 >= CacheTTL ==> fetched2 && d2 == v2
  {
    d1, fetched1 := svc.GetCachedOrFetch(key, t1, Success(v1), done1);
    d2, fetched2 := svc.GetCachedOrFetch(key, t2, v2, done2);
  }

  /** A rejected fetch leaves no entry behind, so the next lookup of that key fetches again. */
  method RetryAfterFailure<D, E>(svc: BaseAPIService<D>, key: string,
                                 t1: Millis, err: E, done1: Millis,
                                 t2: Millis, v2: Result<D, E>, done2: Millis)
    returns (d1: Result<D, E>, d2: Result<D, E>, fetched2: bool)
    requires key !in svc.cache
    modifies svc
    ensures d1 == Failure(err)
    ensures fetched2 && d2 == v2
  {
    var fetched1;
    d1, fetched1 := svc.GetCachedOrFetch(key, t1, Failure(err), done1);
    d2, fetched2 := svc.GetCachedOrFetch(key, t2, v2, done2);
  }
}
