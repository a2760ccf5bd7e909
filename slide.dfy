/** slide.go: an older fetch helper that serves a cached response until its
    refresh interval has passed. The clock readings and the network's answer
    are inputs. */
module Slide {
  import opened GoInt
  import opened GoTime
  import opened Wrappers

  class HttpHelper {
    const BaseUrl: string
    const RefreshInternal: Duration
    var LastFetchTime: Instant
    var CachedResponse: seq<uint8>

    /** `NewHttpHelper`: no fetch yet, so the last fetch time is Go's zero
        time. */
    constructor (baseUrl: string, refreshInterval: Duration)
      ensures BaseUrl == baseUrl && RefreshInternal == refreshInterval
      ensures LastFetchTime == ZeroTime && CachedResponse == []
    {
      BaseUrl := baseUrl;
      RefreshInternal := refreshInterval;
      LastFetchTime := ZeroTime;
      CachedResponse := [];
    }

    /** Whether a fetch at `now` is answered from the cache. */
    predicate Cached(now: Instant)
      reads this
    {
      now < LastFetchTime + RefreshInternal
    }

    /** `Fetch` at clock reading `now`; `network` is the GET's outcome and
        `fetchedAt` the clock reading taken after it. */
    method Fetch(now: Instant, network: Result<seq<uint8>>, fetchedAt: Instant) returns (body: seq<uint8>, ok: bool)
      modifies this
      ensures old(Cached(now)) ==> body == old(CachedResponse) && ok && unchanged(this)
      ensures !old(Cached(now)) && network.Err? ==> body == [] && !ok && unchanged(this)
      ensures !old(Cached(now)) && network.Ok? ==>
                body == network.value && ok && LastFetchTime == fetchedAt && CachedResponse == network.value
    {
      if now < LastFetchTime + RefreshInternal {
        return CachedResponse, true;
      }
      if network.Err? {
        return [], false;
      }
      LastFetchTime := fetchedAt;
      CachedResponse := network.value;
      return network.value, true;
    }
  }

  /** A new helper's first fetch goes to the network for any clock reading at
      least one interval past the zero time. */
  method FirstFetchNotCached(baseUrl: string, interval: Duration, now: Instant, network: Result<seq<uint8>>, fetchedAt: Instant)
    returns (body: seq<uint8>, ok: bool)
    requires now >= ZeroTime + interval
    ensures ok <==> network.Ok?
    ensures ok ==> body == network.value
  {
    var h := new HttpHelper(baseUrl, interval);
    body, ok := h.Fetch(now, network, fetchedAt);
  }

  /** Within the interval after a successful fetch, the next fetch returns
      the same body without using the network's answer. */
  method RefetchWithinInterval(h: HttpHelper, now1: Instant, body1: seq<uint8>, fetchedAt: Instant,
                               now2: Instant, network2: Result<seq<uint8>>)
    returns (body: seq<uint8>, ok: bool)
    requires !h.Cached(now1) && now2 < fetchedAt + h.RefreshInternal
    modifies h
    ensures ok && body == body1
  {
    var _, _ := h.Fetch(now1, Ok(body1), fetchedAt);
    body, ok := h.Fetch(now2, network2, fetchedAt);
  }
}
