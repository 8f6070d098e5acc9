/**
 * The server's `InstagramService`: a two-hour cache file in front of a
 * scrape of the public profile page, which falls back to the legacy JSON
 * endpoint, then to the expired cache, then to the mock posts. `fetchPosts`
 * never fails.
 *
 * The network is a `Network` value (the profile page, the legacy endpoint's
 * JSON, either `None` when the request fails) and the clock a parameter.
 */
module ServerInstagram {
  import opened Outcomes
  import opened JsText
  import opened JsValue
  import opened InstagramScrape

  /** What the two requests a scrape may make would answer. */
  datatype Network = Network(profile: Option<Page>, legacyEndpoint: Option<Value>, randomId: nat -> string)

  /** The server copies of the extractors cut to `limit` and keep `thumbnail_url`. */
  function ServerExtraction(limit: int, now: int, net: Network): Extraction {
    Extraction(Upto(Some(limit)), true, Username, now, net.randomId)
  }

  /** `data?.graphql?.user?.edge_owner_to_timeline_media?.edges` of the endpoint's answer. */
  function EndpointEdges(data: Value): Value {
    Reach(data, OptPath(["graphql", "user"] + TimelineEdges))
  }

  /**
   * `fetchViaLegacyEndpoint`: the edges at `graphql.user.edge_owner_to_timeline_media`
   * mapped like the shared-data strategy's, cut to `limit`; an exception when the
   * request fails or the edges are falsy. An empty edge array is truthy, so it
   * gives an empty list and no exception.
   */
  function LegacyEndpoint(answer: Option<Value>, x: Extraction): (r: Result<seq<Post>>)
    ensures answer.None? ==> r.Err?
    ensures answer.Some? && !Truthy(EndpointEdges(answer.value)) ==> r == Err(Error("Legacy endpoint returned no posts"))
    ensures answer.Some? && Truthy(EndpointEdges(answer.value)) && !EndpointEdges(answer.value).Arr? ==> r == Err(TypeError)
    ensures answer.Some? && EndpointEdges(answer.value).Arr? ==>
      r == MapEdges(Cap(EndpointEdges(answer.value).items, x.cut), 0, LegacyEdges, x)
    ensures answer.Some? && EndpointEdges(answer.value) == Arr([]) ==> r == Ok([])
    ensures r.Ok? ==> AllBy(r.value, x.username)
    ensures r.Ok? && x.cut.Upto? && x.cut.limit.Some? && x.cut.limit.value >= 0 ==> |r.value| <= x.cut.limit.value
  {
    match answer
    case None => Err(Error("Request failed"))
    case Some(data) =>
      var edges := EndpointEdges(data);
      if !Truthy(edges) then Err(Error("Legacy endpoint returned no posts"))
      else if !edges.Arr? then Err(TypeError)
      else
        var r := MapEdges(Cap(edges.items, x.cut), 0, LegacyEdges, x);
        if r.Ok? then MapEdgesBy(Cap(edges.items, x.cut), 0, LegacyEdges, x); r else r
  }

  /** `scrapePublicPosts`: the profile page's first yielding strategy, else the legacy endpoint. */
  function Scraped(limit: int, now: int, net: Network): Result<seq<Post>> {
    var x := ServerExtraction(limit, now, net);
    var fromPage := if net.profile.None? then Err(Error("Request failed")) else FirstYield(net.profile.value, x, 0);
    if fromPage.Ok? then fromPage else LegacyEndpoint(net.legacyEndpoint, x)
  }

  /** What one `fetchPosts` call returns and the cache it leaves. */
  datatype Outcome = Outcome(posts: seq<Post>, stored: Option<CacheEntry>)

  /** The server copy's mock posts. */
  function ServerMocks(now: int): seq<Post> { MockPosts(TaggedCaption, PlainQuery, now) }

  /**
   * `fetchPosts(limit)` from the stored cache: the fresh cache cut to `limit`;
   * else a successful scrape, saved (when the file can be written) and returned
   * uncut; else the expired cache cut to `limit`; else the mock posts cut to `limit`.
   */
  function Fetched(stored: Option<CacheEntry>, limit: int, now: int, net: Network, writable: bool): Outcome {
    match Cached(stored, now, false)
    case Some(posts) => Outcome(SliceTo(posts, limit), stored)
    case None =>
      match Scraped(limit, now, net)
      case Ok(posts) => Outcome(posts, if writable then Some(CacheEntry(now, posts)) else stored)
      case Err(_) =>
        var fallback := if Cached(stored, now, true).Some? then Cached(stored, now, true).value else ServerMocks(now);
        Outcome(SliceTo(fallback, limit), stored)
  }

  class InstagramService {
    const username: string := Username
    const cacheDuration: int := CacheDuration
    /** The cache file's entry; `None` when the file is missing or does not parse. */
    var cacheFile: Option<CacheEntry>

    constructor(stored: Option<CacheEntry>)
      ensures cacheFile == stored
    {
      cacheFile := stored;
    }

    /** `loadFromCache(ignoreExpiry)`. */
    method LoadFromCache(now: int, ignoreExpiry: bool) returns (r: Option<seq<Post>>)
      ensures r == Cached(cacheFile, now, ignoreExpiry)
    {
      match cacheFile
      case None =>
        r := None;
      case Some(entry) =>
        if !ignoreExpiry && now - entry.timestamp > cacheDuration {
          r := None;
        } else {
          r := Some(entry.posts);
        }
    }

    /** `saveToCache(posts)`: overwrites the entry; a failed write is swallowed and leaves it as it was. */
    method SaveToCache(posts: seq<Post>, now: int, writable: bool)
      modifies this
      ensures cacheFile == (if writable then Some(CacheEntry(now, posts)) else old(cacheFile))
    {
      if writable {
        cacheFile := Some(CacheEntry(now, posts));
      }
    }

    /** `fetchViaLegacyEndpoint(limit)`. */
    method FetchViaLegacyEndpoint(limit: int, now: int, net: Network) returns (r: Result<seq<Post>>)
      ensures r == LegacyEndpoint(net.legacyEndpoint, ServerExtraction(limit, now, net))
    {
      r := LegacyEndpoint(net.legacyEndpoint, ServerExtraction(limit, now, net));
    }

    /** `scrapePublicPosts(limit)`: the strategy loop over the fetched page, then the legacy endpoint. */
    method ScrapePublicPosts(limit: int, now: int, net: Network) returns (r: Result<seq<Post>>)
      ensures r == Scraped(limit, now, net)
    {
      if net.profile.Some? {
        r := ScrapePage(net.profile.value, ServerExtraction(limit, now, net));
        if r.Ok? {
          return;
        }
      }
      r := FetchViaLegacyEndpoint(limit, now, net);
    }

    /** `fetchPosts(limit)`: the cache, the scrape, the expired cache, the mock posts, in that order. */
    method FetchPosts(limit: int, now: int, net: Network, writable: bool) returns (posts: seq<Post>)
      modifies this
      ensures posts == Fetched(old(cacheFile), limit, now, net, writable).posts
      ensures cacheFile == Fetched(old(cacheFile), limit, now, net, writable).stored
    {
      var cached := LoadFromCache(now, false);
      if cached.Some? {
        return SliceTo(cached.value, limit);
      }
      var scraped := ScrapePublicPosts(limit, now, net);
      if scraped.Ok? {
        SaveToCache(scraped.value, now, writable);
        return scraped.value;
      }
      var expired := LoadFromCache(now, true);
      if expired.Some? {
        return SliceTo(expired.value, limit);
      }
      return SliceTo(ServerMocks(now), limit);
    }
  }

  // ---------------------------------------------------------------- properties of fetchPosts

  /** A fresh cache is served cut to `limit`, the cache is kept, and the network is never consulted. */
  lemma FreshCacheServed(stored: Option<CacheEntry>, limit: int, now: int, net: Network, other: Network, writable: bool)
    requires stored.Some? && now - stored.value.timestamp <= CacheDuration
    ensures Fetched(stored, limit, now, net, writable).posts == SliceTo(stored.value.posts, limit)
    ensures Fetched(stored, limit, now, net, writable).stored == stored
    ensures Fetched(stored, limit, now, net, writable) == Fetched(stored, limit, now, other, writable)
  {
  }

  /** Without a fresh cache, a successful scrape is returned uncut and becomes the new entry. */
  lemma ScrapeSaved(stored: Option<CacheEntry>, limit: int, now: int, net: Network)
    requires Cached(stored, now, false).None?
    requires Scraped(limit, now, net).Ok?
    ensures Fetched(stored, limit, now, net, true).posts == Scraped(limit, now, net).value
    ensures Fetched(stored, limit, now, net, true).stored == Some(CacheEntry(now, Scraped(limit, now, net).value))
  {
  }

  /** When the scrape fails: the expired entry cut to `limit` if there is one, else the mock posts cut to `limit`. */
  lemma FailedScrapeFallsBack(stored: Option<CacheEntry>, limit: int, now: int, net: Network, writable: bool)
    requires Cached(stored, now, false).None?
    requires Scraped(limit, now, net).Err?
    ensures stored.Some? ==> Fetched(stored, limit, now, net, writable).posts == SliceTo(stored.value.posts, limit)
    ensures stored.None? ==> Fetched(stored, limit, now, net, writable).posts == SliceTo(ServerMocks(now), limit)
    ensures Fetched(stored, limit, now, net, writable).stored == stored
  {
  }

  /** A scrape fails only when the page yields nothing and the legacy endpoint throws as well. */
  lemma ScrapedFails(limit: int, now: int, net: Network)
    ensures Scraped(limit, now, net).Err? <==>
      (net.profile.None? || forall j :: 0 <= j < |Strategies| ==> !Yields(Extract(Strategies[j], net.profile.value, ServerExtraction(limit, now, net))))
      && LegacyEndpoint(net.legacyEndpoint, ServerExtraction(limit, now, net)).Err?
  {
    if net.profile.Some? {
      FirstYieldFails(net.profile.value, ServerExtraction(limit, now, net), 0);
    }
  }

  /** Every post a scrape returns is `psu.igsa`'s. */
  lemma ScrapedBy(limit: int, now: int, net: Network)
    requires Scraped(limit, now, net).Ok?
    ensures AllBy(Scraped(limit, now, net).value, Username)
  {
    var x := ServerExtraction(limit, now, net);
    if net.profile.Some? && FirstYield(net.profile.value, x, 0).Ok? {
      FirstYieldBy(net.profile.value, x);
    }
  }

  /** A scrape with limit n >= 0 returns at most n posts, except that the meta strategy returns one. */
  lemma ScrapedBounded(limit: int, now: int, net: Network)
    requires limit >= 0
    requires Scraped(limit, now, net).Ok?
    ensures |Scraped(limit, now, net).value| <= (if limit < 1 then 1 else limit)
  {
    var x := ServerExtraction(limit, now, net);
    if net.profile.Some? && FirstYield(net.profile.value, x, 0).Ok? {
      FirstYieldBounded(net.profile.value, x, limit);
    }
  }

  /** If the stored posts are all `psu.igsa`'s, so is everything `fetchPosts` returns. */
  lemma FetchedBy(stored: Option<CacheEntry>, limit: int, now: int, net: Network, writable: bool)
    requires stored.Some? ==> AllBy(stored.value.posts, Username)
    ensures AllBy(Fetched(stored, limit, now, net, writable).posts, Username)
  {
    if Cached(stored, now, false).None? {
      if Scraped(limit, now, net).Ok? {
        ScrapedBy(limit, now, net);
      } else if stored.None? {
        MockPrefix(TaggedCaption, PlainQuery, now, limit);
      }
    }
  }
}
