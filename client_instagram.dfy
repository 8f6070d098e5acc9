/**
 * The browser's `ClientInstagramService`: a two-hour `localStorage` cache in
 * front of four transports tried in order (a direct fetch, two CORS proxies
 * and an RSS stub that always throws), each parsing the page with the four
 * extraction strategies; on failure the expired cache or the mock posts.
 *
 * `fetch` is a `Network` value answering each transport, `localStorage` a
 * field of the class, the clock a parameter.
 */
module ClientInstagram {
  import opened Outcomes
  import opened JsText
  import opened JsValue
  import opened InstagramScrape

  /** A `fetch` response: its `ok` flag and the page its text holds. */
  datatype Response = Response(ok: bool, page: Page)

  datatype Transport = Direct | AllOrigins | CorsProxy | Rss

  const Transports: seq<Transport> := [Direct, AllOrigins, CorsProxy, Rss]

  /** What `fetch` answers for each transport's URL (`None` when it rejects), and the random suffixes. */
  datatype Network = Network(respond: Transport -> Option<Response>, randomId: nat -> string)

  /** The browser copies of the extractors neither cut their output nor keep `thumbnail_url`. */
  function ClientExtraction(now: int, net: Network): Extraction {
    Extraction(Whole, false, Username, now, net.randomId)
  }

  /**
   * One transport's outcome: the RSS stub always throws, a rejected fetch
   * throws, the direct fetch throws on a response that is not ok (the proxies
   * do not look), and otherwise the page's first yielding strategy, which
   * throws when none yields.
   */
  function Attempt(t: Transport, now: int, net: Network): (r: Result<seq<Post>>)
    ensures t == Rss ==> r.Err?
    ensures r.Ok? ==> net.respond(t).Some? && (t == Direct ==> net.respond(t).value.ok)
  {
    if t == Rss then Err(Error("RSS method not implemented"))
    else match net.respond(t)
      case None => Err(TypeError)
      case Some(response) =>
        if t == Direct && !response.ok then Err(Error("HTTP error"))
        else FirstYield(response.page, ClientExtraction(now, net), 0)
  }

  const NoTransport: string := "All fetch methods failed"

  /** `fetchFreshPosts(limit)` from the i-th transport on: the first non-empty result, cut to `limit`. */
  function FreshFrom(limit: int, now: int, net: Network, i: nat): (r: Result<seq<Post>>)
    requires i <= |Transports|
    ensures r.Err? ==> r.error == Error(NoTransport)
    decreases |Transports| - i
  {
    if i == |Transports| then Err(Error(NoTransport))
    else
      var r := Attempt(Transports[i], now, net);
      if Yields(r) then Ok(SliceTo(r.value, limit)) else FreshFrom(limit, now, net, i + 1)
  }

  function Fresh(limit: int, now: int, net: Network): Result<seq<Post>> {
    FreshFrom(limit, now, net, 0)
  }

  /** The browser copy's mock posts. */
  function ClientMocks(now: int): seq<Post> { MockPosts(PlainCaption, PlainQuery, now) }

  datatype Outcome = Outcome(posts: seq<Post>, stored: Option<CacheEntry>)

  /**
   * `fetchPosts(limit)`: the fresh cache cut to `limit`; else fresh posts,
   * saved (when `localStorage` accepts them) and returned; else the expired
   * cache or the mock posts, cut to `limit`.
   */
  function Fetched(stored: Option<CacheEntry>, limit: int, now: int, net: Network, writable: bool): Outcome {
    match Cached(stored, now, false)
    case Some(posts) => Outcome(SliceTo(posts, limit), stored)
    case None =>
      match Fresh(limit, now, net)
      case Ok(posts) => Outcome(posts, if writable then Some(CacheEntry(now, posts)) else stored)
      case Err(_) =>
        var fallback := if Cached(stored, now, true).Some? then Cached(stored, now, true).value else ClientMocks(now);
        Outcome(SliceTo(fallback, limit), stored)
  }

  class ClientInstagramService {
    const username: string := Username
    const cacheKey: string := "igsa_instagram_posts"
    const cacheDuration: int := CacheDuration
    /** The entry stored under `cacheKey`; `None` when there is none, it is empty, or it does not parse. */
    var storage: Option<CacheEntry>

    constructor(stored: Option<CacheEntry>)
      ensures storage == stored
    {
      storage := stored;
    }

    /** `getFromCache(ignoreExpiry)`. */
    method GetFromCache(now: int, ignoreExpiry: bool) returns (r: Option<seq<Post>>)
      ensures r == Cached(storage, now, ignoreExpiry)
    {
      if storage.None? {
        return None;
      }
      if !ignoreExpiry && now - storage.value.timestamp > cacheDuration {
        return None;
      }
      return Some(storage.value.posts);
    }

    /** `saveToCache(posts)`; a `setItem` that throws is swallowed. */
    method SaveToCache(posts: seq<Post>, now: int, writable: bool)
      modifies this
      ensures storage == (if writable then Some(CacheEntry(now, posts)) else old(storage))
    {
      if writable {
        storage := Some(CacheEntry(now, posts));
      }
    }

    /** `parseInstagramHTML(html)`: the four strategies in order. */
    method ParseInstagramHtml(page: Page, now: int, net: Network) returns (r: Result<seq<Post>>)
      ensures r == FirstYield(page, ClientExtraction(now, net), 0)
    {
      r := ScrapePage(page, ClientExtraction(now, net));
    }

    /** `fetchDirectly`, `fetchViaProxy`, `fetchViaCorsproxy` and `fetchViaRSS`. */
    method FetchVia(t: Transport, now: int, net: Network) returns (r: Result<seq<Post>>)
      ensures r == Attempt(t, now, net)
    {
      if t == Rss {
        return Err(Error("RSS method not implemented"));
      }
      var response := net.respond(t);
      if response.None? {
        return Err(TypeError);
      }
      if t == Direct && !response.value.ok {
        return Err(Error("HTTP error"));
      }
      r := ParseInstagramHtml(response.value.page, now, net);
    }

    /** `fetchFreshPosts(limit)`: the transport loop with its early return. */
    method FetchFreshPosts(limit: int, now: int, net: Network) returns (r: Result<seq<Post>>)
      ensures r == Fresh(limit, now, net)
    {
      var i := 0;
      while i < |Transports|
        invariant 0 <= i <= |Transports|
        invariant FreshFrom(limit, now, net, 0) == FreshFrom(limit, now, net, i)
      {
        var posts := FetchVia(Transports[i], now, net);
        if Yields(posts) {
          return Ok(SliceTo(posts.value, limit));
        }
        i := i + 1;
      }
      return Err(Error(NoTransport));
    }

    /** `fetchPosts(limit)`. */
    method FetchPosts(limit: int, now: int, net: Network, writable: bool) returns (posts: seq<Post>)
      modifies this
      ensures posts == Fetched(old(storage), limit, now, net, writable).posts
      ensures storage == Fetched(old(storage), limit, now, net, writable).stored
    {
      var cached := GetFromCache(now, false);
      if cached.Some? {
        return SliceTo(cached.value, limit);
      }
      var latest := FetchFreshPosts(limit, now, net);
      if latest.Ok? {
        SaveToCache(latest.value, now, writable);
        return latest.value;
      }
      var expired := GetFromCache(now, true);
      var fallback := if expired.Some? then expired.value else ClientMocks(now);
      return SliceTo(fallback, limit);
    }
  }

  // ---------------------------------------------------------------- properties

  /** Fresh posts fail exactly when no transport yields a post. */
  lemma {:induction false} FreshFails(limit: int, now: int, net: Network, i: nat)
    requires i <= |Transports|
    ensures FreshFrom(limit, now, net, i).Err? <==> forall j :: i <= j < |Transports| ==> !Yields(Attempt(Transports[j], now, net))
    decreases |Transports| - i
  {
    if i < |Transports| {
      FreshFails(limit, now, net, i + 1);
    }
  }

  /** Fresh posts are the first yielding transport's posts cut to `limit`, and the RSS stub never yields. */
  lemma {:induction false} FreshFound(limit: int, now: int, net: Network, i: nat)
    requires i <= |Transports|
    requires FreshFrom(limit, now, net, i).Ok?
    ensures exists j :: i <= j < 3 && Yields(Attempt(Transports[j], now, net))
                        && FreshFrom(limit, now, net, i).value == SliceTo(Attempt(Transports[j], now, net).value, limit)
                        && forall l :: i <= l < j ==> !Yields(Attempt(Transports[l], now, net))
    decreases |Transports| - i
  {
    if !Yields(Attempt(Transports[i], now, net)) {
      FreshFound(limit, now, net, i + 1);
    } else {
      assert Transports[i] != Rss;
    }
  }

  /** Every post the transports bring back is `psu.igsa`'s. */
  lemma FreshBy(limit: int, now: int, net: Network)
    requires Fresh(limit, now, net).Ok?
    ensures AllBy(Fresh(limit, now, net).value, Username)
  {
    FreshFound(limit, now, net, 0);
    var j :| 0 <= j < 3 && Yields(Attempt(Transports[j], now, net))
             && Fresh(limit, now, net).value == SliceTo(Attempt(Transports[j], now, net).value, limit);
    FirstYieldBy(net.respond(Transports[j]).value.page, ClientExtraction(now, net));
  }

  /** If the stored posts are all `psu.igsa`'s, so is everything `fetchPosts` returns. */
  lemma FetchedBy(stored: Option<CacheEntry>, limit: int, now: int, net: Network, writable: bool)
    requires stored.Some? ==> AllBy(stored.value.posts, Username)
    ensures AllBy(Fetched(stored, limit, now, net, writable).posts, Username)
  {
    if Cached(stored, now, false).None? {
      if Fresh(limit, now, net).Ok? {
        FreshBy(limit, now, net);
      } else if stored.None? {
        MockPrefix(PlainCaption, PlainQuery, now, limit);
      }
    }
  }

  /** With a non-negative limit, `fetchPosts` returns at most `limit` posts whatever the source. */
  lemma FetchedBounded(stored: Option<CacheEntry>, limit: int, now: int, net: Network, writable: bool)
    requires limit >= 0
    ensures |Fetched(stored, limit, now, net, writable).posts| <= limit
  {
    if Cached(stored, now, false).None? && Fresh(limit, now, net).Ok? {
      FreshFound(limit, now, net, 0);
    }
  }

  // ---------------------------------------------------------------- the service's three tests

  /** A network on which every fetch rejects. */
  function Offline(randomId: nat -> string): Network {
    Network(t => None, randomId)
  }

  /** Every fetch rejecting and nothing stored: `fetchPosts(3)` gives one to three posts, all `psu.igsa`'s. */
  lemma OfflineGivesMocks(now: int, randomId: nat -> string, writable: bool)
    ensures 1 <= |Fetched(None, 3, now, Offline(randomId), writable).posts| <= 3
    ensures AllBy(Fetched(None, 3, now, Offline(randomId), writable).posts, Username)
  {
    var net := Offline(randomId);
    FreshFails(3, now, net, 0);
    MockPrefix(PlainCaption, PlainQuery, now, 3);
  }

  /** Every fetch answering an empty document and nothing stored: `fetchPosts(2)` gives mock posts. */
  lemma EmptyHtmlGivesMocks(now: int, randomId: nat -> string, writable: bool)
    ensures |Fetched(None, 2, now, Network(t => Some(Response(true, EmptyPage)), randomId), writable).posts| > 0
    ensures StartsWith(Fetched(None, 2, now, Network(t => Some(Response(true, EmptyPage)), randomId), writable).posts[0].id, "mock_")
  {
    var net := Network(t => Some(Response(true, EmptyPage)), randomId);
    EmptyPageFails(ClientExtraction(now, net));
    FreshFails(2, now, net, 0);
    MockPrefix(PlainCaption, PlainQuery, now, 2);
  }

  /** The test's JSON-LD block. */
  const TestPosting: Value := Obj(map[
    "@type" := Str("SocialMediaPosting"),
    "text" := Str("Test Instagram post"),
    "image" := Str("https://example.com/image.jpg"),
    "url" := Str("https://instagram.com/p/test123/"),
    "datePublished" := Str("2023-01-01T00:00:00Z")])

  const TestPage: Page := Page([Some(TestPosting)], [NoMatch, NoMatch, NoMatch, NoMatch], NoMatch, MetaTags("", "", "", "", "", ""))

  /** The JSON-LD mapping: caption from `text`, media from `image`, permalink from `url`. */
  lemma JsonLdMapping(x: Extraction)
    ensures JsonLdPost(TestPosting, x).caption == "Test Instagram post"
    ensures JsonLdPost(TestPosting, x).mediaUrl == "https://example.com/image.jpg"
    ensures JsonLdPost(TestPosting, x).permalink == "https://instagram.com/p/test123/"
  {
    assert Field(TestPosting, "text") == Str("Test Instagram post");
    assert Field(TestPosting, "image") == Str("https://example.com/image.jpg");
    assert Field(TestPosting, "url") == Str("https://instagram.com/p/test123/");
  }

  /** Every fetch answering the test's page and nothing stored: `fetchPosts(1)` gives exactly the mapped post. */
  lemma JsonLdPageParsed(now: int, randomId: nat -> string, writable: bool)
    ensures |Fetched(None, 1, now, Network(t => Some(Response(true, TestPage)), randomId), writable).posts| == 1
    ensures Fetched(None, 1, now, Network(t => Some(Response(true, TestPage)), randomId), writable).posts[0].caption == "Test Instagram post"
    ensures Fetched(None, 1, now, Network(t => Some(Response(true, TestPage)), randomId), writable).posts[0].mediaUrl == "https://example.com/image.jpg"
    ensures Fetched(None, 1, now, Network(t => Some(Response(true, TestPage)), randomId), writable).posts[0].permalink == "https://instagram.com/p/test123/"
  {
    var net := Network(t => Some(Response(true, TestPage)), randomId);
    var x := ClientExtraction(now, net);
    TestPageFresh(net, now);
    assert Fetched(None, 1, now, net, writable).posts == [JsonLdPost(TestPosting, x)];
    JsonLdMapping(x);
  }

  /** The test's page yields, through its JSON-LD, the one mapped post. */
  lemma TestPageJsonLd(x: Extraction)
    ensures FromJsonLd(TestPage.jsonLd, x) == Ok(Cap([JsonLdPost(TestPosting, x)], x.cut))
  {
    assert Field(TestPosting, "@type") == Str(PostingType);
    assert IsPosting(TestPosting);
  }

  /** A network that answers the test's page lets the direct fetch, the first transport, yield that post. */
  lemma TestPageFresh(net: Network, now: int)
    requires forall t :: net.respond(t) == Some(Response(true, TestPage))
    ensures Fresh(1, now, net) == Ok([JsonLdPost(TestPosting, ClientExtraction(now, net))])
  {
    var x := ClientExtraction(now, net);
    var posts := [JsonLdPost(TestPosting, x)];
    AttemptDirect(now, net, TestPage);
    TestPageYields(x);
    FreshFirst(1, now, net);
    assert SliceTo(posts, 1) == posts;
  }

  /** A direct fetch answered with an ok page gives that page's first yielding strategy. */
  lemma AttemptDirect(now: int, net: Network, page: Page)
    requires net.respond(Direct) == Some(Response(true, page))
    ensures Attempt(Direct, now, net) == FirstYield(page, ClientExtraction(now, net), 0)
  {
  }

  /** When the direct fetch, the first transport, yields, its posts are the fresh ones, cut to `limit`. */
  lemma FreshFirst(limit: int, now: int, net: Network)
    requires Yields(Attempt(Direct, now, net))
    ensures Fresh(limit, now, net) == Ok(SliceTo(Attempt(Direct, now, net).value, limit))
  {
    assert Transports[0] == Direct;
  }

  /** Uncut, the first strategy, the JSON-LD one, yields the test's post. */
  lemma TestPageYields(x: Extraction)
    requires x.cut == Whole
    ensures FirstYield(TestPage, x, 0) == Ok([JsonLdPost(TestPosting, x)])
  {
    TestPageJsonLd(x);
    assert Cap([JsonLdPost(TestPosting, x)], Whole) == [JsonLdPost(TestPosting, x)];
  }
}
