/**
 * The Netlify function `instagram`: `scrapeInstagramPosts` (the four
 * strategies over the fetched profile page, mock posts on any failure, no
 * cache) and the handler's dispatch on the HTTP method.
 */
module NetlifyInstagram {
  import opened Outcomes
  import opened JsText
  import opened JsValue
  import opened InstagramScrape

  /** The Netlify copies of the extractors cut to `limit` (`None` for `NaN`) and keep `thumbnail_url`. */
  function NetlifyExtraction(limit: Option<int>, now: int, randomId: nat -> string): Extraction {
    Extraction(Upto(limit), true, Username, now, randomId)
  }

  /** The Netlify copy's mock posts. */
  function NetlifyMocks(now: int): seq<Post> { MockPosts(PlainCaption, CropQuery, now) }

  /**
   * `scrapeInstagramPosts(limit)`: the page's first yielding strategy; when
   * the request fails or no strategy yields, the mock posts cut to `limit`.
   */
  function ScrapeInstagramPosts(profile: Option<Page>, limit: Option<int>, now: int, randomId: nat -> string): (posts: seq<Post>)
    ensures AllBy(posts, Username)
  {
    var scraped := if profile.None? then Err(Error("Request failed"))
                   else FirstYield(profile.value, NetlifyExtraction(limit, now, randomId), 0);
    if scraped.Ok? then
      FirstYieldBy(profile.value, NetlifyExtraction(limit, now, randomId));
      scraped.value
    else
      MockPrefix(PlainCaption, CropQuery, now, if limit.Some? then limit.value else 0);
      Cap(NetlifyMocks(now), Upto(limit))
  }

  /** When the request fails or no strategy yields, the answer is the mock posts cut to `limit`. */
  lemma ScrapeFallsBack(profile: Option<Page>, limit: Option<int>, now: int, randomId: nat -> string)
    requires profile.None? ||
      forall j :: 0 <= j < |Strategies| ==> !Yields(Extract(Strategies[j], profile.value, NetlifyExtraction(limit, now, randomId)))
    ensures ScrapeInstagramPosts(profile, limit, now, randomId) == Cap(NetlifyMocks(now), Upto(limit))
  {
    if profile.Some? {
      FirstYieldNone(profile.value, NetlifyExtraction(limit, now, randomId), 0);
    }
  }

  /** When some strategy yields, the answer is the posts of the first one that does. */
  lemma ScrapeFirstYield(profile: Option<Page>, limit: Option<int>, now: int, randomId: nat -> string)
    requires profile.Some?
    requires exists j :: 0 <= j < |Strategies| && Yields(Extract(Strategies[j], profile.value, NetlifyExtraction(limit, now, randomId)))
    ensures var x := NetlifyExtraction(limit, now, randomId);
      exists j :: 0 <= j < |Strategies| && Yields(Extract(Strategies[j], profile.value, x))
        && ScrapeInstagramPosts(profile, limit, now, randomId) == Extract(Strategies[j], profile.value, x).value
        && (forall l :: 0 <= l < j ==> !Yields(Extract(Strategies[l], profile.value, x)))
  {
    var x := NetlifyExtraction(limit, now, randomId);
    FirstYieldFails(profile.value, x, 0);
    FirstYieldFound(profile.value, x, 0);
  }

  /** A response's body, before `JSON.stringify`. */
  datatype Body =
    | Empty                                        // ''
    | Refusal(error: string)                       // {error}
    | Listing(success: bool, data: seq<Post>, count: int)  // {success, data, count}

  /** The CORS headers every response carries. */
  const CorsHeaders: seq<(string, string)> := [
    ("Access-Control-Allow-Origin", "*"),
    ("Access-Control-Allow-Headers", "Content-Type"),
    ("Access-Control-Allow-Methods", "GET, OPTIONS"),
    ("Content-Type", "application/json")]

  datatype Response = Response(statusCode: int, headers: seq<(string, string)>, body: Body)

  /** `parseInt(event.queryStringParameters?.limit || '8')`: a missing or empty parameter reads as 8. */
  function LimitOf(parameter: Option<string>): Option<int> {
    ParseInt(if parameter.Some? && parameter.value != "" then parameter.value else "8")
  }

  /**
   * The handler: `OPTIONS` is answered with an empty 200, any method but
   * `GET` with 405, and `GET` with the scraped posts and their count. Nothing
   * in the `GET` branch throws, so its 500 answer is never produced.
   */
  function Handler(httpMethod: string, limitParameter: Option<string>, profile: Option<Page>, now: int, randomId: nat -> string): (r: Response)
    ensures r.headers == CorsHeaders
    ensures httpMethod == "OPTIONS" <==> r == Response(200, CorsHeaders, Empty)
    ensures httpMethod != "OPTIONS" && httpMethod != "GET" <==> r == Response(405, CorsHeaders, Refusal("Method not allowed"))
    ensures httpMethod == "GET" ==> r.statusCode == 200 && r.body.Listing? && r.body.success
                                    && r.body.count == |r.body.data| && AllBy(r.body.data, Username)
  {
    if httpMethod == "OPTIONS" then Response(200, CorsHeaders, Empty)
    else if httpMethod != "GET" then Response(405, CorsHeaders, Refusal("Method not allowed"))
    else
      var posts := ScrapeInstagramPosts(profile, LimitOf(limitParameter), now, randomId);
      Response(200, CorsHeaders, Listing(true, posts, |posts|))
  }

  /** Without a `limit` parameter the limit is 8. */
  lemma DefaultLimit()
    ensures LimitOf(None) == Some(8)
    ensures LimitOf(Some("")) == Some(8)
  {
    assert IntToString(8) == "8";
    ParseIntOfIntToString(8);
  }

  /** A `GET` without a limit returns at most eight posts, and exactly the eight mock posts when the request fails. */
  lemma GetWithoutLimit(now: int, profile: Option<Page>, randomId: nat -> string)
    ensures |Handler("GET", None, profile, now, randomId).body.data| <= 8
    ensures profile.None? ==> Handler("GET", None, profile, now, randomId).body.data == NetlifyMocks(now)
  {
    DefaultLimit();
    var x := NetlifyExtraction(Some(8), now, randomId);
    if profile.Some? && FirstYield(profile.value, x, 0).Ok? {
      FirstYieldBounded(profile.value, x, 8);
    }
  }

  /** With a `limit` that is not a number, a `GET` returns only the meta post, or no post at all. */
  lemma GetWithNaNLimit(parameter: string, now: int, profile: Option<Page>, randomId: nat -> string)
    requires parameter != "" && ParseInt(parameter).None?
    ensures var r := Handler("GET", Some(parameter), profile, now, randomId);
            r.body.data == [] || (profile.Some? && Ok(r.body.data) == FromMeta(profile.value.meta, NetlifyExtraction(None, now, randomId)))
  {
    var x := NetlifyExtraction(None, now, randomId);
    if profile.Some? && FirstYield(profile.value, x, 0).Ok? {
      NaNLimitMetaOnly(profile.value, x);
    }
  }
}
