/**
 * The Instagram post extraction shared by the server service, the browser
 * service and the Netlify function: four strategies over a fetched profile
 * page (JSON-LD blocks, embedded React data, the legacy `window._sharedData`
 * object and the page's meta tags), tried in order until one yields posts,
 * and the fixed list of eight mock posts each variant falls back to.
 *
 * The HTML itself is not modelled: a `Page` records what the source's regular
 * expressions would capture from it and what `JSON.parse` makes of each
 * capture. The three copies of the extractors differ only in whether they cut
 * their output to `limit` and whether they copy `thumbnail_url`; an
 * `Extraction` carries those two choices.
 */
module InstagramScrape {
  import opened Outcomes
  import opened JsText
  import opened JsValue

  // ---------------------------------------------------------------- posts

  datatype MediaType = Image | Video | CarouselAlbum

  /**
   * A post's `timestamp`: text copied from the page (`datePublished`), or the
   * instant that `new Date(ms).toISOString()` renders.
   */
  datatype Stamp = Verbatim(text: string) | Instant(ms: int)

  /** An `InstagramPost`; `thumbnailUrl` is `None` where the property is absent or `undefined`. */
  datatype Post = Post(
    id: string,
    caption: string,
    mediaUrl: string,
    mediaType: MediaType,
    permalink: string,
    timestamp: Stamp,
    username: string,
    thumbnailUrl: Option<string>)

  const Username: string := "psu.igsa"
  const Placeholder: string := "https://via.placeholder.com/400"
  const PostingType: string := "SocialMediaPosting"

  function ProfileUrl(username: string): string { "https://instagram.com/" + username }

  predicate AllBy(posts: seq<Post>, username: string) {
    forall i :: 0 <= i < |posts| ==> posts[i].username == username
  }

  // ---------------------------------------------------------------- the page

  /** What one regular expression finds in the page: nothing, text `JSON.parse` rejects, or a value. */
  datatype Capture = NoMatch | Unparsable | Parsed(data: Value)

  /** The `og:`/`twitter:` meta contents; `""` where the tag is missing (a match is never empty). */
  datatype MetaTags = MetaTags(
    ogTitle: string, twitterTitle: string,
    ogDescription: string, twitterDescription: string,
    ogImage: string, twitterImage: string)

  /**
   * A fetched profile page as the extractors see it:
   * `jsonLd` holds every `<script type="application/ld+json">` block in page
   * order, each parsed or `None` when it does not parse; `react` holds the
   * captures of the four React-data patterns in their fixed order; `shared`
   * is the capture of `window._sharedData = {...};`.
   */
  datatype Page = Page(jsonLd: seq<Option<Value>>, react: seq<Capture>, shared: Capture, meta: MetaTags)

  /** `slice(0, limit)` where a copy applies one; `Upto(None)` is a `limit` of `NaN`, which slices to nothing. */
  datatype Cut = Whole | Upto(limit: Option<int>)

  function Cap<T>(xs: seq<T>, cut: Cut): (r: seq<T>)
    ensures |r| <= |xs| && r == xs[..|r|]
    ensures cut.Whole? ==> r == xs
    ensures cut == Upto(None) ==> r == []
    ensures cut.Upto? && cut.limit.Some? && cut.limit.value >= 0 ==> |r| <= cut.limit.value
  {
    match cut
    case Whole => xs
    case Upto(None) => []
    case Upto(Some(n)) => SliceTo(xs, n)
  }

  /**
   * The choices one copy of the extractors makes: the cut it applies, whether
   * posts carry `thumbnail_url`, the account name, the clock, and the random
   * suffix `Math.random()` gives the k-th React post without an id.
   */
  datatype Extraction = Extraction(
    cut: Cut,
    thumbnails: bool,
    username: string,
    now: int,
    randomId: nat -> string)

  // ---------------------------------------------------------------- one edge

  /** Which copy of the edge mapping: the legacy one (plain reads, no defaults) or the React one. */
  datatype EdgeStyle = LegacyEdges | ReactEdges

  function Field(node: Value, name: string): Value
    requires !Nullish(node)
  {
    Get(node, Name(name))
  }

  /** `is_video` makes a video, else `edge_sidecar_to_children` a carousel, else an image. */
  function MediaTypeOf(node: Value): (t: MediaType)
    requires !Nullish(node)
    ensures t == Video <==> Truthy(Field(node, "is_video"))
    ensures t == CarouselAlbum <==> !Truthy(Field(node, "is_video")) && Truthy(Field(node, "edge_sidecar_to_children"))
    ensures t == Image <==> !Truthy(Field(node, "is_video")) && !Truthy(Field(node, "edge_sidecar_to_children"))
  {
    if Truthy(Field(node, "is_video")) then Video
    else if Truthy(Field(node, "edge_sidecar_to_children")) then CarouselAlbum
    else Image
  }

  /**
   * The caption chain: `node.edge_media_to_caption?.edges[0]?.node?.text` in
   * the legacy copy, which throws when a caption object has no `edges`, and
   * the fully optional `...?.edges?.[0]?...` in the React copy.
   */
  function CaptionSteps(style: EdgeStyle): seq<Step> {
    [Step(Name("edge_media_to_caption"), false),
     Step(Name("edges"), true),
     Step(At(0), style == ReactEdges),
     Step(Name("node"), true),
     Step(Name("text"), true)]
  }

  function CaptionOf(node: Value, style: EdgeStyle): (r: Result<string>)
    requires !Nullish(node)
    ensures style == ReactEdges ==> r.Ok?
  {
    if style == ReactEdges then
      OptionalChainTotal(Field(node, "edge_media_to_caption"), CaptionSteps(style)[1..]);
      assert Chain(node, CaptionSteps(style)) == Chain(Field(node, "edge_media_to_caption"), CaptionSteps(style)[1..]);
      Ok(TextOf(Or(Chain(node, CaptionSteps(style)).value, Str(""))))
    else
      match Chain(node, CaptionSteps(style))
      case Err(e) => Err(e)
      case Ok(v) => Ok(TextOf(Or(v, Str(""))))
  }

  /** `new Date(x * 1000).toISOString()`: a `RangeError` for NaN and for instants out of range. */
  function SecondsStamp(x: Value): (r: Result<Stamp>)
    ensures r.Ok? <==> EpochMsOfSeconds(x).Some? && ValidTime(EpochMsOfSeconds(x).value)
    ensures r.Ok? ==> r.value == Instant(EpochMsOfSeconds(x).value)
    ensures r.Err? ==> r.error == RangeError
  {
    match EpochMsOfSeconds(x)
    case None => Err(RangeError)
    case Some(ms) => if ValidTime(ms) then Ok(Instant(ms)) else Err(RangeError)
  }

  /** The legacy copy converts `taken_at_timestamp` as it is; the React copy uses the clock when it is falsy. */
  function StampOf(node: Value, style: EdgeStyle, now: int): Result<Stamp>
    requires !Nullish(node)
  {
    var t := Field(node, "taken_at_timestamp");
    if style == ReactEdges && !Truthy(t) then Ok(Instant(now)) else SecondsStamp(t)
  }

  function IdOf(node: Value, k: nat, style: EdgeStyle, x: Extraction): string
    requires !Nullish(node)
  {
    var id := Field(node, "id");
    if style == ReactEdges && !Truthy(id) then "react_" + x.randomId(k) else TextOf(id)
  }

  function MediaUrlOf(node: Value, style: EdgeStyle): string
    requires !Nullish(node)
  {
    if style == ReactEdges then TextOf(Or(Or(Field(node, "display_url"), Field(node, "thumbnail_src")), Str(Placeholder)))
    else TextOf(Field(node, "display_url"))
  }

  function ThumbnailOf(node: Value, x: Extraction): Option<string>
    requires !Nullish(node)
  {
    if x.thumbnails && !Field(node, "thumbnail_src").Undefined? then Some(TextOf(Field(node, "thumbnail_src"))) else None
  }

  /**
   * The post built from the k-th edge, `edge.node` read plainly: a `TypeError`
   * when the edge or its node is `null`/`undefined`, else the caption's or the
   * timestamp's exception, else the post.
   */
  function EdgePost(edge: Value, k: nat, style: EdgeStyle, x: Extraction): (r: Result<Post>)
    ensures Nullish(edge) ==> r == Err(TypeError)
    ensures r.Ok? ==> r.value.username == x.username
    ensures r.Ok? ==> !Nullish(edge) && !Nullish(Get(edge, Name("node")))
                      && r.value.mediaType == MediaTypeOf(Get(edge, Name("node")))
    ensures r.Ok? ==> r.value.thumbnailUrl.Some? ==> x.thumbnails
  {
    if Nullish(edge) then Err(TypeError)
    else
      var node := Get(edge, Name("node"));
      if Nullish(node) then Err(TypeError)
      else
        match CaptionOf(node, style)
        case Err(e) => Err(e)
        case Ok(caption) =>
          match StampOf(node, style, x.now)
          case Err(e) => Err(e)
          case Ok(stamp) =>
            Ok(Post(IdOf(node, k, style, x), caption, MediaUrlOf(node, style), MediaTypeOf(node),
                    "https://www.instagram.com/p/" + TextOf(Field(node, "shortcode")) + "/",
                    stamp, x.username, ThumbnailOf(node, x)))
  }

  /** `edges.map(...)` from the k-th edge on: every edge's post in order, or the first exception. */
  function MapEdges(edges: seq<Value>, k: nat, style: EdgeStyle, x: Extraction): (r: Result<seq<Post>>)
    ensures r.Ok? <==> forall i :: 0 <= i < |edges| ==> EdgePost(edges[i], k + i, style, x).Ok?
    ensures r.Ok? ==> |r.value| == |edges|
    ensures r.Ok? ==> forall i :: 0 <= i < |edges| ==> r.value[i] == EdgePost(edges[i], k + i, style, x).value
  {
    var post := (edge: Value, j: nat) => EdgePost(edge, j, style, x);
    assert forall i :: 0 <= i < |edges| ==> post(edges[i], k + i) == EdgePost(edges[i], k + i, style, x);
    MapThrowing(edges, k, post)
  }

  lemma {:induction false} MapEdgesBy(edges: seq<Value>, k: nat, style: EdgeStyle, x: Extraction)
    requires MapEdges(edges, k, style, x).Ok?
    ensures AllBy(MapEdges(edges, k, style, x).value, x.username)
  {
    var ps := MapEdges(edges, k, style, x).value;
    forall i | 0 <= i < |ps|
      ensures ps[i].username == x.username
    {
      assert ps[i] == EdgePost(edges[i], k + i, style, x).value;
    }
  }

  // ---------------------------------------------------------------- strategy 1: JSON-LD

  /** `data['@type'] === 'SocialMediaPosting' || data.mainEntity?.['@type'] === 'SocialMediaPosting'`. */
  predicate IsPosting(data: Value)
    requires !Nullish(data)
  {
    Field(data, "@type") == Str(PostingType)
    || (!Nullish(Field(data, "mainEntity")) && Field(Field(data, "mainEntity"), "@type") == Str(PostingType))
  }

  /** An array never passes `IsPosting`, so `Array.isArray(data) ? data : [data]` is always `[data]`. */
  lemma ArrayIsNeverPosting(items: seq<Value>)
    ensures !IsPosting(Arr(items))
  {
    assert Field(Arr(items), "@type") == Undefined;
  }

  function JsonLdPost(data: Value, x: Extraction): (p: Post)
    requires !Nullish(data)
  {
    var dated := Field(data, "datePublished");
    Post("jsonld_0",
         TextOf(Or(Or(Field(data, "text"), Field(data, "description")), Str(""))),
         TextOf(Or(Or(Field(data, "image"), Field(data, "url")), Str(Placeholder))),
         Image,
         TextOf(Or(Field(data, "url"), Str(ProfileUrl(x.username)))),
         if Truthy(dated) then Verbatim(TextOf(dated)) else Instant(x.now),
         x.username,
         None)
  }

  /** The blocks from the i-th on: the first that parses to a posting gives its one post, cut. */
  function JsonLdFrom(blocks: seq<Option<Value>>, i: nat, x: Extraction): (r: Result<seq<Post>>)
    requires i <= |blocks|
    ensures r.Ok? ==> |r.value| <= 1
    ensures r.Ok? ==> exists j :: i <= j < |blocks| && blocks[j].Some? && !Nullish(blocks[j].value)
                              && IsPosting(blocks[j].value) && r.value == Cap([JsonLdPost(blocks[j].value, x)], x.cut)
    decreases |blocks| - i
  {
    if i == |blocks| then Err(Error("No valid JSON-LD social media data found"))
    else match blocks[i]
      // a block `JSON.parse` rejects, and `null['@type']`, throw inside the loop's try: next block
      case None => JsonLdFrom(blocks, i + 1, x)
      case Some(data) =>
        if Nullish(data) || !IsPosting(data) then JsonLdFrom(blocks, i + 1, x)
        else Ok(Cap([JsonLdPost(data, x)], x.cut))
  }

  function FromJsonLd(blocks: seq<Option<Value>>, x: Extraction): Result<seq<Post>> {
    if blocks == [] then Err(Error("No JSON-LD data found")) else JsonLdFrom(blocks, 0, x)
  }

  // ---------------------------------------------------------------- strategy 2: React data

  const TimelineEdges: seq<string> := ["edge_owner_to_timeline_media", "edges"]

  /** The four places the React strategy looks for the timeline's edges, in order. */
  function ReactPaths(): (paths: seq<seq<Step>>)
    ensures |paths| == 4 && forall i :: 0 <= i < 4 ==> AllOptional(paths[i])
  {
    var profile := OptPath(["entry_data", "ProfilePage"]) + [Step(At(0), true)] + OptPath(["graphql", "user"]);
    assert AllOptional(profile) by {
      forall i | 0 <= i < |profile| ensures profile[i].optional {
        if i < 2 {} else if i == 2 {} else { assert profile[i] == OptPath(["graphql", "user"])[i - 3]; }
      }
    }
    [OptPath(["user"] + TimelineEdges),
     profile + OptPath(TimelineEdges),
     OptPath(["graphql", "user"] + TimelineEdges),
     OptPath(["props", "user"] + TimelineEdges)]
  }

  /** Evaluating a chain of `?.` steps, which never throws. */
  function Reach(v: Value, steps: seq<Step>): Value
    requires AllOptional(steps)
  {
    OptionalChainTotal(v, steps);
    Chain(v, steps).value
  }

  /** From the j-th path on, the first that reaches a non-empty array. */
  function EdgesFrom(data: Value, j: nat): (r: Option<seq<Value>>)
    requires j <= 4
    ensures r.Some? ==> |r.value| > 0
    decreases 4 - j
  {
    if j == 4 then None
    else
      var v := Reach(data, ReactPaths()[j]);
      if v.Arr? && |v.items| > 0 then Some(v.items) else EdgesFrom(data, j + 1)
  }

  /**
   * The patterns from the i-th on: a pattern that matches, parses and reaches
   * a non-empty edge array returns the mapped edges, cut; a mapping that
   * throws moves on to the next pattern.
   */
  function ReactFrom(captures: seq<Capture>, i: nat, x: Extraction): (r: Result<seq<Post>>)
    requires i <= |captures|
    ensures r.Ok? ==> exists j, edges :: i <= j < |captures| && captures[j].Parsed?
                        && EdgesFrom(captures[j].data, 0) == Some(edges)
                        && r == MapEdges(Cap(edges, x.cut), 0, ReactEdges, x)
    decreases |captures| - i
  {
    if i == |captures| then Err(Error("No valid React application data found"))
    else match captures[i]
      case NoMatch => ReactFrom(captures, i + 1, x)
      case Unparsable => ReactFrom(captures, i + 1, x)
      case Parsed(data) =>
        match EdgesFrom(data, 0)
        case None => ReactFrom(captures, i + 1, x)
        case Some(edges) =>
          var r := MapEdges(Cap(edges, x.cut), 0, ReactEdges, x);
          if r.Ok? then r else ReactFrom(captures, i + 1, x)
  }

  function FromReact(captures: seq<Capture>, x: Extraction): Result<seq<Post>> {
    ReactFrom(captures, 0, x)
  }

  // ---------------------------------------------------------------- strategy 3: legacy shared data

  /** `sharedData?.entry_data?.ProfilePage?.[0]?.graphql?.user?.edge_owner_to_timeline_media?.edges`. */
  function SharedEdges(data: Value): Value {
    Reach(data, ReactPaths()[1])
  }

  /**
   * No match throws, text that does not parse throws, falsy edges throw;
   * edges that are truthy but not an array throw at `slice`/`map`.
   */
  function FromShared(c: Capture, x: Extraction): (r: Result<seq<Post>>)
    ensures c.NoMatch? || c.Unparsable? ==> r.Err?
    ensures r.Ok? ==> SharedEdges(c.data).Arr?
                      && r == MapEdges(Cap(SharedEdges(c.data).items, x.cut), 0, LegacyEdges, x)
  {
    match c
    case NoMatch => Err(Error("No legacy shared data found"))
    case Unparsable => Err(SyntaxError)
    case Parsed(data) =>
      var edges := SharedEdges(data);
      if !Truthy(edges) then Err(Error("No posts found in legacy shared data"))
      else if !edges.Arr? then Err(TypeError)
      else MapEdges(Cap(edges.items, x.cut), 0, LegacyEdges, x)
  }

  // ---------------------------------------------------------------- strategy 4: meta tags

  /** `a || b` on two meta contents. */
  function Either(a: string, b: string): (r: string)
    ensures r == "" <==> a == "" && b == ""
  {
    if a != "" then a else b
  }

  function Title(m: MetaTags): string { Either(m.ogTitle, m.twitterTitle) }
  function Description(m: MetaTags): string { Either(m.ogDescription, m.twitterDescription) }
  function Picture(m: MetaTags): string { Either(m.ogImage, m.twitterImage) }

  /** One post made from the profile's meta tags, whatever the limit; an exception when all three are empty. */
  function FromMeta(m: MetaTags, x: Extraction): (r: Result<seq<Post>>)
    ensures r.Err? <==> Title(m) == "" && Description(m) == "" && Picture(m) == ""
    ensures r.Ok? ==> |r.value| == 1
    ensures r.Ok? ==>
      && r.value[0].caption == (if Description(m) != "" then Description(m) else "Latest from @" + x.username)
      && r.value[0].mediaUrl == (if Picture(m) != "" then Picture(m) else Placeholder)
      && r.value[0].permalink == ProfileUrl(x.username)
      && r.value[0].username == x.username
  {
    if Title(m) == "" && Description(m) == "" && Picture(m) == "" then Err(Error("No useful meta tag data found"))
    else
      Ok([Post("meta_" + IntToString(x.now),
               Either(Description(m), "Latest from @" + x.username),
               Either(Picture(m), Placeholder),
               Image,
               ProfileUrl(x.username),
               Instant(x.now),
               x.username,
               None)])
  }

  // ---------------------------------------------------------------- the strategies in order

  datatype Strategy = ByJsonLd | ByReactData | BySharedData | ByMetaTags

  const Strategies: seq<Strategy> := [ByJsonLd, ByReactData, BySharedData, ByMetaTags]

  function Extract(s: Strategy, page: Page, x: Extraction): Result<seq<Post>> {
    match s
    case ByJsonLd => FromJsonLd(page.jsonLd, x)
    case ByReactData => FromReact(page.react, x)
    case BySharedData => FromShared(page.shared, x)
    case ByMetaTags => FromMeta(page.meta, x)
  }

  /** A strategy's outcome the caller accepts: it returned, and returned at least one post. */
  predicate Yields(r: Result<seq<Post>>) { r.Ok? && |r.value| > 0 }

  const NoStrategy: string := "All extraction strategies failed"

  /** The strategies from the i-th on: the first that yields wins; empty or throwing ones are skipped. */
  function FirstYield(page: Page, x: Extraction, i: nat): (r: Result<seq<Post>>)
    requires i <= |Strategies|
    ensures r.Ok? ==> |r.value| > 0
    ensures r.Err? ==> r.error == Error(NoStrategy)
    decreases |Strategies| - i
  {
    if i == |Strategies| then Err(Error(NoStrategy))
    else
      var r := Extract(Strategies[i], page, x);
      if Yields(r) then r else FirstYield(page, x, i + 1)
  }

  /** The strategy loop, with its early return. */
  method ScrapePage(page: Page, x: Extraction) returns (r: Result<seq<Post>>)
    ensures r == FirstYield(page, x, 0)
  {
    var i := 0;
    while i < |Strategies|
      invariant 0 <= i <= |Strategies|
      invariant FirstYield(page, x, 0) == FirstYield(page, x, i)
    {
      var posts := Extract(Strategies[i], page, x);
      if Yields(posts) {
        return posts;
      }
      i := i + 1;
    }
    return Err(Error(NoStrategy));
  }

  lemma FirstYieldFails(page: Page, x: Extraction, i: nat)
    requires i <= |Strategies|
    ensures FirstYield(page, x, i).Err? <==> forall j :: i <= j < |Strategies| ==> !Yields(Extract(Strategies[j], page, x))
  {
    if forall j :: i <= j < |Strategies| ==> !Yields(Extract(Strategies[j], page, x)) {
      FirstYieldNone(page, x, i);
    }
    if FirstYield(page, x, i).Err? {
      FirstYieldErr(page, x, i);
    }
  }

  lemma {:induction false} FirstYieldNone(page: Page, x: Extraction, i: nat)
    requires i <= |Strategies|
    requires forall j :: i <= j < |Strategies| ==> !Yields(Extract(Strategies[j], page, x))
    ensures FirstYield(page, x, i).Err?
    decreases |Strategies| - i
  {
    if i < |Strategies| {
      assert !Yields(Extract(Strategies[i], page, x));
      FirstYieldNone(page, x, i + 1);
    }
  }

  lemma {:induction false} FirstYieldErr(page: Page, x: Extraction, i: nat)
    requires i <= |Strategies| && FirstYield(page, x, i).Err?
    ensures forall j :: i <= j < |Strategies| ==> !Yields(Extract(Strategies[j], page, x))
    decreases |Strategies| - i
  {
    if i < |Strategies| {
      assert !Yields(Extract(Strategies[i], page, x));
      FirstYieldErr(page, x, i + 1);
      forall j | i < j < |Strategies| ensures !Yields(Extract(Strategies[j], page, x)) {
        assert i + 1 <= j;
      }
    }
  }


  lemma {:induction false} FirstYieldFound(page: Page, x: Extraction, i: nat)
    requires i <= |Strategies|
    requires FirstYield(page, x, i).Ok?
    ensures exists j :: i <= j < |Strategies| && FirstYield(page, x, i) == Extract(Strategies[j], page, x)
                        && forall l :: i <= l < j ==> !Yields(Extract(Strategies[l], page, x))
    decreases |Strategies| - i
  {
    if Yields(Extract(Strategies[i], page, x)) {
      assert FirstYield(page, x, i) == Extract(Strategies[i], page, x);
    } else {
      FirstYieldFound(page, x, i + 1);
      var j :| i + 1 <= j < |Strategies| && FirstYield(page, x, i + 1) == Extract(Strategies[j], page, x)
               && forall l :: i + 1 <= l < j ==> !Yields(Extract(Strategies[l], page, x));
      assert FirstYield(page, x, i) == FirstYield(page, x, i + 1);
      assert forall l :: i <= l < j ==> !Yields(Extract(Strategies[l], page, x));
    }
  }

  // ---------------------------------------------------------------- what every strategy promises

  /** Every post any strategy returns carries the extraction's account name. */
  lemma ExtractBy(s: Strategy, page: Page, x: Extraction)
    requires Extract(s, page, x).Ok?
    ensures AllBy(Extract(s, page, x).value, x.username)
  {
    match s
    case ByJsonLd =>
    case ByReactData =>
      var j, edges :| 0 <= j < |page.react| && page.react[j].Parsed?
                      && EdgesFrom(page.react[j].data, 0) == Some(edges)
                      && Extract(s, page, x) == MapEdges(Cap(edges, x.cut), 0, ReactEdges, x);
      MapEdgesBy(Cap(edges, x.cut), 0, ReactEdges, x);
    case BySharedData =>
      MapEdgesBy(Cap(SharedEdges(page.shared.data).items, x.cut), 0, LegacyEdges, x);
    case ByMetaTags =>
  }

  lemma {:induction false} FirstYieldBy(page: Page, x: Extraction)
    requires FirstYield(page, x, 0).Ok?
    ensures AllBy(FirstYield(page, x, 0).value, x.username)
  {
    FirstYieldFound(page, x, 0);
    var j :| 0 <= j < |Strategies| && FirstYield(page, x, 0) == Extract(Strategies[j], page, x);
    ExtractBy(Strategies[j], page, x);
  }

  /** With a limit n >= 0, the JSON-LD and edge strategies return at most n posts; the meta strategy exactly one. */
  lemma ExtractBounded(s: Strategy, page: Page, x: Extraction, n: int)
    requires x.cut == Upto(Some(n)) && n >= 0
    requires Extract(s, page, x).Ok?
    ensures s != ByMetaTags ==> |Extract(s, page, x).value| <= n
    ensures s == ByMetaTags ==> |Extract(s, page, x).value| == 1
  {
    match s
    case ByJsonLd =>
      var j :| 0 <= j < |page.jsonLd| && page.jsonLd[j].Some? && !Nullish(page.jsonLd[j].value)
               && IsPosting(page.jsonLd[j].value)
               && Extract(s, page, x).value == Cap([JsonLdPost(page.jsonLd[j].value, x)], x.cut);
    case ByReactData =>
      var j, edges :| 0 <= j < |page.react| && page.react[j].Parsed?
                      && EdgesFrom(page.react[j].data, 0) == Some(edges)
                      && Extract(s, page, x) == MapEdges(Cap(edges, x.cut), 0, ReactEdges, x);
    case BySharedData =>
    case ByMetaTags =>
  }

  /** The scraped result of a copy with limit n >= 0 holds at most n posts, or the one meta post. */
  lemma {:induction false} FirstYieldBounded(page: Page, x: Extraction, n: int)
    requires x.cut == Upto(Some(n)) && n >= 0
    requires FirstYield(page, x, 0).Ok?
    ensures |FirstYield(page, x, 0).value| <= (if n < 1 then 1 else n)
  {
    FirstYieldFound(page, x, 0);
    var j :| 0 <= j < |Strategies| && FirstYield(page, x, 0) == Extract(Strategies[j], page, x);
    ExtractBounded(Strategies[j], page, x, n);
  }

  /** With a `NaN` limit the JSON-LD and edge strategies cut their lists to nothing. */
  lemma NaNLimitEmpty(s: Strategy, page: Page, x: Extraction)
    requires x.cut == Upto(None) && s != ByMetaTags
    requires Extract(s, page, x).Ok?
    ensures Extract(s, page, x).value == []
  {
    match s
    case ByJsonLd =>
      var j :| 0 <= j < |page.jsonLd| && page.jsonLd[j].Some? && !Nullish(page.jsonLd[j].value)
               && IsPosting(page.jsonLd[j].value)
               && Extract(s, page, x).value == Cap([JsonLdPost(page.jsonLd[j].value, x)], x.cut);
    case ByReactData =>
      var j, edges :| 0 <= j < |page.react| && page.react[j].Parsed?
                      && EdgesFrom(page.react[j].data, 0) == Some(edges)
                      && Extract(s, page, x) == MapEdges(Cap(edges, x.cut), 0, ReactEdges, x);
    case BySharedData =>
  }

  /** So with a `NaN` limit only the meta strategy can yield. */
  lemma NaNLimitMetaOnly(page: Page, x: Extraction)
    requires x.cut == Upto(None)
    requires FirstYield(page, x, 0).Ok?
    ensures FirstYield(page, x, 0) == FromMeta(page.meta, x)
  {
    forall s | s != ByMetaTags && Extract(s, page, x).Ok?
      ensures Extract(s, page, x).value == []
    {
      NaNLimitEmpty(s, page, x);
    }
    assert !Yields(Extract(Strategies[0], page, x));
    assert !Yields(Extract(Strategies[1], page, x));
    assert !Yields(Extract(Strategies[2], page, x));
    assert FirstYield(page, x, 0) == FirstYield(page, x, 3);
  }

  /** The page of an empty profile document: no scripts, no shared data, no meta tags. */
  const EmptyPage: Page := Page([], [NoMatch, NoMatch, NoMatch, NoMatch], NoMatch, MetaTags("", "", "", "", "", ""))

  /** On the empty page every strategy throws. */
  lemma EmptyPageFails(x: Extraction)
    ensures forall s :: Extract(s, EmptyPage, x).Err?
    ensures FirstYield(EmptyPage, x, 0).Err?
  {
    forall s ensures Extract(s, EmptyPage, x).Err? {
      EmptyPageThrows(s, x);
    }
    forall j | 0 <= j < |Strategies| ensures !Yields(Extract(Strategies[j], EmptyPage, x)) {
      EmptyPageThrows(Strategies[j], x);
    }
    FirstYieldNone(EmptyPage, x, 0);
  }

  lemma EmptyPageThrows(s: Strategy, x: Extraction)
    ensures Extract(s, EmptyPage, x).Err?
  {
    if s == ByReactData {
      ReactUnmatched(EmptyPage.react, 0, x);
    }
  }

  /** When no pattern from the i-th on matches, the React strategy throws. */
  lemma {:induction false} ReactUnmatched(captures: seq<Capture>, i: nat, x: Extraction)
    requires i <= |captures|
    requires forall j :: i <= j < |captures| ==> captures[j].NoMatch?
    ensures ReactFrom(captures, i, x).Err?
    decreases |captures| - i
  {
    if i < |captures| {
      assert captures[i].NoMatch?;
      ReactUnmatched(captures, i + 1, x);
    }
  }

  // ---------------------------------------------------------------- the cache entry

  /**
   * What both services keep between calls (a JSON file on the server,
   * `localStorage` in the browser): when the posts were saved, in epoch
   * milliseconds, and the posts.
   */
  datatype CacheEntry = CacheEntry(timestamp: int, posts: seq<Post>)

  /** Two hours, in milliseconds. */
  const CacheDuration: int := 2 * 60 * 60 * 1000

  /**
   * Reading the cache: nothing when no readable entry is stored, nothing when
   * expiry counts and the entry is more than two hours old, else its posts.
   */
  function Cached(stored: Option<CacheEntry>, now: int, ignoreExpiry: bool): (r: Option<seq<Post>>)
    ensures r.Some? <==> stored.Some? && (ignoreExpiry || now - stored.value.timestamp <= CacheDuration)
    ensures r.Some? ==> r.value == stored.value.posts
  {
    match stored
    case None => None
    case Some(entry) =>
      if !ignoreExpiry && now - entry.timestamp > CacheDuration then None else Some(entry.posts)
  }

  // ---------------------------------------------------------------- mock posts

  /** Ages of the eight mock posts, in hours before now. */
  const MockHours: seq<nat> := [6, 12, 24, 36, 48, 72, 96, 120]

  /** The Unsplash photo of the k-th mock post. */
  function MockPhoto(k: nat): string {
    if k == 1 then "1523050854058-8df90110c9f1"
    else if k == 2 then "1605379399642-870262d3d051"
    else if k == 3 then "1556656793-08538906a9f8"
    else if k == 4 then "1560472354-b33ff0c44a43"
    else if k == 5 then "1540747913346-19e32dc3e97e"
    else if k == 6 then "1585937421612-70a008356fbe"
    else if k == 7 then "1544367567-0f2fcb009e0b"
    else "1522202176988-66273c2fd55f"
  }

  /** The caption of the server copy's k-th mock post (from 1), which ends in hashtags. */
  function TaggedCaption(k: nat): string {
    if k == 1 then "Welcome to PSU IGSA! Join our vibrant community of Indian graduate students at Penn State University. \U{1F393}\U{1F1EE}\U{1F1F3} #PSUIGSA #PennState #IndianStudents"
    else if k == 2 then "Celebrating Diwali with our IGSA family! \U{2728} What an amazing evening filled with lights, joy, and community spirit. #Diwali2024 #IGSA #Community"
    else if k == 3 then "Game night was a huge success! \U{1F3AE} Thank you to everyone who joined us for an evening of fun and friendship. #GameNight #IGSA #Fun"
    else if k == 4 then "Professional development workshop: \"Navigating Your Career Path in the US\" \U{1F4C8} Great insights shared by our alumni panel!"
    else if k == 5 then "Cricket tournament this weekend! Come cheer for our teams and enjoy some great matches. \U{1F3CF} #Cricket #Sports #Community"
    else if k == 6 then "Potluck dinner bringing together flavors from across India! \U{1F35B} Thank you to everyone who shared their delicious recipes."
    else if k == 7 then "Yoga and meditation session in the beautiful Penn State campus. Finding peace amidst busy academic life. \U{1F9D8}\U{200D}\U{2640}\U{FE0F} #Wellness #YogaLife"
    else "Study group sessions helping each other succeed! Academic support is what makes our community strong. \U{1F4DA} #StudyTogether #AcademicSupport"
  }

  /** The caption of the k-th mock post (from 1) in the browser, Netlify and feed copies. */
  function PlainCaption(k: nat): string {
    if k == 1 then "Welcome to PSU IGSA! Join our vibrant community of Indian graduate students at Penn State University. \U{1F393}\U{1F1EE}\U{1F1F3}"
    else if k == 2 then "Celebrating Diwali with our IGSA family! \U{2728} What an amazing evening filled with lights, joy, and community spirit."
    else if k == 3 then "Game night was a huge success! \U{1F3AE} Thank you to everyone who joined us for an evening of fun and friendship."
    else if k == 4 then "Professional development workshop: \"Navigating Your Career Path in the US\" \U{1F4C8} Great insights shared by our alumni panel!"
    else if k == 5 then "Cricket tournament this weekend! Come cheer for our teams and enjoy some great matches. \U{1F3CF}"
    else if k == 6 then "Potluck dinner bringing together flavors from across India! \U{1F35B} Thank you to everyone who shared their delicious recipes."
    else if k == 7 then "Yoga and meditation session in the beautiful Penn State campus. Finding peace amidst busy academic life. \U{1F9D8}\U{200D}\U{2640}\U{FE0F}"
    else "Study group sessions helping each other succeed! Academic support is what makes our community strong. \U{1F4DA}"
  }

  /** Image query of the server and browser copies, and of the Netlify and feed copies. */
  const PlainQuery: string := "?w=400"
  const CropQuery: string := "?w=400&h=400&fit=crop"

  const HourMs: int := 1000 * 60 * 60

  function MockPost(k: nat, caption: nat -> string, query: string, now: int): Post
    requires k < 8
  {
    Post("mock_" + NatToString(k + 1), caption(k + 1), "https://images.unsplash.com/photo-" + MockPhoto(k + 1) + query,
         Image, ProfileUrl(Username), Instant(now - HourMs * MockHours[k]), Username, None)
  }

  /** `getMockPosts()`: eight images by psu.igsa, `mock_1` to `mock_8`, 6 to 120 hours old. */
  function MockPosts(caption: nat -> string, query: string, now: int): (r: seq<Post>)
    ensures |r| == 8
    ensures forall i :: 0 <= i < 8 ==> r[i].id == "mock_" + NatToString(i + 1) && r[i].caption == caption(i + 1)
    ensures forall i :: 0 <= i < 8 ==> r[i].mediaType == Image && r[i].username == Username
    ensures forall i :: 0 <= i < 8 ==> r[i].timestamp == Instant(now - HourMs * MockHours[i])
  {
    seq(8, k requires 0 <= k < 8 => MockPost(k, caption, query, now))
  }

  /** The mock posts are all `psu.igsa`'s and their ids all start with `mock_`, in any prefix taken of them. */
  lemma MockPrefix(caption: nat -> string, query: string, now: int, n: int)
    ensures AllBy(SliceTo(MockPosts(caption, query, now), n), Username)
    ensures forall i :: 0 <= i < |SliceTo(MockPosts(caption, query, now), n)| ==>
              StartsWith(SliceTo(MockPosts(caption, query, now), n)[i].id, "mock_")
  {
    var r := SliceTo(MockPosts(caption, query, now), n);
    forall i | 0 <= i < |r| ensures StartsWith(r[i].id, "mock_") {
      assert r[i].id == "mock_" + NatToString(i + 1);
    }
  }
}
