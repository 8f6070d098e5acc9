/**
 * The `InstagramFeed` component's logic: the choice between the API's posts
 * and the mock posts, the component state that choice leaves (`posts`,
 * `loading`, `error`), the caption cleaning and cutting done at render, and
 * the "time ago" label.
 */
module InstagramFeed {
  import opened Outcomes
  import opened JsText
  import opened JsValue
  import opened InstagramScrape

  // ---------------------------------------------------------------- captions

  /** A mark character (`#`, `@`) followed by a word character. */
  predicate TagAt(s: string, i: int, mark: char) {
    0 <= i && i + 1 < |s| && s[i] == mark && IsWordChar(s[i + 1])
  }

  predicate Untagged(s: string, mark: char) {
    forall i :: 0 <= i < |s| ==> !TagAt(s, i, mark)
  }

  /** The number of leading word characters. */
  function WordRun(s: string): (n: nat)
    ensures n <= |s|
    ensures forall i :: 0 <= i < n ==> IsWordChar(s[i])
    ensures n < |s| ==> !IsWordChar(s[n])
  {
    if s != [] && IsWordChar(s[0]) then 1 + WordRun(s[1..]) else 0
  }

  lemma {:induction false} WordRunAll(s: string)
    requires forall i :: 0 <= i < |s| ==> IsWordChar(s[i])
    ensures WordRun(s) == |s|
  {
    if s != [] {
      WordRunAll(s[1..]);
    }
  }

  /**
   * `s.replace(/<mark>\w+/g, '')`: scanning left to right, every mark
   * followed by a run of word characters is removed together with the whole run.
   * What is left has no mark followed by a word character, and starts with a
   * word character only if the text did.
   */
  function StripTags(s: string, mark: char): (r: string)
    requires !IsWordChar(mark)
    ensures |r| <= |s|
    ensures (s == [] || !IsWordChar(s[0])) ==> (r == [] || !IsWordChar(r[0]))
    ensures Untagged(r, mark)
    ensures Untagged(s, mark) ==> r == s
    decreases |s|
  {
    if s == [] then []
    else if |s| >= 2 && s[0] == mark && IsWordChar(s[1]) then
      var rest := s[1 + WordRun(s[1..])..];
      assert Untagged(s, mark) ==> false by { assert TagAt(s, 0, mark); }
      StripTags(rest, mark)
    else
      var t := StripTags(s[1..], mark);
      assert Untagged(s, mark) ==> Untagged(s[1..], mark) by {
        if Untagged(s, mark) {
          forall i | 0 <= i < |s[1..]| ensures !TagAt(s[1..], i, mark) { assert !TagAt(s, i + 1, mark); }
        }
      }
      assert forall i :: 1 <= i < |t| + 1 ==> !TagAt([s[0]] + t, i, mark) by {
        forall i | 1 <= i < |t| + 1 ensures !TagAt([s[0]] + t, i, mark) { assert !TagAt(t, i - 1, mark); }
      }
      [s[0]] + t
  }

  /** Removing one kind of tag never creates the other kind. */
  lemma {:induction false} StripKeepsUntagged(s: string, mark: char, other: char)
    requires !IsWordChar(mark) && !IsWordChar(other)
    requires Untagged(s, other)
    ensures Untagged(StripTags(s, mark), other)
    decreases |s|
  {
    if s == [] {
    } else if |s| >= 2 && s[0] == mark && IsWordChar(s[1]) {
      var rest := s[1 + WordRun(s[1..])..];
      UntaggedSlice(s, 1 + WordRun(s[1..]), |s|, other);
      assert s[1 + WordRun(s[1..])..|s|] == rest;
      StripKeepsUntagged(rest, mark, other);
    } else {
      var t := StripTags(s[1..], mark);
      UntaggedSlice(s, 1, |s|, other);
      assert s[1..|s|] == s[1..];
      StripKeepsUntagged(s[1..], mark, other);
      assert s[0] == other ==> s[1..] == [] || !IsWordChar(s[1..][0]) by {
        assert !TagAt(s, 0, other);
      }
      UntaggedCons(s[0], t, other);
    }
  }

  /** A character in front of an untagged text leaves it untagged unless it is a mark before a word character. */
  lemma UntaggedCons(c: char, t: string, mark: char)
    requires Untagged(t, mark)
    requires c == mark ==> t == [] || !IsWordChar(t[0])
    ensures Untagged([c] + t, mark)
  {
    var r := [c] + t;
    forall i | 0 <= i < |r| ensures !TagAt(r, i, mark) {
      if i > 0 { assert !TagAt(t, i - 1, mark); }
    }
  }

  /** A slice of an untagged text is untagged. */
  lemma UntaggedSlice(s: string, a: nat, b: nat, mark: char)
    requires a <= b <= |s| && Untagged(s, mark)
    ensures Untagged(s[a..b], mark)
  {
    forall i | 0 <= i < b - a ensures !TagAt(s[a..b], i, mark) { assert !TagAt(s, a + i, mark); }
  }

  lemma UntaggedTrim(s: string, mark: char)
    requires Untagged(s, mark)
    ensures Untagged(Trim(s), mark)
  {
    var t := TrimStart(s);
    UntaggedSlice(s, |s| - |t|, |s|, mark);
    assert s[|s| - |t|..|s|] == t;
    UntaggedSlice(t, 0, |TrimEnd(t)|, mark);
    assert t[0..|TrimEnd(t)|] == TrimEnd(t);
  }

  /** `formatCaption`: `''` for an empty caption, else hashtags then mentions removed and the rest trimmed. */
  function FormatCaption(caption: string): (r: string)
  {
    if caption == "" then "" else Trim(StripTags(StripTags(caption, '#'), '@'))
  }

  /** A formatted caption is no longer than the caption and holds no hashtag and no mention. */
  lemma FormatCaptionClean(caption: string)
    ensures |FormatCaption(caption)| <= |caption|
    ensures Untagged(FormatCaption(caption), '#') && Untagged(FormatCaption(caption), '@')
  {
    if caption != "" {
      var u := StripTags(StripTags(caption, '#'), '@');
      StripKeepsUntagged(StripTags(caption, '#'), '@', '#');
      UntaggedTrim(u, '#');
      UntaggedTrim(u, '@');
    }
  }

  /** A caption without `#` or `@` is only trimmed. */
  lemma FormatPlainCaption(caption: string)
    requires forall i :: 0 <= i < |caption| ==> caption[i] != '#' && caption[i] != '@'
    ensures FormatCaption(caption) == Trim(caption)
  {
    assert Untagged(caption, '#') && Untagged(caption, '@');
  }

  /** A caption without `#` or `@` and with no white space at either end is shown as it is. */
  lemma PlainCaptionKept(caption: string)
    requires forall i :: 0 <= i < |caption| ==> caption[i] != '#' && caption[i] != '@'
    requires caption == [] || (!IsSpace(caption[0]) && !IsSpace(caption[|caption| - 1]))
    ensures FormatCaption(caption) == caption
  {
    FormatPlainCaption(caption);
    TrimPadded([], caption, []);
    assert [] + caption + [] == caption;
  }

  /** Formatting an already formatted caption changes nothing. */
  lemma FormatCaptionIdempotent(caption: string)
    ensures FormatCaption(FormatCaption(caption)) == FormatCaption(caption)
  {
    FormatCaptionClean(caption);
    var r := FormatCaption(caption);
    if r != "" {
      var u := StripTags(StripTags(caption, '#'), '@');
      assert r == Trim(u);
      assert StripTags(r, '#') == r;
      assert StripTags(r, '@') == r;
      TrimIdempotent(u);
      assert FormatCaption(r) == Trim(r);
    }
  }

  /** Removing tags never lengthens a text in UTF-16 code units. */
  lemma {:induction false} StripTagsUtf16(s: string, mark: char)
    requires !IsWordChar(mark)
    ensures |Utf16(StripTags(s, mark))| <= |Utf16(s)|
    decreases |s|
  {
    if s == [] {
    } else if |s| >= 2 && s[0] == mark && IsWordChar(s[1]) {
      var k := 1 + WordRun(s[1..]);
      Utf16Slice(s, k, |s|);
      assert s[k..|s|] == s[k..];
      StripTagsUtf16(s[k..], mark);
    } else {
      var t := StripTags(s[1..], mark);
      StripTagsUtf16(s[1..], mark);
      Utf16Concat([s[0]], t);
      assert Utf16([s[0]]) == Utf16Char(s[0]) + Utf16([]);
    }
  }

  /** Removing tags keeps a narrow text narrow. */
  lemma {:induction false} StripTagsNarrow(s: string, mark: char)
    requires !IsWordChar(mark) && Narrow(s)
    ensures Narrow(StripTags(s, mark))
    decreases |s|
  {
    if s == [] {
    } else if |s| >= 2 && s[0] == mark && IsWordChar(s[1]) {
      var k := 1 + WordRun(s[1..]);
      NarrowSlice(s, k, |s|);
      assert s[k..|s|] == s[k..];
      StripTagsNarrow(s[k..], mark);
    } else {
      NarrowSlice(s, 1, |s|);
      assert s[1..|s|] == s[1..];
      StripTagsNarrow(s[1..], mark);
      NarrowCons(s[0], StripTags(s[1..], mark));
    }
  }

  lemma NarrowCons(c: char, t: string)
    requires c as int < 0x1_0000 && Narrow(t)
    ensures Narrow([c] + t)
  {
    forall i | 0 <= i < |t| + 1 ensures ([c] + t)[i] as int < 0x1_0000 {
      if i > 0 { assert ([c] + t)[i] == t[i - 1]; }
    }
  }

  /** Formatting never lengthens a caption in UTF-16 code units, and keeps a narrow caption narrow. */
  lemma FormatCaptionUtf16(caption: string)
    ensures |Utf16(FormatCaption(caption))| <= |Utf16(caption)|
    ensures Narrow(caption) ==> Narrow(FormatCaption(caption))
  {
    if caption != "" {
      var h := StripTags(caption, '#');
      var u := StripTags(h, '@');
      StripTagsUtf16(caption, '#');
      StripTagsUtf16(h, '@');
      if Narrow(caption) {
        StripTagsNarrow(caption, '#');
        StripTagsNarrow(h, '@');
      }
      TrimUtf16(u);
    }
  }

  const CaptionLimit: nat := 120

  /** The three code units of `...`. */
  lemma EllipsisUnits()
    ensures Utf16("...") == [46, 46, 46]
  {
    NarrowUtf16("...");
    assert Utf16("...") == Utf16Char('.') + Utf16("..");
    assert Utf16("..") == Utf16Char('.') + Utf16(".");
  }

  /**
   * The caption line of a card, as the component writes it: the formatted
   * caption cut to 120 UTF-16 code units, then `...` when the ORIGINAL
   * caption is longer than 120 code units. Removing tags and trimming act on
   * characters alike in code points and code units (no surrogate is a word
   * character or white space); only the length and the cut count code units.
   */
  function CardCaption(caption: string): (r: seq<CodeUnit>)
    ensures |Utf16(caption)| <= CaptionLimit ==> r == Utf16(FormatCaption(caption))
    ensures |Utf16(caption)| > CaptionLimit ==> r == SliceTo(Utf16(FormatCaption(caption)), CaptionLimit) + Utf16("...")
    ensures |r| <= CaptionLimit + 3
  {
    FormatCaptionUtf16(caption);
    EllipsisUnits();
    SliceTo(Utf16(FormatCaption(caption)), CaptionLimit) + (if |Utf16(caption)| > CaptionLimit then Utf16("...") else [])
  }

  /** A caption within the Basic Multilingual Plane is measured and cut by characters. */
  lemma NarrowCardCaption(caption: string)
    requires Narrow(caption)
    ensures CardCaption(caption) ==
      Utf16(SliceTo(FormatCaption(caption), CaptionLimit) + (if |caption| > CaptionLimit then "..." else ""))
  {
    FormatCaptionUtf16(caption);
    NarrowUtf16(caption);
    NarrowSliceTo(FormatCaption(caption), CaptionLimit);
    Utf16Concat(SliceTo(FormatCaption(caption), CaptionLimit), if |caption| > CaptionLimit then "..." else "");
  }

  /** A caption that is one long hashtag: its card shows nothing but the ellipsis. */
  lemma SpuriousEllipsis()
    ensures var c := "#" + seq(129, i => 'b');
            |Utf16(c)| > CaptionLimit && FormatCaption(c) == "" && CardCaption(c) == Utf16("...")
  {
    var c := "#" + seq(129, i => 'b');
    NarrowUtf16(c);
    WordRunAll(c[1..]);
    assert StripTags(c, '#') == StripTags(c[130..], '#');
    assert c[130..] == [];
  }

  /**
   * 119 narrow characters and one beyond the Basic Multilingual Plane are 121
   * code units; the first 120 end with the first unit of the surrogate pair.
   */
  lemma SurrogateAtLimit(a: string, e: char)
    requires |a| == CaptionLimit - 1 && Narrow(a) && e as int >= 0x1_0000
    ensures |Utf16(a + [e])| == CaptionLimit + 1
    ensures SliceTo(Utf16(a + [e]), CaptionLimit) == Utf16(a) + [Utf16Char(e)[0]]
  {
    NarrowUtf16(a);
    Utf16Concat(a, [e]);
    assert Utf16([e]) == Utf16Char(e) + Utf16([]);
    assert (Utf16(a) + Utf16Char(e))[..CaptionLimit] == Utf16(a) + [Utf16Char(e)[0]];
  }

  /** A plain caption of 119 narrow characters and one beyond the plane is cut inside the surrogate pair. */
  lemma SurrogateCaption(a: string, e: char)
    requires |a| == CaptionLimit - 1 && Narrow(a) && e as int >= 0x1_0000
    requires FormatCaption(a + [e]) == a + [e]
    ensures CardCaption(a + [e]) == Utf16(a) + [Utf16Char(e)[0]] + Utf16("...")
  {
    SurrogateAtLimit(a, e);
  }

  /** 119 letters and an emoji are 120 characters but 121 code units, and the card cuts the emoji in half. */
  lemma EmojiAcrossLimit(letters: string)
    requires |letters| == 119 && forall i :: 0 <= i < |letters| ==> letters[i] == 'a'
    ensures var c := letters + "\U{1F393}";
            |c| == CaptionLimit && |Utf16(c)| == CaptionLimit + 1
            && CardCaption(c) == Utf16(letters) + [0xD83C] + Utf16("...")
  {
    var e := '\U{1F393}';
    var c := letters + [e];
    assert "\U{1F393}" == [e];
    assert Narrow(letters);
    assert FormatCaption(c) == c by {
      assert forall i :: 0 <= i < |c| ==> c[i] != '#' && c[i] != '@' by {
        assert forall i :: 0 <= i < |letters| ==> c[i] == 'a';
      }
      assert c[0] == 'a';
      PlainCaptionKept(c);
    }
    assert Utf16Char(e)[0] == 0xD83C;
    SurrogateAtLimit(letters, e);
    SurrogateCaption(letters, e);
  }

  /** The card caption with the ellipsis decided on the formatted text, which is what gets cut. */
  function ClippedCaption(caption: string): (r: seq<CodeUnit>)
    ensures |Utf16(FormatCaption(caption))| <= CaptionLimit ==> r == Utf16(FormatCaption(caption))
    ensures |Utf16(FormatCaption(caption))| > CaptionLimit ==>
              r == Utf16(FormatCaption(caption))[..CaptionLimit] + Utf16("...")
    ensures |r| <= CaptionLimit + 3
  {
    EllipsisUnits();
    var f := Utf16(FormatCaption(caption));
    SliceTo(f, CaptionLimit) + (if |f| > CaptionLimit then Utf16("...") else [])
  }

  /** The two agree whenever formatting removed nothing. */
  lemma ClippedAgreesWhenNothingRemoved(caption: string)
    requires |Utf16(FormatCaption(caption))| == |Utf16(caption)|
    ensures ClippedCaption(caption) == CardCaption(caption)
  {
  }

  // ---------------------------------------------------------------- time ago

  const DayMs: int := 24 * HourMs

  /**
   * `getTimeAgo`: whole hours elapsed below a day, else whole days; `None`
   * is an elapsed time of NaN (an unparsable timestamp), which reads "NaNd ago".
   */
  function TimeAgo(elapsed: Option<int>): string {
    match elapsed
    case None => "NaNd ago"
    case Some(ms) =>
      var hours := ms / HourMs;
      if hours < 24 then IntToString(hours) + "h ago" else IntToString(hours / 24) + "d ago"
  }

  /** Below a day the label is the number n of hours with n hours <= elapsed < n + 1 hours. */
  lemma TimeAgoHours(ms: int)
    requires ms < DayMs
    ensures exists n :: TimeAgo(Some(ms)) == IntToString(n) + "h ago" && n * HourMs <= ms < (n + 1) * HourMs
  {
    var n := ms / HourMs;
    assert n * HourMs <= ms < (n + 1) * HourMs;
    assert n < 24;
    assert TimeAgo(Some(ms)) == IntToString(n) + "h ago";
  }

  /** From a day on, the label is the number n >= 1 of days with n days <= elapsed < n + 1 days. */
  lemma TimeAgoDays(ms: int)
    requires ms >= DayMs
    ensures exists n :: n >= 1 && TimeAgo(Some(ms)) == IntToString(n) + "d ago" && n * DayMs <= ms < (n + 1) * DayMs
  {
    var h := ms / HourMs;
    var n := h / 24;
    assert HourMs == 3600000 && DayMs == 86400000;
    assert h * 3600000 <= ms < h * 3600000 + 3600000;
    assert n * 24 <= h < n * 24 + 24;
    assert h >= 24;
    assert n * 86400000 <= ms < n * 86400000 + 86400000;
    assert TimeAgo(Some(ms)) == IntToString(n) + "d ago";
  }

  // ---------------------------------------------------------------- choosing the posts

  /** `/api/...` on `localhost` and `127.0.0.1`, the Netlify function elsewhere. */
  function ApiUrl(hostname: string, maxPosts: int): (url: string)
    ensures (hostname == "localhost" || hostname == "127.0.0.1") <==> StartsWith(url, "/api/")
    ensures EndsWith(url, "?limit=" + IntToString(maxPosts))
  {
    var query := "?limit=" + IntToString(maxPosts);
    if hostname != "localhost" && hostname != "127.0.0.1" then
      EndsWithConcat(NetlifyPath, query);
      NetlifyPathNotApi(query);
      NetlifyPath + query
    else
      EndsWithConcat(LocalPath, query);
      LocalPathApi(query);
      LocalPath + query
  }

  /** The development server's route for the posts. */
  const LocalPath: string := "/api/instagram/posts"

  /** The Netlify function's route for the posts. */
  const NetlifyPath: string := "/.netlify/functions/instagram"

  lemma LocalPathApi(query: string)
    ensures StartsWith(LocalPath + query, "/api/")
  {
    assert (LocalPath + query)[..5] == "/api/";
  }

  lemma NetlifyPathNotApi(query: string)
    ensures !StartsWith(NetlifyPath + query, "/api/")
  {
    assert (NetlifyPath + query)[1] == '.';
  }

  /** How the API request ended: rejected (network error or the 3-second abort), or a response and its JSON (`None` when it does not parse). */
  datatype ApiReply = Rejected | Answered(ok: bool, json: Option<Value>)

  /** `v > 0` for the values the rule meets: numbers and booleans; other values are taken not to exceed 0. */
  predicate Positive(v: Value) {
    (v.Num? && v.n > 0) || v == Bool(true)
  }

  /**
   * The API's `data` when the component uses it: the response was ok, its
   * JSON parsed, `success` is truthy and `data?.length > 0`.
   */
  function ApiPosts(reply: ApiReply): (r: Option<Value>)
    ensures r.Some? ==> reply.Answered? && reply.ok && reply.json.Some? && !Nullish(reply.json.value)
                        && Truthy(Get(reply.json.value, Name("success")))
                        && r.value == Get(reply.json.value, Name("data"))
    ensures reply.Answered? && reply.ok && reply.json.Some? && reply.json.value.Obj?
            && Truthy(Get(reply.json.value, Name("success"))) && Get(reply.json.value, Name("data")).Arr?
            ==> (r.Some? <==> |Get(reply.json.value, Name("data")).items| > 0)
  {
    match reply
    case Rejected => None
    case Answered(ok, json) =>
      if !ok || json.None? || Nullish(json.value) then None
      else
        var body := json.value;
        var data := Get(body, Name("data"));
        if Truthy(Get(body, Name("success"))) && !Nullish(data) && Positive(Get(data, Name("length"))) then Some(data)
        else None
  }

  /** What `posts` holds: the API's `data` as received, or a list of posts. */
  datatype Shown = Received(data: Value) | Listed(posts: seq<Post>)

  /** The feed copy's mock posts. */
  function FeedMocks(now: int): seq<Post> { MockPosts(PlainCaption, CropQuery, now) }

  /** What the component renders. */
  datatype View = Skeletons(count: int) | RetryPrompt | Cards(shown: Shown)

  /** `posts.slice(0, maxPosts)` on what is shown; `data` that is not an array is passed on as it is. */
  function Visible(shown: Shown, maxPosts: int): Shown {
    match shown
    case Listed(ps) => Listed(SliceTo(ps, maxPosts))
    case Received(data) => if data.Arr? then Received(Arr(SliceTo(data.items, maxPosts))) else shown
  }

  /** The render: skeleton cards while loading, the retry prompt on an error, else the cards. */
  function ViewOf(loading: bool, error: Option<string>, shown: Shown, maxPosts: int): (v: View)
    ensures !loading && error.None? ==> v == Cards(Visible(shown, maxPosts))
  {
    if loading then Skeletons(maxPosts)
    else if error.Some? then RetryPrompt
    else Cards(Visible(shown, maxPosts))
  }

  class FeedState {
    const maxPosts: int
    var posts: Shown
    var loading: bool
    var error: Option<string>

    /** The state `useState` starts with. */
    constructor(maxPosts: int)
      ensures this.maxPosts == maxPosts
      ensures posts == Listed([]) && loading && error.None?
    {
      this.maxPosts := maxPosts;
      posts := Listed([]);
      loading := true;
      error := None;
    }

    function View(): View
      reads this
    {
      ViewOf(loading, error, posts, maxPosts)
    }

    /**
     * `fetchInstagramPosts`: requests the API for this host, keeps its
     * `data` when the rule accepts it and the mock posts otherwise; `loading`
     * ends false and `error` null on both paths.
     */
    method FetchInstagramPosts(hostname: string, reply: ApiReply, now: int) returns (url: string)
      modifies this
      ensures url == ApiUrl(hostname, maxPosts)
      ensures ApiPosts(reply).Some? ==> posts == Received(ApiPosts(reply).value)
      ensures ApiPosts(reply).None? ==> posts == Listed(FeedMocks(now))
      ensures !loading && error.None?
      ensures View() == Cards(Visible(posts, maxPosts))
    {
      loading := true;
      error := None;
      url := ApiUrl(hostname, maxPosts);
      var accepted := ApiPosts(reply);
      if accepted.Some? {
        posts := Received(accepted.value);
        loading := false;
        return;
      }
      posts := Listed(FeedMocks(now));
      loading := false;
    }
  }

  /** The mock fallback shows at most `maxPosts` of the eight mock posts, in their order. */
  lemma MockFallbackShown(now: int, maxPosts: int)
    requires 0 <= maxPosts
    ensures var v := Visible(Listed(FeedMocks(now)), maxPosts).posts;
            |v| == (if maxPosts < 8 then maxPosts else 8) && v == FeedMocks(now)[..|v|]
  {
  }
}
