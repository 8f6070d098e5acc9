# psuigsa website — a Dafny model of its logic

The site of the Penn State Indian Graduate Student Association is mostly presentation. It carries three pieces of real logic, and this project models each one and proves properties of it.

1. **Event content.** Events are markdown files with a frontmatter block. The site has four hand-written frontmatter parsers:
   - the browser's content loader, which understands lists and `|`/`>` block scalars;
   - the Express route and the Netlify function, which share one parser;
   - `client/lib/utils.ts`, which splits lines on `": "`.

   Around the parsers sit the event pipelines:
   - the content loader's source order, manifest and file fallback, normalisation with defaults, `published` filter and date sort;
   - the Express route's map/filter/sort, where one bad file fails the request;
   - the Netlify function's map/filter/sort, where a bad file is dropped.
2. **The Instagram feed.** Three copies exist: the server service, the browser service and the Netlify function. Each runs the same chain:
   - a two-hour cache;
   - transports tried in order;
   - four extraction strategies tried in order: JSON-LD, embedded React data, the legacy `_sharedData` object, meta tags;
   - on failure, the expired cache, then eight fixed mock posts.

   The `InstagramFeed` component chooses between the API's posts and its own mocks, cleans captions and labels post ages.
3. **The forum page.** It has:
   - a keyword responder whose first match wins;
   - the chat state that sending a message updates;
   - the post filter;
   - the category colours.

**What is a parameter.** Nothing in the model performs I/O. The following are parameters or oracles:
- the network, `fetch`, the file system and `localStorage`;
- the clock;
- `JSON.parse`, `Date.parse` and `Math.random`.

An HTML page is modelled by what the source's regular expressions would capture from it (`InstagramScrape.Page`). JSON is an abstract value type (`JsValue.Value`), with JavaScript's property access, optional chaining and truthiness.

Text is a sequence of Unicode characters. Removing tags, trimming and matching give the same results on characters as on UTF-16 code units, because no surrogate is a word character or white space. Where the source measures or cuts a string, as the caption limit of the Instagram cards does, the model measures its UTF-16 code units (`JsText.Utf16`).

**Where each source's shape is kept.** State that the source updates in place is a class with `modifies` clauses:
- the server's cache file (`ServerInstagram.InstagramService`);
- the browser's `localStorage` slot (`ClientInstagram.ClientInstagramService`);
- the feed component's React state (`InstagramFeed.FeedState`);
- the forum chat (`Forum.ForumChat`).

The source's loops are methods with loop invariants, each proved equal to a specification function: the strategy loop, the transport loop, the manifest loop, the file loop and the frontmatter line loop. The properties are then proved about those functions.

## Model

| member | source | states |
|---|---|---|
| LooseFrontmatter.ParseFrontmatter | client/utils/content-loader.ts:122-191 | The result is the record and body of the reference reading `Frontmatter`. With no frontmatter match it is `{}` and the input unchanged; otherwise the body is the trimmed second capture. |
| LooseFrontmatter.ReadBlock | client/utils/content-loader.ts:151-165 | The block-scalar loop stops at the first line whose trimmed text is a key line and collects the dedented lines before it. |
| LooseFrontmatter.ReadList | client/utils/content-loader.ts:168-178 | The list loop collects the items of the contiguous `- ` lines and stops at the first other line. |
| LooseFrontmatter.ReadRun | client/utils/content-loader.ts:151-178 | Both inner loops collect one item per kept line, in order, and stop at the first refused line. That line is where the run ends. |
| LooseFrontmatter.ReadEntry | client/utils/content-loader.ts:134-187 | One turn of the line loop performs the assignment `EntryAt` gives for the line, if any, and resumes at the line it names. |
| LooseFrontmatter.ReadLines | client/utils/content-loader.ts:133-188 | The loop's record is the fold of every line's assignment, from the first line on, into `{}`. |
| LooseFrontmatter.EntryAt | client/utils/content-loader.ts:133-188 | Every branch of the reading loop moves past the current line and stays within the lines. A line that is not a key line assigns nothing and moves one line on. |
| LooseFrontmatter.KeyLine | client/utils/content-loader.ts:141-148 | A key line's key is its maximal prefix of `[A-Za-z0-9_-]` characters, non-empty and followed by `:`. |
| LooseFrontmatter.Scalar | client/utils/content-loader.ts:180-186 | The quotes are stripped first. A plain scalar is then a boolean exactly when the stripped text is `true` or `false`, and a string otherwise. It is never a list. |
| LooseFrontmatter.Dedent | client/utils/content-loader.ts:159 | At most one leading two-space indent is removed. |
| LooseFrontmatter.AssignLastWrite | client/utils/content-loader.ts:163-185 | In the record, a key's value is the one its last assignment stored; keys never assigned are absent. |
| LooseFrontmatter.FrontmatterKeys | client/utils/content-loader.ts:141-147 | Every key of a parsed record is a key name of `[A-Za-z0-9_-]+`. |
| LooseFrontmatter.BlockItems | client/utils/content-loader.ts:154-161 | A block scalar holds one dedented entry per line up to the next key line, in order. |
| LooseFrontmatter.BlockLines | client/utils/content-loader.ts:154-158 | No line inside a block scalar is a key line, and the line it stops at is one. |
| LooseFrontmatter.ListItems | client/utils/content-loader.ts:168-176 | A list holds one item per contiguous `- ` line, in order, each the line with its `- ` and quotes stripped. |
| LooseFrontmatter.ListLines | client/utils/content-loader.ts:171 | Every line of a list run starts with `- ` once trimmed, and the line it stops at does not. |
| LooseFrontmatter.StripQuotesWrapped | client/utils/content-loader.ts:181 | One quote of either kind is removed at each end, whatever lies between. |
| LooseFrontmatter.StripQuotesUnquoted | client/utils/content-loader.ts:181 | A value with no quote at either end is unchanged. |
| LooseFrontmatter.StripQuotesOnce | client/utils/content-loader.ts:181 | Quote stripping is not repeated: a doubly quoted value keeps its inner quotes. |
| LooseFrontmatter.NumericScalarStaysText | client/utils/content-loader.ts:180-186 | Numeric text is not converted to a number; it stays a string. |
| LooseFrontmatter.FramedMatch | client/utils/content-loader.ts:40 | On a document framed by `---` lines, the pattern captures the frontmatter exactly and a body that trims to the written body. |
| LooseFrontmatter.FrontmatterRoundTrip | client/utils/content-loader.ts:122-191 | A document of `key: "value"` lines parses to the record those entries build: a later key wins, and a quoted `true`/`false` still becomes a boolean. The body comes back trimmed. |
| StrictFrontmatter.SplitFence | client/lib/utils.ts:10-14 | A match is `---\n` + frontmatter + `\n---\n` + body, where the frontmatter holds no earlier closing line. |
| StrictFrontmatter.FenceRoundTrip | server/routes/events.ts:27-31 | Framing a frontmatter without a `---` line and any body gives both back unchanged. |
| StrictFrontmatter.FramedLines | netlify/functions/events.ts:27-34 | For lines that do not start with `-` and hold no line break, the pattern captures exactly those lines, and splitting on `\n` gives them back. |
| StrictFrontmatter.StripDoubleQuotes | server/routes/events.ts:53-55 | Only a value both starting and ending with `"` loses its first and last characters. |
| StrictFrontmatter.StripQuoted | client/lib/utils.ts:29-31 | Quoting a text and stripping the quotes gives the text back. |
| StrictFrontmatter.QuotedNotNumeric | server/routes/events.ts:45 | A value opening with `"` is never converted to a number. |
| StrictFrontmatter.ParseLinesThrowsIff | server/routes/events.ts:34-58 | The `forEach` throws exactly when some line's conversion throws. |
| StrictFrontmatter.ParseLinesSnoc | client/lib/utils.ts:17-34 | Parsing is a left fold: a further line acts on the record built so far. |
| StrictFrontmatter.LastLineWins | netlify/functions/events.ts:57 | A key's last line decides its stored value. |
| StrictFrontmatter.FrontmatterRoundTrip | server/routes/events.ts:26-61 | With any line splitter and converter that read `key: "value"` lines back, a document of such lines parses to the record they build. Its body comes back untrimmed. |
| EventsFrontmatter.SplitLine | server/routes/events.ts:35-40 | A line gives a key and value only when it is non-blank and holds a `:`. |
| EventsFrontmatter.CoerceValue | server/routes/events.ts:43-55 | A value that survives is not `true`, `false` or numeric text. Every conversion failure is a `TypeError`. A value opening with `"` always survives, with its quotes stripped. |
| EventsFrontmatter.ParseFrontmatter | netlify/functions/events.ts:26-61 | The method's result is the fold `Frontmatter` with this splitter and converter. With no match it is `{}` and the input; otherwise the body is the untrimmed second capture. |
| EventsFrontmatter.InvalidJsonKept | server/routes/events.ts:46-52 | A bracketed value that `JSON.parse` rejects is kept as written. |
| EventsFrontmatter.BooleanLineThrows | server/routes/events.ts:43-45 | A `true`, `false` or numeric value makes the whole parse throw a `TypeError`. |
| EventsFrontmatter.ParseErrorIsTypeError | netlify/functions/events.ts:43-55 | Every exception this parser raises is a `TypeError`. |
| EventsFrontmatter.EntryLineSplits | server/routes/events.ts:36-40 | `key: "value"` splits at its first colon into the key and the quoted value. |
| EventsFrontmatter.EventsRoundTrip | server/routes/events.ts:26-61 | `key: "value"` lines parse back to the record the entries build, with the body unchanged. |
| LibUtils.SplitLine | client/lib/utils.ts:18-20 | Only a blank line gives no key. |
| LibUtils.CoerceValue | client/lib/utils.ts:23-31 | A value that survives is not `true`, `false`, numeric or bracketed, and is stored with its double quotes stripped. A value opening with `"` always survives. |
| LibUtils.ParseFrontmatter | client/lib/utils.ts:9-37 | The method's result is the fold `Frontmatter` with the `": "` splitter. With no match it is `{}` and the input; otherwise the body is untrimmed. |
| LibUtils.BracketedThrows | client/lib/utils.ts:26-29 | A bracketed value always throws: `SyntaxError` for invalid JSON, `TypeError` for a parsed array. |
| LibUtils.ValueKeepsSeparator | client/lib/utils.ts:19-20 | The value is everything after the first `": "`, so later `": "` survive. |
| LibUtils.NoSeparatorLine | client/lib/utils.ts:19-20 | A line without `": "` stores the whole trimmed line as a key with the value `""`. |
| LibUtils.EntryLineSplits | client/lib/utils.ts:19-20 | `key: "value"` splits into the key and the quoted value. |
| LibUtils.LibRoundTrip | client/lib/utils.ts:9-37 | `key: "value"` lines parse back to the record the entries build, with the body unchanged. |
| StableSort.SortDescCorrect | server/routes/events.ts:87 | The sort returns a permutation of its input, in descending key order. Elements with equal keys keep their input order. |
| StableSort.SortDescSortedInput | netlify/functions/events.ts:96 | A list already in descending order is left as it is. |
| StableSort.InsertSorted | client/utils/content-loader.ts:245-249 | Inserting into a descending list keeps it descending. |
| StableSort.InsertStable | client/utils/content-loader.ts:245-249 | Inserting keeps the relative order of equal keys, with the new element last. |
| StableSort.InsertPermutes | client/utils/content-loader.ts:245-249 | Inserting adds exactly the new element. |
| EventRecords.MdFiles | server/routes/events.ts:72 | The files kept are exactly the names ending in `.md`. |
| EventRecords.EventRecord | server/routes/events.ts:80-85 | The record holds `id` and `details`. Every frontmatter key is copied and overrides them. It holds no other key, and every value is a string. |
| EventRecords.KeepPublished | server/routes/events.ts:86 | A record is kept exactly when its `published` is not `false`. |
| EventRecords.KeepPublishedKeepsStrings | netlify/functions/events.ts:95 | On records holding strings only, which is all the parser produces, the filter removes nothing. |
| EventRecords.SortByDateCorrect | server/routes/events.ts:87 | The sort returns the same events; when all are dated, newest first with ties in input order. |
| EventRecords.LoadFile | server/routes/events.ts:76-84 | A file's record exists only when the file reads and parses, and it holds strings only. |
| ServerEvents.LoadAll | server/routes/events.ts:74-85 | The `map` succeeds exactly when every file loads, giving one record per file in order. |
| ServerEvents.HandleGetEventsStatus | server/routes/events.ts:63-94 | A missing directory gives `[]` and an unlistable one gives 500. A listed directory gives 200 exactly when every `.md` file loads. |
| ServerEvents.HandleGetEventsContents | server/routes/events.ts:74-89 | When every file loads, the events are one record per file, none filtered, newest first when all are dated. |
| NetlifyEvents.Loadable | netlify/functions/events.ts:79-95 | A file survives exactly when it is one of the listed files and it reads and parses. |
| NetlifyEvents.LoadableAll | netlify/functions/events.ts:79-95 | When every file loads, none is dropped. |
| NetlifyEvents.HandlerListing | netlify/functions/events.ts:76-102 | A listed directory always gives 200 with the records of the loadable files, each once. Where the Express route gives 200, both give the same events. |
| NetlifyEvents.HandlerDirectory | netlify/functions/events.ts:68-74 | A missing directory gives 200 and `[]`; one that cannot be listed gives 500 with `Failed to load events`. |
| ContentLoader.PreferredSources | client/utils/content-loader.ts:56-62 | The order is `SOURCE_ORDER` or its reverse, a permutation of it. GitHub comes first exactly on a `github.io` host. |
| ContentLoader.CacheBusterShape | client/utils/content-loader.ts:64-67 | The URL is kept as a prefix, `cb` is added with `&` exactly when it had a `?`, and the number reads back as the cache buster. |
| ContentLoader.CacheBusterHasQuery | client/utils/content-loader.ts:64-67 | A cache-busted URL always carries a query. |
| ContentLoader.LoadManifest | client/utils/content-loader.ts:81-97 | The loop's result is the first source, in order, that answers with an array. |
| ContentLoader.FirstManifestFails | client/utils/content-loader.ts:84-96 | Loading fails, with `Unable to load events manifest from any source`, exactly when no source answers with an array. |
| ContentLoader.FirstManifestFound | client/utils/content-loader.ts:84-90 | A loaded manifest holds the first answering source's entries and that source's index. |
| ContentLoader.OrderedSourcesSpec | client/utils/content-loader.ts:105-108 | The primary source comes first and the others follow in their original order, each tried once. |
| ContentLoader.FetchEventFile | client/utils/content-loader.ts:99-119 | The loop returns the text from the first source, in that order, that serves the file. |
| ContentLoader.FirstTextFails | client/utils/content-loader.ts:110-118 | The fetch fails exactly when no source, in order, serves the file. |
| ContentLoader.FirstTextFound | client/utils/content-loader.ts:110-118 | A fetched file is the text served by some source, and no source tried before it served anything. |
| ContentLoader.ParseDateValue | client/utils/content-loader.ts:193-197 | A falsy value gives `null`; a non-empty date string gives its `Date.parse` time. |
| ContentLoader.Details | client/utils/content-loader.ts:216 | The details are truthy exactly when the frontmatter's details, the body or the description is. The first of these that is truthy is taken, else `""`. |
| ContentLoader.NormalizeEvent | client/utils/content-loader.ts:199-220 | These defaults apply: `Untitled Event`, `Social`, the default colour, `published` true. `highlights` is the list if it is one, else `[]`. The `id` is the one given. |
| ContentLoader.NormalizeEventKeeps | client/utils/content-loader.ts:199-220 | Every field the frontmatter gives is kept, and a non-empty body is never lost. |
| ContentLoader.EventOf | client/utils/content-loader.ts:229-239 | Names not ending in `.md` and files no source serves are skipped. An event kept is published, with `id` the name with its first `.md` removed. |
| ContentLoader.CollectEvents | client/utils/content-loader.ts:229-243 | The loop yields nothing exactly when some manifest entry is not a string; otherwise it yields the reference collection `Collected` of the entries' events. |
| ContentLoader.LoadEvents | client/utils/content-loader.ts:223-254 | The method's result equals the reference reading `Events`. |
| ContentLoader.EventsEmpty | client/utils/content-loader.ts:250-253 | `[]` when no manifest can be read or an entry is not a string. |
| ContentLoader.EventsOrder | client/utils/content-loader.ts:245-249 | Otherwise the events are sorted newest first; an unreadable date counts as 0, and equal dates keep manifest order. |
| ContentLoader.EventsListed | client/utils/content-loader.ts:229-239 | Every event returned is published and named after a `.md` entry of the manifest. |
| InstagramScrape.MediaTypeOf | server/services/instagram.ts:144 | `VIDEO` exactly when `is_video` is truthy; else `CAROUSEL_ALBUM` exactly when `edge_sidecar_to_children` is truthy; else `IMAGE`. |
| InstagramScrape.SecondsStamp | server/services/instagram.ts:146 | `toISOString` succeeds exactly for a number of seconds whose instant is in range, and gives that instant. Otherwise it throws `RangeError`. |
| InstagramScrape.CaptionOf | netlify/functions/instagram.ts:164 | The fully optional caption chain of the React copy never throws. |
| InstagramScrape.EdgePost | server/services/instagram.ts:300-313 | A nullish edge throws `TypeError`. A post built carries the account name and has a non-nullish node. It has a thumbnail only in a copy that keeps thumbnails. |
| InstagramScrape.MapEdges | server/services/instagram.ts:301-313 | The `map` succeeds exactly when every edge's post does, giving one post per edge in order. |
| InstagramScrape.MapEdgesBy | server/services/instagram.ts:310 | Every mapped post carries the account name. |
| InstagramScrape.ArrayIsNeverPosting | netlify/functions/instagram.ts:110-112 | An array never passes the `@type` test, so the JSON-LD posts are always the single block. |
| InstagramScrape.JsonLdFrom | server/services/instagram.ts:216-238 | The JSON-LD strategy yields at most one post, from a block that parses to a posting. |
| InstagramScrape.ReactFrom | server/services/instagram.ts:241-286 | A React result comes from a pattern that matched, parsed and reached a non-empty edge array on one of the four paths. |
| InstagramScrape.ReactUnmatched | server/services/instagram.ts:241-286 | When none of the patterns matches the page, the React strategy throws. |
| InstagramScrape.FromShared | server/services/instagram.ts:288-317 | No match or unparsable text throws. A result comes from an edge array. |
| InstagramScrape.FromMeta | server/services/instagram.ts:319-342 | Throws exactly when title, description and image are all empty. Otherwise it gives exactly one post, whose caption is the description or `Latest from @psu.igsa` and whose media is the image or the placeholder. |
| InstagramScrape.FirstYield | server/services/instagram.ts:84-104 | A result of the strategy chain is non-empty. A failure is the single all-strategies-failed error. |
| InstagramScrape.ScrapePage | client/services/instagram-client.ts:122-170 | The strategy loop with its early return equals the first-yield chain. |
| InstagramScrape.FirstYieldFails | netlify/functions/instagram.ts:292-336 | The chain fails exactly when no strategy yields a post. |
| InstagramScrape.FirstYieldFound | server/services/instagram.ts:84-104 | A result is the result of some strategy that yielded. |
| InstagramScrape.ExtractBy | netlify/functions/instagram.ts:119 | Every post of every strategy carries the account name. |
| InstagramScrape.FirstYieldBy | server/services/instagram.ts:223-230 | Every scraped post carries the account name. |
| InstagramScrape.ExtractBounded | server/services/instagram.ts:223-310 | With limit n >= 0, the JSON-LD and edge strategies give at most n posts, and the meta strategy exactly one. |
| InstagramScrape.FirstYieldBounded | server/services/instagram.ts:84-104 | A scrape with limit n >= 0 gives at most max(n, 1) posts. |
| InstagramScrape.NaNLimitEmpty | netlify/functions/instagram.ts:111-112 | With a `NaN` limit the JSON-LD and edge strategies slice to nothing. |
| InstagramScrape.NaNLimitMetaOnly | netlify/functions/instagram.ts:292-336 | So with a `NaN` limit only the meta strategy can yield. |
| InstagramScrape.EmptyPageFails | client/services/instagram-client.spec.ts:20-33 | On an empty HTML document every strategy throws. |
| InstagramScrape.Cached | server/services/instagram.ts:344-364 | The cache gives posts exactly when an entry is stored and expiry is ignored or it is at most two hours old. It then gives the stored posts. |
| InstagramScrape.MockPosts | server/services/instagram.ts:382-457 | Eight `IMAGE` posts by `psu.igsa`, ids `mock_1` to `mock_8`, aged 6, 12, 24, 36, 48, 72, 96 and 120 hours. |
| InstagramScrape.MockPrefix | client/services/instagram-client.ts:29-35 | Every prefix of the mocks is `psu.igsa`'s, with ids starting `mock_`. |
| ServerInstagram.LegacyEndpoint | server/services/instagram.ts:117-158 | A failed request throws. It throws "Legacy endpoint returned no posts" exactly when the edges at `graphql.user.edge_owner_to_timeline_media.edges` are falsy, and a `TypeError` when they are truthy but no array. An edge array is cut to the limit and mapped post by post, so an empty array gives no posts and no exception. A result holds at most `limit` posts, all of them `psu.igsa`'s. |
| ServerInstagram.InstagramService.LoadFromCache | server/services/instagram.ts:344-364 | Returns the cache's posts under the two-hour rule. |
| ServerInstagram.InstagramService.SaveToCache | server/services/instagram.ts:366-380 | Overwrites the entry with the posts and the time; a failed write leaves the entry as it was. |
| ServerInstagram.InstagramService.ScrapePublicPosts | server/services/instagram.ts:58-111 | The strategies over the page, then the legacy endpoint. |
| ServerInstagram.InstagramService.FetchPosts | server/services/instagram.ts:21-49 | Returns, and stores, what `Fetched` prescribes: a fresh cache sliced; else the scrape saved and returned unsliced; else the expired cache sliced; else the mocks sliced. |
| ServerInstagram.ScrapedFails | server/services/instagram.ts:84-111 | A scrape fails exactly when no strategy yields and the legacy endpoint throws. |
| ServerInstagram.ScrapedBy | server/services/instagram.ts:223-310 | Scraped posts are `psu.igsa`'s. |
| ServerInstagram.ScrapedBounded | server/services/instagram.ts:223-341 | A scrape with limit n >= 0 gives at most max(n, 1) posts. |
| ServerInstagram.FetchedBy | server/services/instagram.ts:21-49 | If the stored posts are `psu.igsa`'s, so is everything `fetchPosts` returns. |
| ClientInstagram.Attempt | client/services/instagram-client.ts:71-112 | RSS always throws. A result needs a response, and an ok one for the direct fetch only. |
| ClientInstagram.FreshFrom | client/services/instagram-client.ts:42-66 | Failure is `All fetch methods failed`. |
| ClientInstagram.ClientInstagramService.GetFromCache | client/services/instagram-client.ts:303-318 | Returns the stored posts under the two-hour rule. |
| ClientInstagram.ClientInstagramService.SaveToCache | client/services/instagram-client.ts:320-330 | Stores `{posts, timestamp: now}`; a failing `setItem` leaves storage as it was. |
| ClientInstagram.ClientInstagramService.ParseInstagramHtml | client/services/instagram-client.ts:122-170 | The four strategies in order, first yield wins. |
| ClientInstagram.ClientInstagramService.FetchVia | client/services/instagram-client.ts:71-112 | Each transport's outcome. |
| ClientInstagram.ClientInstagramService.FetchFreshPosts | client/services/instagram-client.ts:42-66 | The transport loop with its early return equals the first-yield chain over transports, sliced to `limit`. |
| ClientInstagram.ClientInstagramService.FetchPosts | client/services/instagram-client.ts:16-36 | Returns and stores what `Fetched` prescribes: a fresh cache sliced; else fresh posts saved; else the expired cache or the mocks, sliced. |
| ClientInstagram.FreshFails | client/services/instagram-client.ts:44-65 | Fresh posts fail exactly when no transport yields a post. |
| ClientInstagram.FreshFound | client/services/instagram-client.ts:51-65 | A success comes from one of the first three transports; RSS never yields. |
| ClientInstagram.FreshBy | client/services/instagram-client.ts:172-301 | Fetched fresh posts are `psu.igsa`'s. |
| ClientInstagram.FetchedBy | client/services/instagram-client.ts:16-36 | If the stored posts are `psu.igsa`'s, so is everything returned. |
| ClientInstagram.FetchedBounded | client/services/instagram-client.ts:16-36 | With limit >= 0, at most `limit` posts are returned, whatever the source. |
| ClientInstagram.OfflineGivesMocks | client/services/instagram-client.spec.ts:5-18 | When every fetch rejects, `fetchPosts(3)` gives 1 to 3 posts by `psu.igsa`. |
| ClientInstagram.EmptyHtmlGivesMocks | client/services/instagram-client.spec.ts:20-33 | On an empty page `fetchPosts(2)` gives posts whose first id starts with `mock_`. |
| ClientInstagram.JsonLdMapping | client/services/instagram-client.ts:184-194 | The JSON-LD mapping takes the caption from `text`, the media from `image` and the permalink from `url`. |
| ClientInstagram.JsonLdPageParsed | client/services/instagram-client.spec.ts:35-65 | The test's page gives exactly one post with the test's caption, media URL and permalink. |
| NetlifyInstagram.ScrapeInstagramPosts | netlify/functions/instagram.ts:265-344 | Every returned post, scraped or mock, is `psu.igsa`'s. |
| NetlifyInstagram.ScrapeFallsBack | netlify/functions/instagram.ts:272-343 | When the page request fails or none of the four strategies yields a post, the answer is the mock posts cut to `limit`. |
| NetlifyInstagram.ScrapeFirstYield | netlify/functions/instagram.ts:292-334 | When some strategy yields, the answer is the posts of the first strategy that yields, and every earlier strategy yielded nothing or threw. |
| NetlifyInstagram.Handler | netlify/functions/instagram.ts:346-398 | Every response carries the CORS headers. `OPTIONS` gives 200 with an empty body, exactly. Any other method but `GET` gives 405 `Method not allowed`, exactly. `GET` gives 200 with `success`, the posts, and `count` equal to their number. |
| NetlifyInstagram.DefaultLimit | netlify/functions/instagram.ts:373 | A missing or empty `limit` reads as 8. |
| NetlifyInstagram.GetWithoutLimit | netlify/functions/instagram.ts:337-384 | A `GET` without a limit gives at most 8 posts, exactly the mocks when the request fails. |
| NetlifyInstagram.GetWithNaNLimit | netlify/functions/instagram.ts:373 | A non-numeric limit gives no post or only the meta post. |
| InstagramFeed.StripTags | client/components/InstagramFeed.tsx:156 | After the removal no mark is followed by a word character. A text without such a tag is unchanged. |
| InstagramFeed.StripKeepsUntagged | client/components/InstagramFeed.tsx:156 | Removing mentions never creates a hashtag, and vice versa. |
| InstagramFeed.FormatCaptionClean | client/components/InstagramFeed.tsx:153-157 | A formatted caption is no longer than the caption and holds no `#word` or `@word`. |
| InstagramFeed.FormatPlainCaption | client/components/InstagramFeed.tsx:153-157 | A caption without `#` or `@` is only trimmed. |
| InstagramFeed.FormatCaptionIdempotent | client/components/InstagramFeed.tsx:153-157 | Formatting twice is formatting once. |
| InstagramFeed.TimeAgoHours | client/components/InstagramFeed.tsx:159-166 | Under a day the label is `n h ago` with n whole hours elapsed. |
| InstagramFeed.TimeAgoDays | client/components/InstagramFeed.tsx:159-169 | From a day on the label is `n d ago` with n >= 1 whole days elapsed. |
| InstagramFeed.ApiUrl | client/components/InstagramFeed.tsx:120-123 | The URL is the `/api/` one exactly on `localhost` and `127.0.0.1`, and ends with `?limit=N`. |
| InstagramFeed.ApiPosts | client/components/InstagramFeed.tsx:134-143 | The API's `data` is used only from an ok, parsed response with truthy `success`. For an array `data`, it is used exactly when non-empty. |
| InstagramFeed.ViewOf | client/components/InstagramFeed.tsx:172-207 | Neither loading nor in error, the render shows the cards of `posts.slice(0, maxPosts)`. |
| InstagramFeed.FeedState.FetchInstagramPosts | client/components/InstagramFeed.tsx:111-151 | The API's data when accepted, else the mocks. `loading` ends false and `error` null, so the view is the cards and the retry view is never reached. |
| InstagramFeed.MockFallbackShown | client/components/InstagramFeed.tsx:207 | The mock fallback shows `min(maxPosts, 8)` mock posts in order. |
| InstagramFeed.CardCaption | client/components/InstagramFeed.tsx:250-251 | Lengths and cuts count UTF-16 code units, as JavaScript's `length` and `slice` do. When the caption has at most 120 code units, the formatted caption is shown whole. Otherwise the first 120 code units of the formatted caption are shown, followed by `...`. At most 123 code units are shown. |
| InstagramFeed.FormatCaptionUtf16 | client/components/InstagramFeed.tsx:153-157 | Formatting never lengthens a caption in code units, and keeps a caption within the Basic Multilingual Plane within it. |
| InstagramFeed.NarrowCardCaption | client/components/InstagramFeed.tsx:250-251 | For a caption within the Basic Multilingual Plane, code units and characters coincide: the card is the formatted caption cut to 120 characters, plus `...` when the caption has more than 120 characters. |
| InstagramFeed.SurrogateCaption | client/components/InstagramFeed.tsx:250-251 | A caption of 119 narrow characters and one character beyond the Basic Multilingual Plane, which formatting keeps, is shown cut between the two units of the surrogate pair, followed by `...`. |
| InstagramFeed.EmojiAcrossLimit | client/components/InstagramFeed.tsx:250-251 | 119 letters and U+1F393 are 120 characters but 121 code units. The card shows the letters, the lone high surrogate `0xD83C`, and `...`. |
| InstagramFeed.SpuriousEllipsis | client/components/InstagramFeed.tsx:250-251 | A 130-character caption that is one hashtag is shown as `...` alone. |
| InstagramFeed.ClippedCaption | client/components/InstagramFeed.tsx:250-251 | Corrected caption line: the formatted text is shown whole when it has at most 120 code units. Otherwise its first 120 code units are shown, followed by `...`. |
| InstagramFeed.ClippedAgreesWhenNothingRemoved | client/components/InstagramFeed.tsx:250-251 | When formatting removes nothing, the corrected line and the component's line agree. |
| Forum.TopicFromFirst | client/pages/Forum.tsx:54-93 | A topic other than the default is that of the first group, in order, with a keyword in the query. |
| Forum.TopicFromNone | client/pages/Forum.tsx:54-93 | When no group from there on has a keyword in the query, the topic is `Resources`. |
| Forum.TopicFromDefault | client/pages/Forum.tsx:54-93 | The topic is `Resources` only when no group from there on has a keyword in the query. |
| Forum.ResponseIsFirstMatch | client/pages/Forum.tsx:54-93 | The response's topic is the first mentioned group's; it is the default exactly when no keyword occurs. |
| Forum.EventsFirst | client/pages/Forum.tsx:57-59 | Any query mentioning `event` or `when` gets the events answer, whatever else it mentions. |
| Forum.CareerMeansTransport | client/pages/Forum.tsx:81-83 | `career` gets the transport answer through `car`. |
| Forum.BlankInputIgnored | client/pages/Forum.tsx:97 | Sending changes the chat exactly when the input is not all white space. |
| Forum.SendAppendsTwo | client/pages/Forum.tsx:99-115 | Sending keeps every message and appends the user's untrimmed text, then the answer to it, and clears the input. |
| Forum.ForumChat.constructor | client/pages/Forum.tsx:40-48 | The chat opens with the greeting and an empty input. |
| Forum.ForumChat.HandleSendMessage | client/pages/Forum.tsx:96-115 | The new messages and input are `AfterSend` of the old ones. |
| Forum.ForumChat.HandleKeyPress | client/pages/Forum.tsx:118-123 | Enter without Shift sends and prevents the default; any other key changes nothing. |
| Forum.FilterPosts | client/pages/Forum.tsx:208-215 | A post is shown exactly when its category matches and the search matches, in the original order. |
| Forum.SearchIgnoresCase | client/pages/Forum.tsx:210-213 | Lowering the search term's case changes nothing. |
| Forum.NoFilterShowsAll | client/pages/Forum.tsx:208-215 | `All` with an empty search shows every post. |
| Forum.CategoryColor | client/pages/Forum.tsx:217-225 | `text-gray-600` exactly for names other than `Academic`, `Housing`, `Jobs` and `General`. |
| Forum.CategoryColorsAgree | client/pages/Forum.tsx:125-131 | The colour classes of each of the four named categories end in the text class `getCategoryColor` gives that name. |
| JsText.ParseIntOfIntToString | netlify/functions/instagram.ts:373 | `parseInt` reads back every integer written in decimal. |
| JsText.TrimIdempotent | client/lib/utils.ts:18-20 | Trimming twice is trimming once. |
| JsValue.OptionalChainTotal | server/services/instagram.ts:241-286 | A chain of `?.` steps never throws. |

## Left out

- Network, `fetch`, `axios`, `fs`, `localStorage`, `AbortController` and its three-second abort, and `Date.now()` are parameters or oracles. A failed or aborted request is `None` or `Rejected`.
- `JSON.parse`, `Date.parse`, `new Date(...)`, and the regular expressions over HTML are abstract: a `Page` records what each pattern would capture and parse.
- `toISOString` failures are not modelled for the mock posts, the meta post or the JSON-LD fallback date. Their timestamps are the instant itself.
- Every call reads the clock once (`now`), where the source reads it several times.
- The strategy-failure message is one text for all copies. The copies word it differently, but no caller reads it.
- Non-string JSON fields copied into a post (an `id` number, say) are approximated by their string form.
- A cache file or `localStorage` entry that does not parse, or does not have the entry's shape, counts as absent. Writing the cache and reading it back is assumed to give the same posts.
- `Math.random()` ids of React posts come from an oracle `randomId`. The meta post's id is derived from `now`.
- `fetchViaEmbed` (server/services/instagram.ts:160) is never called, and `refreshCache` (server/services/instagram.ts:460) is a cron entry point outside the request path; neither is modelled.
- Netlify instagram handler: its 500 branch is never reached, because nothing in the `GET` branch throws. It is therefore absent from `NetlifyInstagram.Handler`.
- The last-write-wins race between concurrent `fetchPosts` calls on the cache is out of scope.
- ContentLoader: a file that no source serves fails with one message, where the source names the file in it; the message is only logged.
- ContentLoader.LoadEvents: it is stated over the per-file reader `Reader`, which is proved equal to the per-file method `LoadEntry`.
- EventRecords.SortByDate: when some date does not parse, the comparator answers `NaN` and the order is left to the engine. The model keeps input order there, and its lemma claims sortedness only when every date parses.
- InstagramFeed.ApiPosts: `data?.length > 0` is modelled for numbers and booleans. A string or object `length` is taken not to exceed 0.
- InstagramFeed.ViewOf: a non-array `data` is passed on unsliced. Rendering it, where `.map` would throw, is not modelled.
- InstagramFeed.TimeAgo: `NaN` elapsed time is `None` and reads `NaNd ago`; the time of day is not modelled beyond whole milliseconds.
- Forum.FilterPosts: the search lowers case only for `A` to `Z`, where `toLowerCase` lowers every cased letter of Unicode. So `café` matches a title `CAFÉ` in the source but not in the model, and a search `bank` matches `BAN\u212A` (ending in the Kelvin sign) in the source only. Forum.SearchIgnoresCase holds for the same ASCII lowering. The model of case-insensitive search is exact for ASCII text.
- Forum.TopicOf: the chat lowers the query with the same ASCII-only lowering, and so do Forum.GenerateAIResponse, Forum.ResponseIsFirstMatch and Forum.EventsFirst. A keyword written with a non-ASCII capital that Unicode lowers into it is missed by the model. For example, `BAN\u212A` (ending in the Kelvin sign) gets the banking answer in the source but the default answer in the model.
- Forum: the categories' displayed counts, the new-post dialog, the like and reply counters, and the chat's open/close toggle are presentation and are not modelled.
- Floating point, canvas and DOM work (the particle map, auto-fit text, interactive text), and pages and components that only render, are not part of this model.

Where the site's described behaviour and its code differ, this model follows the code:
- content loader: an event whose date does not parse counts as time 0, so it sorts among dates around 1970 and before every later date, not always last (client/utils/content-loader.ts:245-249);
- content loader: a quoted `"true"` becomes a boolean, so a string `true` does not survive a write-and-read (client/utils/content-loader.ts:181-183);
- Express route: one malformed file fails the whole response with a 500 instead of being skipped (server/routes/events.ts:74-92).

## Findings

| source | as written | input that shows it | evidently intended | confidence | as-written member | corrected member |
|---|---|---|---|---|---|---|
| client/components/InstagramFeed.tsx:250-251 | `...` is appended when the raw caption exceeds 120 code units, but the text shown is the formatted caption, with hashtags and mentions removed | a caption of `#` followed by 129 letters: the formatted text is empty and the card shows `...` alone | append `...` only when the formatted text was actually cut at 120 code units | medium, not executed | InstagramFeed.SpuriousEllipsis | InstagramFeed.ClippedCaption |
