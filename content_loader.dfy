/**
 * The event loading of client/utils/content-loader.ts: choosing the order
 * of the two content sources (the site itself and the raw GitHub
 * repository), reading the first manifest that is a JSON array, fetching
 * each `.md` file from the manifest's source first and the other source
 * after it, turning each parsed file into an event with defaults, dropping
 * unpublished events and sorting newest first.
 *
 * The network is a pair of parameters: `getJson(url)` is the parsed body of
 * a successful `fetch(url)`, `None` when the request fails, the status is
 * not ok or the body is not JSON; `getText(url)` is the text of a
 * successful fetch. `dateMs(text)` is `Date.parse(text)`, `None` for NaN.
 * The clock reading used as a cache buster is the parameter `cacheBuster`.
 */
module ContentLoader {
  import opened Outcomes
  import opened JsText
  import opened JsValue
  import opened StableSort
  import opened LooseFrontmatter

  // ---------------------------------------------------------------- sources

  datatype Label = Local | Github

  /** A place the event files are served from. */
  datatype Source = Source(baseUrl: string, tag: Label)

  const RawContentBase: string := "https://raw.githubusercontent.com/psuigsa/psuigsa.github.io/main/content"
  const LocalContentBase: string := "/content"

  /** `SOURCE_ORDER`: the site's own copy first, then GitHub. */
  const SourceOrder: seq<Source> := [Source(LocalContentBase + "/events", Local), Source(RawContentBase + "/events", Github)]

  /**
   * `getPreferredSources()`. `hostname` is `window.location.hostname`, `None`
   * when there is no `window`. On GitHub Pages the order is reversed.
   */
  function PreferredSources(hostname: Option<string>): (r: seq<Source>)
    ensures |r| == |SourceOrder| && multiset(r) == multiset(SourceOrder)
    ensures r[0].tag == Github <==> hostname.Some? && EndsWith(hostname.value, "github.io")
    ensures forall i :: 0 <= i < |r| ==> r[i] == SourceOrder[i] || r[i] == SourceOrder[|r| - 1 - i]
  {
    if hostname.Some? && EndsWith(hostname.value, "github.io") then [SourceOrder[1], SourceOrder[0]] else SourceOrder
  }

  /** `&` when the URL already has a query, `?` otherwise. */
  function Separator(url: string): char {
    if Contains(url, "?") then '&' else '?'
  }

  /** `withCacheBuster(url, cacheBuster)` */
  function WithCacheBuster(url: string, cacheBuster: int): string {
    url + [Separator(url)] + "cb=" + IntToString(cacheBuster)
  }

  /**
   * The cache-busted URL keeps the original URL as its prefix, adds `cb`
   * with `&` exactly when the URL already had a query, and the number after
   * `cb=` reads back as the cache buster.
   */
  lemma CacheBusterShape(url: string, cacheBuster: int)
    ensures var r := WithCacheBuster(url, cacheBuster);
      && r[..|url|] == url
      && r[|url|] == (if Contains(url, "?") then '&' else '?')
      && r[|url| + 1..|url| + 4] == "cb="
      && ParseInt(r[|url| + 4..]) == Some(cacheBuster)
  {
    var n := IntToString(cacheBuster);
    var r := WithCacheBuster(url, cacheBuster);
    assert r == url + ([Separator(url)] + "cb=" + n);
    assert r[|url| + 4..] == n;
    ParseIntOfIntToString(cacheBuster);
  }

  /** The cache-busted URL always carries a query. */
  lemma CacheBusterHasQuery(url: string, cacheBuster: int)
    ensures Contains(WithCacheBuster(url, cacheBuster), "?")
  {
    var r := WithCacheBuster(url, cacheBuster);
    assert r[..|url|] == url;
    if Contains(url, "?") {
      ContainsPrefix(url, r, "?");
    } else {
      assert r[|url|..|url| + 1] == "?";
      assert OccursAt(r, "?", |url|);
    }
  }

  /** An occurrence in a prefix is an occurrence in the whole text. */
  lemma ContainsPrefix(s: string, t: string, p: string)
    requires |s| <= |t| && t[..|s|] == s && Contains(s, p)
    ensures Contains(t, p)
  {
    var i := IndexOf(s, p);
    assert t[i..i + |p|] == s[i..i + |p|];
    assert OccursAt(t, p, i);
  }

  function ManifestUrl(source: Source, cacheBuster: int): string {
    WithCacheBuster(source.baseUrl + "/manifest.json", cacheBuster)
  }

  function FileUrl(source: Source, filename: string, cacheBuster: int): string {
    WithCacheBuster(source.baseUrl + "/" + filename, cacheBuster)
  }

  // ---------------------------------------------------------------- the manifest

  /** The manifest that was read: its entries and the index of the source it came from. */
  datatype Manifest = Manifest(files: seq<Value>, sourceIndex: nat)

  const NoManifest: string := "Unable to load events manifest from any source"

  /** The entries of the manifest source `source` serves, when it answers with a JSON array. */
  function ManifestAt(source: Source, cacheBuster: int, getJson: string -> Option<Value>): Option<seq<Value>> {
    match getJson(ManifestUrl(source, cacheBuster))
    case Some(Arr(files)) => Some(files)
    case _ => None
  }

  /** The first manifest among the sources from index `i` on. */
  function FirstManifest(sources: seq<Source>, i: nat, cacheBuster: int, getJson: string -> Option<Value>): Result<Manifest>
    requires i <= |sources|
    decreases |sources| - i
  {
    if i == |sources| then Err(Error(NoManifest))
    else match ManifestAt(sources[i], cacheBuster, getJson)
      case Some(files) => Ok(Manifest(files, i))
      case None => FirstManifest(sources, i + 1, cacheBuster, getJson)
  }

  /** The read fails, with `NoManifest`, exactly when no source from `i` on answers with an array. */
  lemma {:induction false} FirstManifestFails(sources: seq<Source>, i: nat, cacheBuster: int, getJson: string -> Option<Value>)
    requires i <= |sources|
    ensures var r := FirstManifest(sources, i, cacheBuster, getJson);
      && (r.Err? <==> forall j :: i <= j < |sources| ==> ManifestAt(sources[j], cacheBuster, getJson).None?)
      && (r.Err? ==> r.error == Error(NoManifest))
    decreases |sources| - i
  {
    if i < |sources| && ManifestAt(sources[i], cacheBuster, getJson).None? {
      FirstManifestFails(sources, i + 1, cacheBuster, getJson);
    }
  }

  /**
   * A manifest that is read comes from the first source that answers with an
   * array, holds that array's entries and names that source's index.
   */
  lemma {:induction false} FirstManifestFound(sources: seq<Source>, i: nat, cacheBuster: int, getJson: string -> Option<Value>)
    requires i <= |sources|
    ensures var r := FirstManifest(sources, i, cacheBuster, getJson);
      r.Ok? ==>
        && i <= r.value.sourceIndex < |sources|
        && ManifestAt(sources[r.value.sourceIndex], cacheBuster, getJson) == Some(r.value.files)
        && forall j :: i <= j < r.value.sourceIndex ==> ManifestAt(sources[j], cacheBuster, getJson).None?
    decreases |sources| - i
  {
    if i < |sources| && ManifestAt(sources[i], cacheBuster, getJson).None? {
      FirstManifestFound(sources, i + 1, cacheBuster, getJson);
      var r := FirstManifest(sources, i, cacheBuster, getJson);
      assert r == FirstManifest(sources, i + 1, cacheBuster, getJson);
      if r.Ok? {
        forall j | i <= j < r.value.sourceIndex
          ensures ManifestAt(sources[j], cacheBuster, getJson).None?
        {
          if j > i {
            assert i + 1 <= j < r.value.sourceIndex;
          }
        }
      }
    }
  }

  /** `loadManifest(cacheBuster)` over the given source order. */
  method LoadManifest(sources: seq<Source>, cacheBuster: int, getJson: string -> Option<Value>) returns (r: Result<Manifest>)
    ensures r == FirstManifest(sources, 0, cacheBuster, getJson)
  {
    var i := 0;
    while i < |sources|
      invariant 0 <= i <= |sources|
      invariant FirstManifest(sources, 0, cacheBuster, getJson) == FirstManifest(sources, i, cacheBuster, getJson)
    {
      var files := ManifestAt(sources[i], cacheBuster, getJson);
      if files.Some? {
        return Ok(Manifest(files.value, i));
      }
      i := i + 1;
    }
    return Err(Error(NoManifest));
  }

  // ---------------------------------------------------------------- event files

  /** `sources.filter((_, idx) => idx !== primaryIndex)` from index `i` on. */
  function OthersFrom(sources: seq<Source>, primary: nat, i: nat): seq<Source>
    requires i <= |sources|
    decreases |sources| - i
  {
    if i == |sources| then []
    else (if i != primary then [sources[i]] else []) + OthersFrom(sources, primary, i + 1)
  }

  /** `[sources[primaryIndex], ...sources.filter((_, idx) => idx !== primaryIndex)]` */
  function OrderedSources(sources: seq<Source>, primary: nat): seq<Source>
    requires primary < |sources|
  {
    [sources[primary]] + OthersFrom(sources, primary, 0)
  }

  /** Past the primary source, every source is kept. */
  lemma {:induction false} OthersAfter(sources: seq<Source>, primary: nat, i: nat)
    requires primary < i <= |sources|
    ensures OthersFrom(sources, primary, i) == sources[i..]
    decreases |sources| - i
  {
    if i < |sources| {
      OthersAfter(sources, primary, i + 1);
      assert sources[i..] == [sources[i]] + sources[i + 1..];
    }
  }

  /** Up to the primary source, every source but the primary is kept, in order. */
  lemma {:induction false} OthersAround(sources: seq<Source>, primary: nat, i: nat)
    requires i <= primary < |sources|
    ensures OthersFrom(sources, primary, i) == sources[i..primary] + sources[primary + 1..]
    decreases primary - i
  {
    if i == primary {
      OthersAfter(sources, primary, i + 1);
      assert OthersFrom(sources, primary, i) == [] + OthersFrom(sources, primary, i + 1);
      assert sources[i..i] == [];
    } else {
      OthersAround(sources, primary, i + 1);
      assert OthersFrom(sources, primary, i) == [sources[i]] + OthersFrom(sources, primary, i + 1);
      var before, after := sources[i + 1..primary], sources[primary + 1..];
      assert sources[i..primary] == [sources[i]] + before;
      assert [sources[i]] + (before + after) == ([sources[i]] + before) + after;
    }
  }

  /**
   * The primary source comes first and the others follow in their original
   * order: the order is `sources` with the primary moved to the front, so
   * every source is tried exactly once.
   */
  lemma OrderedSourcesSpec(sources: seq<Source>, primary: nat)
    requires primary < |sources|
    ensures OrderedSources(sources, primary) == [sources[primary]] + sources[..primary] + sources[primary + 1..]
    ensures multiset(OrderedSources(sources, primary)) == multiset(sources)
  {
    OthersAround(sources, primary, 0);
    assert sources[0..primary] == sources[..primary];
    assert sources == sources[..primary] + [sources[primary]] + sources[primary + 1..];
  }

  const NoFile: string := "Unable to load the file from any source"

  /** The text of the first source, in the given order, that serves the file. */
  function FirstText(ordered: seq<Source>, i: nat, filename: string, cacheBuster: int, getText: string -> Option<string>): Result<string>
    requires i <= |ordered|
    decreases |ordered| - i
  {
    if i == |ordered| then Err(Error(NoFile))
    else if getText(FileUrl(ordered[i], filename, cacheBuster)).Some? then Ok(getText(FileUrl(ordered[i], filename, cacheBuster)).value)
    else FirstText(ordered, i + 1, filename, cacheBuster, getText)
  }

  /** The fetch fails exactly when no source, from `i` on, serves the file. */
  lemma {:induction false} FirstTextFails(ordered: seq<Source>, i: nat, filename: string, cacheBuster: int, getText: string -> Option<string>)
    requires i <= |ordered|
    ensures FirstText(ordered, i, filename, cacheBuster, getText).Err?
        <==> forall j :: i <= j < |ordered| ==> getText(FileUrl(ordered[j], filename, cacheBuster)).None?
    decreases |ordered| - i
  {
    if i < |ordered| && getText(FileUrl(ordered[i], filename, cacheBuster)).None? {
      FirstTextFails(ordered, i + 1, filename, cacheBuster, getText);
    }
  }

  /** A file that is fetched is the text of the first source, from `i` on, that serves it. */
  lemma {:induction false} FirstTextFound(ordered: seq<Source>, i: nat, filename: string, cacheBuster: int, getText: string -> Option<string>)
    requires i <= |ordered|
    ensures var r := FirstText(ordered, i, filename, cacheBuster, getText);
      r.Ok? ==> exists j :: i <= j < |ordered| && getText(FileUrl(ordered[j], filename, cacheBuster)) == Some(r.value)
                  && forall j' :: i <= j' < j ==> getText(FileUrl(ordered[j'], filename, cacheBuster)).None?
    decreases |ordered| - i
  {
    if i < |ordered| {
      var r := FirstText(ordered, i, filename, cacheBuster, getText);
      if getText(FileUrl(ordered[i], filename, cacheBuster)).Some? {
        assert r.Ok? && getText(FileUrl(ordered[i], filename, cacheBuster)) == Some(r.value);
      } else {
        FirstTextFound(ordered, i + 1, filename, cacheBuster, getText);
        assert r == FirstText(ordered, i + 1, filename, cacheBuster, getText);
        if r.Ok? {
          var j :| i + 1 <= j < |ordered| && getText(FileUrl(ordered[j], filename, cacheBuster)) == Some(r.value)
                   && forall j' :: i + 1 <= j' < j ==> getText(FileUrl(ordered[j'], filename, cacheBuster)).None?;
          assert forall j' :: i <= j' < j ==> getText(FileUrl(ordered[j'], filename, cacheBuster)).None?;
        }
      }
    }
  }


  /** `fetchEventFile(filename, sources, primaryIndex, cacheBuster)` */
  method FetchEventFile(filename: string, sources: seq<Source>, primary: nat, cacheBuster: int, getText: string -> Option<string>)
    returns (r: Result<string>)
    requires primary < |sources|
    ensures r == FirstText(OrderedSources(sources, primary), 0, filename, cacheBuster, getText)
  {
    var ordered := OrderedSources(sources, primary);
    var i := 0;
    while i < |ordered|
      invariant 0 <= i <= |ordered|
      invariant FirstText(ordered, 0, filename, cacheBuster, getText) == FirstText(ordered, i, filename, cacheBuster, getText)
    {
      var text := getText(FileUrl(ordered[i], filename, cacheBuster));
      FirstTextStep(ordered, i, filename, cacheBuster, getText);
      if text.Some? {
        return Ok(text.value);
      }
      i := i + 1;
    }
    return Err(Error(NoFile));
  }

  lemma FirstTextStep(ordered: seq<Source>, i: nat, filename: string, cacheBuster: int, getText: string -> Option<string>)
    requires i < |ordered|
    ensures var text := getText(FileUrl(ordered[i], filename, cacheBuster));
      FirstText(ordered, i, filename, cacheBuster, getText)
        == if text.Some? then Ok(text.value) else FirstText(ordered, i + 1, filename, cacheBuster, getText)
  {
  }

  // ---------------------------------------------------------------- events

  /** JavaScript truthiness of a frontmatter value: arrays are always truthy. */
  predicate FieldTruthy(v: FieldValue) {
    match v
    case Text(s) => s != ""
    case Flag(b) => b
    case Items(_) => true
  }

  /**
   * `parseDateValue(value)`: `null` for a falsy value, else `Date.parse` of
   * its string form (a list renders its items joined with `,`), `null` for NaN.
   */
  function ParseDateValue(value: FieldValue, dateMs: string -> Option<int>): (r: Option<int>)
    ensures !FieldTruthy(value) ==> r.None?
    ensures value.Text? && value.s != "" ==> r == dateMs(value.s)
  {
    if !FieldTruthy(value) then None
    else
      match value
      case Text(s) => dateMs(s)
      case Flag(_) => dateMs("true")
      case Items(xs) => dateMs(Join(xs, ","))
  }

  /** An event after `normalizeEvent`; the fields the source leaves `undefined` are `None`. */
  datatype Event = Event(
    id: string,
    name: FieldValue,
    description: FieldValue,
    date: FieldValue,
    location: FieldValue,
    eventType: FieldValue,
    image: Option<FieldValue>,
    color: FieldValue,
    time: FieldValue,
    organizer: FieldValue,
    contact: FieldValue,
    phone: Option<FieldValue>,
    capacity: Option<FieldValue>,
    registration: Option<FieldValue>,
    published: FieldValue,
    details: FieldValue,
    highlights: seq<string>,
    requirements: Option<FieldValue>)

  /** `frontmatter[key] ?? fallback`: parsed frontmatter never holds `null`, so only a missing key falls back. */
  function Field(data: map<string, FieldValue>, key: string, fallback: FieldValue): FieldValue {
    if key in data then data[key] else fallback
  }

  function Optional(data: map<string, FieldValue>, key: string): Option<FieldValue> {
    if key in data then Some(data[key]) else None
  }

  /** `frontmatter.details || body || frontmatter.description || ""` */
  function Details(data: map<string, FieldValue>, body: string): (r: FieldValue)
    ensures FieldTruthy(r) <==> ("details" in data && FieldTruthy(data["details"])) || body != "" || ("description" in data && FieldTruthy(data["description"]))
    ensures !FieldTruthy(r) ==> r == Text("")
    ensures "details" in data && FieldTruthy(data["details"]) ==> r == data["details"]
  {
    if "details" in data && FieldTruthy(data["details"]) then data["details"]
    else if body != "" then Text(body)
    else if "description" in data && FieldTruthy(data["description"]) then data["description"]
    else Text("")
  }

  /** `normalizeEvent(frontmatter, body, id)` */
  function NormalizeEvent(data: map<string, FieldValue>, body: string, id: string): (e: Event)
    ensures e.id == id
    ensures "name" !in data ==> e.name == Text("Untitled Event")
    ensures "type" !in data ==> e.eventType == Text("Social")
    ensures "color" !in data ==> e.color == Text("from-igsa-blue to-igsa-green")
    ensures "published" !in data ==> e.published == Flag(true)
    ensures "highlights" in data && data["highlights"].Items? ==> e.highlights == data["highlights"].items
    ensures !("highlights" in data && data["highlights"].Items?) ==> e.highlights == []
  {
    Event(
      id := id,
      name := Field(data, "name", Text("Untitled Event")),
      description := Field(data, "description", Text("")),
      date := Field(data, "date", Text("")),
      location := Field(data, "location", Text("")),
      eventType := Field(data, "type", Text("Social")),
      image := Optional(data, "image"),
      color := Field(data, "color", Text("from-igsa-blue to-igsa-green")),
      time := Field(data, "time", Text("")),
      organizer := Field(data, "organizer", Text("")),
      contact := Field(data, "contact", Text("")),
      phone := Optional(data, "phone"),
      capacity := Optional(data, "capacity"),
      registration := Optional(data, "registration"),
      published := Field(data, "published", Flag(true)),
      details := Details(data, body),
      highlights := if "highlights" in data && data["highlights"].Items? then data["highlights"].items else [],
      requirements := Optional(data, "requirements"))
  }

  /**
   * An event keeps every field its frontmatter gives (under the source's
   * name: `type` becomes `eventType`), and a non-empty body is never lost:
   * the details are then the frontmatter's own details or the body.
   */
  lemma NormalizeEventKeeps(data: map<string, FieldValue>, body: string, id: string)
    ensures var e := NormalizeEvent(data, body, id);
      && ("name" in data ==> e.name == data["name"])
      && ("date" in data ==> e.date == data["date"])
      && ("type" in data ==> e.eventType == data["type"])
      && ("published" in data ==> e.published == data["published"])
      && ("image" in data <==> e.image.Some?)
      && (body != "" ==> FieldTruthy(e.details) && (e.details == Text(body) || e.details == data["details"]))
  {
  }

  /** `event.published !== false` */
  predicate Listed(e: Event) { e.published != Flag(false) }

  /** The sort key: `parseDateValue(e.date) ?? 0`. */
  function DateKey(dateMs: string -> Option<int>): Event -> int {
    (e: Event) => match ParseDateValue(e.date, dateMs) case Some(t) => t case None => 0
  }

  /** Reading, parsing and normalising one manifest entry: `None` when it is skipped. */
  function EventOf(name: string, sources: seq<Source>, primary: nat, cacheBuster: int,
                   getText: string -> Option<string>): (r: Option<Event>)
    requires primary < |sources|
    ensures !EndsWith(name, ".md") ==> r.None?
    ensures FirstText(OrderedSources(sources, primary), 0, name, cacheBuster, getText).Err? ==> r.None?
    ensures r.Some? ==> Listed(r.value) && r.value.id == ReplaceFirst(name, ".md", "")
  {
    if !EndsWith(name, ".md") then None
    else
      match FirstText(OrderedSources(sources, primary), 0, name, cacheBuster, getText)
      case Err(_) => None
      case Ok(markdown) =>
        var parsed := Frontmatter(markdown);
        var e := NormalizeEvent(parsed.0, parsed.1, ReplaceFirst(name, ".md", ""));
        if Listed(e) then Some(e) else None
  }

  /** Every manifest entry is a string. */
  predicate AllStrings(files: seq<Value>) {
    forall j :: 0 <= j < |files| ==> files[j].Str?
  }

  /** The per-file step of `loadEvents()` as a function of the file name. */
  function Reader(sources: seq<Source>, primary: nat, cacheBuster: int, getText: string -> Option<string>): string -> Option<Event>
    requires primary < |sources|
  {
    name => EventOf(name, sources, primary, cacheBuster, getText)
  }

  /** The events `read` yields for the first `n` manifest entries, all of them strings, in manifest order. */
  function Collected(files: seq<Value>, n: nat, read: string -> Option<Event>): seq<Event>
    requires n <= |files|
    requires forall j :: 0 <= j < n ==> files[j].Str?
  {
    if n == 0 then []
    else Collected(files, n - 1, read) + (match read(files[n - 1].s) case Some(e) => [e] case None => [])
  }

  /** The events read through the manifest `files` served by `sources[primary]`, newest first. */
  function Loaded(files: seq<Value>, sources: seq<Source>, primary: nat, cacheBuster: int,
                  getText: string -> Option<string>, dateMs: string -> Option<int>): seq<Event>
    requires primary < |sources| && AllStrings(files)
  {
    SortDesc(Collected(files, |files|, Reader(sources, primary, cacheBuster, getText)), DateKey(dateMs))
  }

  /**
   * What `loadEvents()` resolves to: `[]` when no manifest can be read, and
   * also when an entry of the manifest is not a string (its `endsWith`
   * throws outside the per-file `try`); otherwise the collected events,
   * newest first.
   */
  function Events(hostname: Option<string>, cacheBuster: int, getJson: string -> Option<Value>,
                  getText: string -> Option<string>, dateMs: string -> Option<int>): seq<Event>
  {
    var sources := PreferredSources(hostname);
    match FirstManifest(sources, 0, cacheBuster, getJson)
    case Err(_) => []
    case Ok(m) =>
      FirstManifestFound(sources, 0, cacheBuster, getJson);
      if !AllStrings(m.files) then []
      else Loaded(m.files, sources, m.sourceIndex, cacheBuster, getText, dateMs)
  }

  /** The body of the per-file `try` in `loadEvents()` for a string entry. */
  method LoadEntry(name: string, sources: seq<Source>, primary: nat, cacheBuster: int,
                   getText: string -> Option<string>) returns (e: Option<Event>)
    requires primary < |sources|
    ensures e == EventOf(name, sources, primary, cacheBuster, getText)
  {
    if !EndsWith(name, ".md") {
      return None;
    }
    var markdown := FetchEventFile(name, sources, primary, cacheBuster, getText);
    if markdown.Err? {
      return None;
    }
    var data, body := ParseFrontmatter(markdown.value);
    var event := NormalizeEvent(data, body, ReplaceFirst(name, ".md", ""));
    if Listed(event) {
      return Some(event);
    }
    return None;
  }

  /**
   * The loop of `loadEvents()` over the manifest entries, with the per-file
   * step `read`: `None` when an entry is not a string (its `endsWith` is not
   * a function and the outer `catch` answers `[]`), else what `read` yields
   * for the entries, in manifest order.
   */
  method CollectEvents(files: seq<Value>, read: string -> Option<Event>) returns (r: Option<seq<Event>>)
    ensures r.None? <==> !AllStrings(files)
    ensures r.Some? ==> r.value == Collected(files, |files|, read)
  {
    var events := [];
    var i := 0;
    while i < |files|
      invariant 0 <= i <= |files|
      invariant forall j :: 0 <= j < i ==> files[j].Str?
      invariant events == Collected(files, i, read)
    {
      if !files[i].Str? {
        return None;
      }
      var e := read(files[i].s);
      if e.Some? {
        events := events + [e.value];
      }
      i := i + 1;
    }
    return Some(events);
  }

  /** `loadEvents()` */
  method LoadEvents(hostname: Option<string>, cacheBuster: int, getJson: string -> Option<Value>,
                    getText: string -> Option<string>, dateMs: string -> Option<int>) returns (events: seq<Event>)
    ensures events == Events(hostname, cacheBuster, getJson, getText, dateMs)
  {
    var sources := PreferredSources(hostname);
    var manifest := LoadManifest(sources, cacheBuster, getJson);
    if manifest.Err? {
      return [];
    }
    FirstManifestFound(sources, 0, cacheBuster, getJson);
    var collected := CollectEvents(manifest.value.files, Reader(sources, manifest.value.sourceIndex, cacheBuster, getText));
    if collected.None? {
      return [];
    }
    events := SortDesc(collected.value, DateKey(dateMs));
  }

  // ---------------------------------------------------------------- properties of loadEvents

  /** Every collected event is what `read` yields for one of the entries. */
  lemma {:induction false} CollectedFrom(files: seq<Value>, n: nat, read: string -> Option<Event>)
    requires n <= |files|
    requires forall j :: 0 <= j < n ==> files[j].Str?
    ensures forall k :: 0 <= k < |Collected(files, n, read)| ==>
      exists j :: 0 <= j < n && read(files[j].s) == Some(Collected(files, n, read)[k])
  {
    if n > 0 {
      CollectedFrom(files, n - 1, read);
      var before := Collected(files, n - 1, read);
      var r := Collected(files, n, read);
      forall k | 0 <= k < |Collected(files, n, read)|
        ensures exists j :: 0 <= j < n && read(files[j].s) == Some(Collected(files, n, read)[k])
      {
        if k < |before| {
          assert r[k] == before[k];
          var j :| 0 <= j < n - 1 && read(files[j].s) == Some(before[k]);
          assert 0 <= j < n && read(files[j].s) == Some(r[k]);
        } else {
          assert 0 <= n - 1 < n && read(files[n - 1].s) == Some(r[k]);
        }
      }
    } else {
      assert Collected(files, n, read) == [];
    }
  }

  /** `loadEvents()` answers `[]` when no source serves a manifest array or an entry of the manifest is not a string. */
  lemma EventsEmpty(hostname: Option<string>, cacheBuster: int, getJson: string -> Option<Value>,
                    getText: string -> Option<string>, dateMs: string -> Option<int>)
    ensures var m := FirstManifest(PreferredSources(hostname), 0, cacheBuster, getJson);
      m.Err? || !AllStrings(m.value.files) ==> Events(hostname, cacheBuster, getJson, getText, dateMs) == []
  {
  }

  /**
   * Otherwise it answers the collected events re-ordered newest first (an
   * event without a readable date counts as time 0), events of equal date
   * keeping manifest order.
   */
  lemma EventsOrder(hostname: Option<string>, cacheBuster: int, getJson: string -> Option<Value>,
                    getText: string -> Option<string>, dateMs: string -> Option<int>)
    ensures var sources := PreferredSources(hostname);
      var m := FirstManifest(sources, 0, cacheBuster, getJson);
      var r := Events(hostname, cacheBuster, getJson, getText, dateMs);
      m.Ok? && m.value.sourceIndex < |sources| && AllStrings(m.value.files) ==>
        var collected := Collected(m.value.files, |m.value.files|, Reader(sources, m.value.sourceIndex, cacheBuster, getText));
        && multiset(r) == multiset(collected)
        && SortedDesc(r, DateKey(dateMs))
        && (forall k :: WithKey(r, DateKey(dateMs), k) == WithKey(collected, DateKey(dateMs), k))
  {
    var sources := PreferredSources(hostname);
    var m := FirstManifest(sources, 0, cacheBuster, getJson);
    if m.Ok? && m.value.sourceIndex < |sources| && AllStrings(m.value.files) {
      var collected := Collected(m.value.files, |m.value.files|, Reader(sources, m.value.sourceIndex, cacheBuster, getText));
      assert Events(hostname, cacheBuster, getJson, getText, dateMs) == SortDesc(collected, DateKey(dateMs));
      SortDescCorrect(collected, DateKey(dateMs));
    }
  }

  /** What the per-file step yields is published and named after its `.md` file. */
  lemma ReaderListed(name: string, sources: seq<Source>, primary: nat, cacheBuster: int,
                     getText: string -> Option<string>, e: Event)
    requires primary < |sources|
    requires Reader(sources, primary, cacheBuster, getText)(name) == Some(e)
    ensures Listed(e) && EndsWith(name, ".md") && e.id == ReplaceFirst(name, ".md", "")
  {
    assert EventOf(name, sources, primary, cacheBuster, getText) == Some(e);
  }

  /** The sorted collection holds only published events named after `.md` entries. */
  lemma SortedListed(files: seq<Value>, sources: seq<Source>, primary: nat, cacheBuster: int,
                     getText: string -> Option<string>, dateMs: string -> Option<int>)
    requires primary < |sources| && AllStrings(files)
    ensures forall k :: 0 <= k < |Loaded(files, sources, primary, cacheBuster, getText, dateMs)| ==>
      && Listed(Loaded(files, sources, primary, cacheBuster, getText, dateMs)[k])
      && exists j :: 0 <= j < |files| && EndsWith(files[j].s, ".md")
           && Loaded(files, sources, primary, cacheBuster, getText, dateMs)[k].id == ReplaceFirst(files[j].s, ".md", "")
  {
    var read := Reader(sources, primary, cacheBuster, getText);
    var collected := Collected(files, |files|, read);
    var r := Loaded(files, sources, primary, cacheBuster, getText, dateMs);
    SortDescCorrect(collected, DateKey(dateMs));
    CollectedFrom(files, |files|, read);
    forall k | 0 <= k < |r|
      ensures && Listed(r[k])
              && exists j :: 0 <= j < |files| && EndsWith(files[j].s, ".md") && r[k].id == ReplaceFirst(files[j].s, ".md", "")
    {
      assert r[k] in multiset(collected);
      var i :| 0 <= i < |collected| && collected[i] == r[k];
      var j :| 0 <= j < |files| && read(files[j].s) == Some(r[k]);
      ReaderListed(files[j].s, sources, primary, cacheBuster, getText, r[k]);
    }
  }

  /** Every event `loadEvents()` answers is published and named after a `.md` entry of the manifest. */
  lemma EventsListed(hostname: Option<string>, cacheBuster: int, getJson: string -> Option<Value>,
                     getText: string -> Option<string>, dateMs: string -> Option<int>)
    ensures var m := FirstManifest(PreferredSources(hostname), 0, cacheBuster, getJson);
      var r := Events(hostname, cacheBuster, getJson, getText, dateMs);
      forall k :: 0 <= k < |r| ==>
        && Listed(r[k])
        && exists j :: 0 <= j < |m.value.files| && EndsWith(m.value.files[j].s, ".md") && r[k].id == ReplaceFirst(m.value.files[j].s, ".md", "")
  {
    var sources := PreferredSources(hostname);
    var m := FirstManifest(sources, 0, cacheBuster, getJson);
    if m.Ok? && AllStrings(m.value.files) {
      EventsLoaded(hostname, cacheBuster, getJson, getText, dateMs);
      SortedListed(m.value.files, sources, m.value.sourceIndex, cacheBuster, getText, dateMs);
    } else {
      EventsEmpty(hostname, cacheBuster, getJson, getText, dateMs);
    }
  }

  /** With a manifest of names, the events are those loaded from the manifest's source first. */
  lemma EventsLoaded(hostname: Option<string>, cacheBuster: int, getJson: string -> Option<Value>,
                     getText: string -> Option<string>, dateMs: string -> Option<int>)
    requires FirstManifest(PreferredSources(hostname), 0, cacheBuster, getJson).Ok?
    requires AllStrings(FirstManifest(PreferredSources(hostname), 0, cacheBuster, getJson).value.files)
    ensures var sources := PreferredSources(hostname);
      var m := FirstManifest(sources, 0, cacheBuster, getJson).value;
      m.sourceIndex < |sources|
      && Events(hostname, cacheBuster, getJson, getText, dateMs) == Loaded(m.files, sources, m.sourceIndex, cacheBuster, getText, dateMs)
  {
    FirstManifestFound(PreferredSources(hostname), 0, cacheBuster, getJson);
  }

}
