/**
 * The event pipeline that server/routes/events.ts and
 * netlify/functions/events.ts share after parsing: the `.md` file filter,
 * the record `{id, details, ...frontmatter}`, the `published !== false`
 * filter and the sort by `new Date(date)`, newest first.
 *
 * `Date` parsing is a parameter: `dateMs(text)` is the time value of
 * `new Date(text)`, `None` when it is NaN. The file system is one too:
 * `readFile(name)` is the file's text, `None` when `readFileSync` throws.
 */
module EventRecords {
  import opened Outcomes
  import opened JsText
  import opened JsValue
  import opened StableSort
  import opened StrictFrontmatter
  import opened EventsFrontmatter

  /** An event as the handlers send it: a JSON object. */
  type Record = map<string, Value>

  /** `files.filter(f => f.endsWith(".md"))`, in directory order. */
  function MdFiles(names: seq<string>): (files: seq<string>)
    ensures forall f :: f in files <==> f in names && EndsWith(f, ".md")
    ensures |files| <= |names|
  {
    if names == [] then []
    else (if EndsWith(names[0], ".md") then [names[0]] else []) + MdFiles(names[1..])
  }

  /**
   * `{id: file.replace(".md", ""), details: content, ...frontmatter}`: the
   * spread comes last, so frontmatter keys `id` and `details` win.
   */
  function EventRecord(file: string, parsed: Parsed): (r: Record)
    ensures "id" in r && "details" in r
    ensures forall k :: k in parsed.frontmatter ==> k in r && r[k] == Str(parsed.frontmatter[k])
    ensures "id" !in parsed.frontmatter ==> r["id"] == Str(ReplaceFirst(file, ".md", ""))
    ensures "details" !in parsed.frontmatter ==> r["details"] == Str(parsed.content)
    ensures forall k :: k in r ==> k in parsed.frontmatter || k == "id" || k == "details"
    ensures forall k :: k in r ==> r[k].Str?
  {
    var fm := parsed.frontmatter;
    map["id" := Str(ReplaceFirst(file, ".md", "")), "details" := Str(parsed.content)]
      + map k | k in fm :: Str(fm[k])
  }

  /** `event.published !== false` */
  predicate NotUnpublished(r: Record) {
    !("published" in r && r["published"] == Bool(false))
  }

  /** `.filter(event => event.published !== false)`, in order. */
  function KeepPublished(records: seq<Record>): (kept: seq<Record>)
    ensures forall r :: r in kept <==> r in records && NotUnpublished(r)
    ensures |kept| <= |records|
  {
    if records == [] then []
    else (if NotUnpublished(records[0]) then [records[0]] else []) + KeepPublished(records[1..])
  }

  /**
   * The records built by the parser hold strings only, so the filter never
   * removes one: a `published: false` line throws inside the parser instead.
   */
  lemma {:induction false} KeepPublishedKeepsStrings(records: seq<Record>)
    requires forall i, k :: 0 <= i < |records| && k in records[i] ==> records[i][k].Str?
    ensures KeepPublished(records) == records
    decreases |records|
  {
    if records != [] {
      assert NotUnpublished(records[0]);
      KeepPublishedKeepsStrings(records[1..]);
    }
  }

  /** The record has a date that `new Date` accepts. */
  predicate Dated(r: Record, dateMs: string -> Option<int>) {
    "date" in r && r["date"].Str? && dateMs(r["date"].s).Some?
  }

  predicate AllDated(records: seq<Record>, dateMs: string -> Option<int>) {
    forall i :: 0 <= i < |records| ==> Dated(records[i], dateMs)
  }

  /** `new Date(r.date).getTime()` for a dated record. */
  function DateKey(dateMs: string -> Option<int>): Record -> int {
    (r: Record) => if Dated(r, dateMs) then dateMs(r["date"].s).value else 0
  }

  /**
   * `.sort((a, b) => new Date(b.date).getTime() - new Date(a.date).getTime())`.
   * When every record is dated the comparator is consistent and the stable
   * sort is determined; otherwise it answers NaN for some pairs and the order
   * is the engine's choice, which this model does not fix: it keeps the input order.
   */
  function SortByDate(records: seq<Record>, dateMs: string -> Option<int>): seq<Record> {
    if AllDated(records, dateMs) then SortDesc(records, DateKey(dateMs)) else records
  }

  /** The sort returns the same events; when all are dated, newest first, ties in input order. */
  lemma SortByDateCorrect(records: seq<Record>, dateMs: string -> Option<int>)
    ensures multiset(SortByDate(records, dateMs)) == multiset(records)
    ensures AllDated(records, dateMs) ==>
      var sorted := SortByDate(records, dateMs);
      && (forall i, j :: 0 <= i < j < |sorted| ==> DateKey(dateMs)(sorted[i]) >= DateKey(dateMs)(sorted[j]))
      && (forall t :: WithKey(sorted, DateKey(dateMs), t) == WithKey(records, DateKey(dateMs), t))
  {
    SortDescCorrect(records, DateKey(dateMs));
  }

  /** The response: `200` with the events, or `500` with `{error: "Failed to load events"}`. */
  datatype Response = Events(events: seq<Record>) | Failure(error: string)

  function Status(r: Response): int {
    if r.Events? then 200 else 500
  }

  const LoadFailure: string := "Failed to load events"

  /** The events directory as the handlers find it. */
  datatype Directory =
    | Missing                   // `existsSync` is false
    | Unlistable                // `readdirSync` throws
    | Listing(names: seq<string>)

  /** One file's record, or what reading or parsing it throws. */
  function LoadFile(file: string, readFile: string -> Option<string>, jsonValid: string -> bool): (r: Result<Record>)
    ensures r.Ok? ==> readFile(file).Some? && Frontmatter(readFile(file).value, SplitLine, Coercion(jsonValid)).Ok?
    ensures r.Ok? ==> forall k :: k in r.value ==> r.value[k].Str?
  {
    match readFile(file)
    case None => Err(Error("cannot read " + file))
    case Some(markdown) =>
      match Frontmatter(markdown, SplitLine, Coercion(jsonValid))
      case Err(e) => Err(e)
      case Ok(parsed) => Ok(EventRecord(file, parsed))
  }
}
