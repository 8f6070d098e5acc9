/**
 * `handleGetEvents` of server/routes/events.ts: every `.md` file of the
 * events directory is read and parsed inside one `map`, with no catch of its
 * own, so a single file that cannot be read or parsed turns the whole
 * response into a 500. A missing directory answers `[]`.
 */
module ServerEvents {
  import opened Outcomes
  import opened JsValue
  import opened EventRecords

  /** `files.map(...)`: every record in file order, or the first exception. */
  function LoadAll(files: seq<string>, readFile: string -> Option<string>, jsonValid: string -> bool): (r: Result<seq<Record>>)
    ensures r.Ok? <==> forall i :: 0 <= i < |files| ==> LoadFile(files[i], readFile, jsonValid).Ok?
    ensures r.Ok? ==> |r.value| == |files|
    ensures r.Ok? ==> forall i :: 0 <= i < |files| ==> r.value[i] == LoadFile(files[i], readFile, jsonValid).value
    ensures r.Err? ==> exists i :: 0 <= i < |files| && LoadFile(files[i], readFile, jsonValid) == Err(r.error)
                                   && forall j :: 0 <= j < i ==> LoadFile(files[j], readFile, jsonValid).Ok?
  {
    var load := (file: string, j: nat) => LoadFile(file, readFile, jsonValid);
    assert forall i :: 0 <= i < |files| ==> load(files[i], 0 + i) == LoadFile(files[i], readFile, jsonValid);
    MapThrowing(files, 0, load)
  }

  /** The handler's answer for a directory state. */
  function HandleGetEvents(dir: Directory, readFile: string -> Option<string>, jsonValid: string -> bool,
                           dateMs: string -> Option<int>): Response
  {
    match dir
    case Missing => Events([])
    case Unlistable => Failure(LoadFailure)
    case Listing(names) =>
      match LoadAll(MdFiles(names), readFile, jsonValid)
      case Err(_) => Failure(LoadFailure)
      case Ok(records) => Events(SortByDate(KeepPublished(records), dateMs))
  }

  /**
   * A missing directory answers 200 with no events; a directory that cannot
   * be listed answers 500. A listed one answers 200 exactly when every `.md`
   * file loads, and 500 otherwise.
   */
  lemma HandleGetEventsStatus(names: seq<string>, readFile: string -> Option<string>, jsonValid: string -> bool,
                              dateMs: string -> Option<int>)
    ensures HandleGetEvents(Missing, readFile, jsonValid, dateMs) == Events([])
    ensures HandleGetEvents(Unlistable, readFile, jsonValid, dateMs) == Failure(LoadFailure)
    ensures HandleGetEvents(Listing(names), readFile, jsonValid, dateMs).Events? ==>
      forall i :: 0 <= i < |MdFiles(names)| ==> LoadFile(MdFiles(names)[i], readFile, jsonValid).Ok?
    ensures (forall i :: 0 <= i < |MdFiles(names)| ==> LoadFile(MdFiles(names)[i], readFile, jsonValid).Ok?) ==>
      HandleGetEvents(Listing(names), readFile, jsonValid, dateMs).Events?
    ensures HandleGetEvents(Listing(names), readFile, jsonValid, dateMs).Failure? ==>
      HandleGetEvents(Listing(names), readFile, jsonValid, dateMs).error == LoadFailure
  {
    var loaded := LoadAll(MdFiles(names), readFile, jsonValid);
    if loaded.Ok? {
      assert HandleGetEvents(Listing(names), readFile, jsonValid, dateMs).Events?;
    } else {
      assert HandleGetEvents(Listing(names), readFile, jsonValid, dateMs) == Failure(LoadFailure);
    }
  }

  /**
   * When every `.md` file loads, the events are those records, one per file
   * (the `published` filter removes none), sorted newest first when all are dated.
   */
  lemma HandleGetEventsContents(names: seq<string>, readFile: string -> Option<string>, jsonValid: string -> bool,
                                dateMs: string -> Option<int>)
    requires LoadAll(MdFiles(names), readFile, jsonValid).Ok?
    ensures var response := HandleGetEvents(Listing(names), readFile, jsonValid, dateMs);
      && response.Events?
      && |response.events| == |MdFiles(names)|
      && multiset(response.events) == multiset(LoadAll(MdFiles(names), readFile, jsonValid).value)
    ensures var response := HandleGetEvents(Listing(names), readFile, jsonValid, dateMs);
      AllDated(LoadAll(MdFiles(names), readFile, jsonValid).value, dateMs) ==>
        forall i, j :: 0 <= i < j < |response.events| ==>
          DateKey(dateMs)(response.events[i]) >= DateKey(dateMs)(response.events[j])
  {
    var files := MdFiles(names);
    var records: seq<Record> := LoadAll(files, readFile, jsonValid).value;
    forall i: int, k: string | 0 <= i < |records| && k in records[i]
      ensures records[i][k].Str?
    {
      assert records[i] == LoadFile(files[i], readFile, jsonValid).value;
    }
    KeepPublishedKeepsStrings(records);
    SortByDateCorrect(records, dateMs);
    var events := SortByDate(records, dateMs);
    assert |events| == |records| by {
      assert |multiset(events)| == |events| && |multiset(records)| == |records|;
    }
    assert HandleGetEvents(Listing(names), readFile, jsonValid, dateMs) == Events(events);
  }
}
