/**
 * `handler` of netlify/functions/events.ts: the same pipeline as the
 * Express route, but each file is read and parsed inside its own
 * try/catch, so a file that fails becomes `null` and is filtered out with
 * the unpublished ones. Only a failure outside the per-file work (listing
 * the directory) gives a 500; a missing directory gives 200 with `[]`.
 */
module NetlifyEvents {
  import opened Outcomes
  import opened JsValue
  import opened EventRecords
  import ServerEvents

  /** The files whose read and parse succeed, in file order. */
  function Loadable(files: seq<string>, readFile: string -> Option<string>, jsonValid: string -> bool): (ok: seq<string>)
    ensures |ok| <= |files|
    ensures forall f :: f in ok <==> f in files && LoadFile(f, readFile, jsonValid).Ok?
    decreases |files|
  {
    if files == [] then []
    else
      (if LoadFile(files[0], readFile, jsonValid).Ok? then [files[0]] else [])
        + Loadable(files[1..], readFile, jsonValid)
  }

  /**
   * `files.map(f => { try { … } catch { return null } })` followed by the
   * `!== null` filter: the records of the files that load, in file order.
   */
  function Survivors(files: seq<string>, readFile: string -> Option<string>, jsonValid: string -> bool): (kept: seq<Record>)
    ensures var ok := Loadable(files, readFile, jsonValid);
      |kept| == |ok| && forall j :: 0 <= j < |ok| ==> LoadFile(ok[j], readFile, jsonValid) == Ok(kept[j])
  {
    var ok := Loadable(files, readFile, jsonValid);
    seq(|ok|, j requires 0 <= j < |ok| => LoadFile(ok[j], readFile, jsonValid).value)
  }

  /** The handler's answer for a directory state. */
  function Handler(dir: Directory, readFile: string -> Option<string>, jsonValid: string -> bool,
                   dateMs: string -> Option<int>): Response
  {
    match dir
    case Missing => Events([])
    case Unlistable => Failure(LoadFailure)
    case Listing(names) => Events(SortByDate(KeepPublished(Survivors(MdFiles(names), readFile, jsonValid)), dateMs))
  }

  /** When every file loads, none is dropped. */
  lemma {:induction false} LoadableAll(files: seq<string>, readFile: string -> Option<string>, jsonValid: string -> bool)
    requires forall i :: 0 <= i < |files| ==> LoadFile(files[i], readFile, jsonValid).Ok?
    ensures Loadable(files, readFile, jsonValid) == files
    decreases |files|
  {
    if files != [] {
      var rest := files[1..];
      assert forall i :: 0 <= i < |rest| ==> LoadFile(rest[i], readFile, jsonValid).Ok? by {
        forall i | 0 <= i < |rest|
          ensures LoadFile(rest[i], readFile, jsonValid).Ok?
        {
          assert rest[i] == files[i + 1];
        }
      }
      LoadableAll(rest, readFile, jsonValid);
      assert LoadFile(files[0], readFile, jsonValid).Ok?;
      assert Loadable(files, readFile, jsonValid) == [files[0]] + rest;
      assert [files[0]] + rest == files;
    }
  }

  /**
   * A listed directory always answers 200. Its events are the records of the
   * `.md` files that load, each once (the `published` filter removes none);
   * a file that fails is left out. Where the Express route answers 200, the
   * two handlers give the same events.
   */
  lemma HandlerListing(names: seq<string>, readFile: string -> Option<string>, jsonValid: string -> bool,
                       dateMs: string -> Option<int>)
    ensures Handler(Listing(names), readFile, jsonValid, dateMs).Events?
    ensures multiset(Handler(Listing(names), readFile, jsonValid, dateMs).events)
         == multiset(Survivors(MdFiles(names), readFile, jsonValid))
    ensures ServerEvents.HandleGetEvents(Listing(names), readFile, jsonValid, dateMs).Events? ==>
      Handler(Listing(names), readFile, jsonValid, dateMs) == ServerEvents.HandleGetEvents(Listing(names), readFile, jsonValid, dateMs)
  {
    var files := MdFiles(names);
    var kept: seq<Record> := Survivors(files, readFile, jsonValid);
    SurvivorsAreStrings(files, readFile, jsonValid);
    KeepPublishedKeepsStrings(kept);
    SortByDateCorrect(kept, dateMs);
    assert Handler(Listing(names), readFile, jsonValid, dateMs) == Events(SortByDate(kept, dateMs));
    var loaded := ServerEvents.LoadAll(files, readFile, jsonValid);
    if loaded.Ok? {
      assert kept == loaded.value by {
        LoadableAll(files, readFile, jsonValid);
      }
    }
  }

  /** Every value of every surviving record is a string. */
  lemma SurvivorsAreStrings(files: seq<string>, readFile: string -> Option<string>, jsonValid: string -> bool)
    ensures var kept := Survivors(files, readFile, jsonValid);
      forall i: int, k: string :: 0 <= i < |kept| && k in kept[i] ==> kept[i][k].Str?
  {
    var kept: seq<Record> := Survivors(files, readFile, jsonValid);
    var ok := Loadable(files, readFile, jsonValid);
    forall i: int, k: string | 0 <= i < |kept| && k in kept[i]
      ensures kept[i][k].Str?
    {
      assert LoadFile(ok[i], readFile, jsonValid) == Ok(kept[i]);
    }
  }

  /** A missing directory answers 200 with no events; one that cannot be listed answers 500. */
  lemma HandlerDirectory(readFile: string -> Option<string>, jsonValid: string -> bool, dateMs: string -> Option<int>)
    ensures Handler(Missing, readFile, jsonValid, dateMs) == Events([])
    ensures Status(Handler(Missing, readFile, jsonValid, dateMs)) == 200
    ensures Handler(Unlistable, readFile, jsonValid, dateMs) == Failure(LoadFailure)
    ensures Status(Handler(Unlistable, readFile, jsonValid, dateMs)) == 500
  {
  }
}
