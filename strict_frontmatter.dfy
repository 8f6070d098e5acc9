/**
 * What client/lib/utils.ts, server/routes/events.ts and
 * netlify/functions/events.ts have in common: the strict frontmatter pattern
 * `^---\n([\s\S]*?)\n---\n([\s\S]*)$` (the text must open with a `---`
 * line, the frontmatter runs up to the FIRST following line that is exactly
 * `---`, and everything after that line is the body, untouched), the
 * `forEach` that stores one key per line, and the value tests of their
 * coercion chains.
 *
 * The three parsers differ only in how a line is cut into key and value
 * (`split`) and in what their chain of value conversions stores or throws
 * (`coerce`); both are parameters of the fold here.
 */
module StrictFrontmatter {
  import opened Outcomes
  import opened JsText

  const Open: string := "---\n"
  const Close: string := "\n---\n"

  /** The two capture groups of a successful match, `None` when the pattern does not match. */
  function SplitFence(markdown: string): (r: Option<(string, string)>)
    ensures r.Some? ==> markdown == Open + r.value.0 + Close + r.value.1
    ensures r.Some? ==> IndexOf(r.value.0 + Close, Close) == |r.value.0|
  {
    if !StartsWith(markdown, Open) then None
    else
      var p := IndexOfFrom(markdown, Close, 4);
      if p == -1 then None
      else
        var f := markdown[4..p];
        assert markdown == Open + f + Close + markdown[p + 5..] by {
          assert markdown[..4] == Open;
          assert markdown[p..p + 5] == Close;
        }
        FirstCloseInFront(markdown, p);
        Some((f, markdown[p + 5..]))
  }

  lemma FirstCloseInFront(markdown: string, p: nat)
    requires 4 <= p && p + 5 <= |markdown| && OccursAt(markdown, Close, p)
    requires forall j :: 4 <= j < p ==> !OccursAt(markdown, Close, j)
    ensures IndexOf(markdown[4..p] + Close, Close) == p - 4
  {
    var t := markdown[4..p] + Close;
    var u := markdown[4..p + 5];
    assert |Close| == 5;
    assert t == u by {
      assert markdown[p..p + 5] == Close;
    }
    assert OccursAt(t, Close, p - 4) by {
      assert u[p - 4..p + 1] == markdown[p..p + 5];
    }
    forall j | 0 <= j < p - 4
      ensures !OccursAt(t, Close, j)
    {
      assert !OccursAt(markdown, Close, 4 + j);
      assert u[j..j + 5] == markdown[4 + j..4 + j + 5];
    }
  }

  /**
   * Framing a frontmatter text and a body gives both back, provided the
   * frontmatter does not itself contain a line that is exactly `---`
   * (the first `\n---\n` in `f + "\n---\n"` is the appended one).
   */
  lemma FenceRoundTrip(f: string, body: string)
    requires IndexOf(f + Close, Close) == |f|
    ensures SplitFence(Open + f + Close + body) == Some((f, body))
  {
    var s := Open + f + Close + body;
    var t := f + Close;
    assert StartsWith(s, Open);
    assert s[4..4 + |f| + 5] == t;
    assert OccursAt(s, Close, 4 + |f|);
    forall j | 4 <= j < 4 + |f|
      ensures !OccursAt(s, Close, j)
    {
      assert !OccursAt(t, Close, j - 4);
      assert s[j..j + 5] == t[j - 4..j + 1];
    }
    var p := IndexOfFrom(s, Close, 4);
    assert p == 4 + |f|;
    assert s[4..p] == f;
    assert s[p + 5..] == body;
  }

  /**
   * A sufficient condition for the proviso of `FenceRoundTrip`: every line
   * break inside `f` is followed by a character other than `-`, and `f` is
   * empty or does not end with a line break.
   */
  predicate NoDashAfterBreak(f: string) {
    forall j :: 0 <= j < |f| && f[j] == '\n' ==> j + 1 < |f| && f[j + 1] != '-'
  }

  /** In `f` followed by a closer that starts with a line break and a `-`, the first closer is the appended one. */
  lemma NoDashAfterBreakCloses(f: string, closer: string)
    requires NoDashAfterBreak(f)
    requires |closer| >= 2 && closer[0] == '\n' && closer[1] == '-'
    ensures IndexOf(f + closer, closer) == |f|
  {
    var t := f + closer;
    assert OccursAt(t, closer, |f|) by {
      assert t[|f|..|f| + |closer|] == closer;
    }
    forall j | 0 <= j < |f|
      ensures !OccursAt(t, closer, j)
    {
      if t[j] == '\n' {
        assert f[j] == '\n';
        assert t[j + 1] == f[j + 1];
      }
      if j + |closer| <= |t| {
        assert t[j..j + |closer|][0] == t[j];
        assert t[j..j + |closer|][1] == t[j + 1];
      }
    }
  }

  /** Lines that do not start with `-` and hold no line break, joined, satisfy `NoDashAfterBreak`. */
  lemma {:induction false} JoinedLinesNoDash(lines: seq<string>)
    requires forall k :: 0 <= k < |lines| ==> lines[k] != [] && lines[k][0] != '-' && '\n' !in lines[k]
    ensures NoDashAfterBreak(Join(lines, "\n"))
    decreases |lines|
  {
    if |lines| >= 2 {
      var rest := Join(lines[1..], "\n");
      JoinedLinesNoDash(lines[1..]);
      var f := Join(lines, "\n");
      assert f == lines[0] + "\n" + rest;
      assert rest != [] && rest[0] == lines[1][0] by {
        JoinHead(lines[1..], "\n");
      }
      forall j | 0 <= j < |lines[0]|
        ensures f[j] != '\n'
      {
        assert f[j] == lines[0][j];
        assert lines[0][j] in lines[0];
      }
      forall j | |lines[0]| < j < |f|
        ensures f[j] == rest[j - |lines[0]| - 1]
      {
      }
    } else if |lines| == 1 {
      assert Join(lines, "\n") == lines[0];
      forall j | 0 <= j < |lines[0]| ensures lines[0][j] != '\n' {
        assert lines[0][j] in lines[0];
      }
    }
  }

  lemma JoinHead(lines: seq<string>, sep: string)
    requires |lines| >= 1 && lines[0] != []
    ensures Join(lines, sep) != [] && Join(lines, sep)[0] == lines[0][0]
  {
  }

  /**
   * A document made of a `---` line, the given frontmatter lines and another
   * `---` line, followed by a body: when no line starts with `-` or holds a
   * line break, the pattern captures exactly those lines and that body.
   */
  lemma FramedLines(lines: seq<string>, body: string)
    requires |lines| >= 1
    requires forall k :: 0 <= k < |lines| ==> lines[k] != [] && lines[k][0] != '-' && '\n' !in lines[k]
    ensures SplitFence(Open + Join(lines, "\n") + Close + body) == Some((Join(lines, "\n"), body))
    ensures Split(Join(lines, "\n"), "\n") == lines
  {
    JoinedLinesNoDash(lines);
    NoDashAfterBreakCloses(Join(lines, "\n"), Close);
    FenceRoundTrip(Join(lines, "\n"), body);
    SplitJoin(lines, '\n');
  }

  // ---------------------------------------------------------------- value tests

  /** `!isNaN(Number(value)) && value !== ''`: the text converts to a number. */
  predicate IsNumericText(v: string) { v != "" && !NumberIsNaN(v) }

  /** `value.startsWith('[') && value.endsWith(']')` */
  predicate IsBracketed(v: string) { StartsWith(v, "[") && EndsWith(v, "]") }

  /** `value.slice(1, -1)` applied when the value starts and ends with a double quote. */
  function StripDoubleQuotes(v: string): (r: string)
    ensures !(StartsWith(v, "\"") && EndsWith(v, "\"")) ==> r == v
    ensures StartsWith(v, "\"") && EndsWith(v, "\"") ==> |r| == (if |v| >= 2 then |v| - 2 else 0)
  {
    if StartsWith(v, "\"") && EndsWith(v, "\"") then (if |v| >= 2 then v[1..|v| - 1] else "") else v
  }

  /** Quoting a text and stripping the quotes gives the text back. */
  lemma StripQuoted(s: string)
    ensures StripDoubleQuotes("\"" + s + "\"") == s
  {
    var q := "\"" + s + "\"";
    assert q[..1] == "\"" && q[|q| - 1..] == "\"";
    assert q[1..|q| - 1] == s;
  }

  /** A text that opens with a double quote is not a number, whatever follows. */
  lemma QuotedNotNumeric(q: string)
    requires q != [] && q[0] == '"'
    ensures !IsNumericText(q)
  {
    LeadingNonNumericNaN(q);
  }

  /** A value that opens with a double quote passes every test of the conversion chain. */
  lemma QuotedPasses(value: string)
    requires value != [] && value[0] == '"'
    ensures value != "true" && value != "false" && !IsNumericText(value) && !IsBracketed(value)
  {
    QuotedNotNumeric(value);
    assert value[0] != "true"[0] && value[0] != "false"[0] && value[0] != '[';
  }

  /** A text that opens with `[` is not a number, whatever follows. */
  lemma BracketedNotNumeric(value: string)
    requires value != [] && value[0] == '['
    ensures !IsNumericText(value)
  {
    LeadingNonNumericNaN(value);
  }

  // ---------------------------------------------------------------- the line fold

  /** The frontmatter record and the body of a document. */
  datatype Parsed = Parsed(frontmatter: map<string, string>, content: string)

  /** The line makes the parse throw: it has a key and its value's conversion throws. */
  predicate Throws(line: string, split: string -> Option<(string, string)>, coerce: string -> Result<string>) {
    split(line).Some? && coerce(split(line).value.1).Err?
  }

  /** One line's effect on the record built so far. */
  function Step(acc: map<string, string>, line: string, split: string -> Option<(string, string)>, coerce: string -> Result<string>): Result<map<string, string>>
  {
    match split(line)
    case None => Ok(acc)
    case Some((key, value)) =>
      match coerce(value)
      case Err(e) => Err(e)
      case Ok(v) => Ok(acc[key := v])
  }

  /** A line that splits into a key and a value the conversion accepts writes that entry. */
  lemma StepWrites(acc: map<string, string>, line: string, split: string -> Option<(string, string)>, coerce: string -> Result<string>,
                   key: string, value: string, v: string)
    requires split(line) == Some((key, value)) && coerce(value) == Ok(v)
    ensures Step(acc, line, split, coerce) == Ok(acc[key := v])
  {
  }

  /** The `forEach` over the lines, continuing from `acc`; the first throwing line ends it. */
  function ParseLines(lines: seq<string>, split: string -> Option<(string, string)>, coerce: string -> Result<string>, acc: map<string, string>): Result<map<string, string>>
    decreases |lines|
  {
    if lines == [] then Ok(acc)
    else
      match Step(acc, lines[0], split, coerce)
      case Err(e) => Err(e)
      case Ok(next) => ParseLines(lines[1..], split, coerce, next)
  }

  /** What `parseFrontmatter` returns or throws for a document. */
  function Frontmatter(markdown: string, split: string -> Option<(string, string)>, coerce: string -> Result<string>): Result<Parsed>
  {
    match SplitFence(markdown)
    case None => Ok(Parsed(map[], markdown))
    case Some((front, body)) =>
      match ParseLines(Split(front, "\n"), split, coerce, map[])
      case Err(e) => Err(e)
      case Ok(m) => Ok(Parsed(m, body))
  }

  /** The parse throws exactly when some line throws. */
  lemma {:induction false} ParseLinesThrowsIff(lines: seq<string>, split: string -> Option<(string, string)>, coerce: string -> Result<string>, acc: map<string, string>)
    ensures ParseLines(lines, split, coerce, acc).Err? <==> exists i :: 0 <= i < |lines| && Throws(lines[i], split, coerce)
    decreases |lines|
  {
    if lines != [] {
      var s := Step(acc, lines[0], split, coerce);
      if s.Ok? {
        ParseLinesThrowsIff(lines[1..], split, coerce, s.value);
        assert !Throws(lines[0], split, coerce);
        if exists i :: 0 <= i < |lines| && Throws(lines[i], split, coerce) {
          var i :| 0 <= i < |lines| && Throws(lines[i], split, coerce);
          assert lines[1..][i - 1] == lines[i];
        }
        if exists i :: 0 <= i < |lines[1..]| && Throws(lines[1..][i], split, coerce) {
          var i :| 0 <= i < |lines[1..]| && Throws(lines[1..][i], split, coerce);
          assert lines[1..][i] == lines[i + 1];
        }
      } else {
        assert Throws(lines[0], split, coerce);
      }
    }
  }

  /** Parsing is a left fold of `Step` over the lines: a further line acts on the record built so far. */
  lemma {:induction false} ParseLinesSnoc(lines: seq<string>, line: string, split: string -> Option<(string, string)>, coerce: string -> Result<string>, acc: map<string, string>)
    ensures ParseLines(lines + [line], split, coerce, acc) ==
      match ParseLines(lines, split, coerce, acc)
      case Err(e) => Err(e)
      case Ok(m) => Step(m, line, split, coerce)
    decreases |lines|
  {
    if lines == [] {
      assert [] + [line] == [line];
      assert [line][1..] == [];
      match Step(acc, line, split, coerce)
      case Err(_) =>
      case Ok(next) => assert ParseLines([], split, coerce, next) == Ok(next);
    } else {
      assert (lines + [line])[0] == lines[0];
      assert (lines + [line])[1..] == lines[1..] + [line];
      match Step(acc, lines[0], split, coerce)
      case Err(_) =>
      case Ok(next) => ParseLinesSnoc(lines[1..], line, split, coerce, next);
    }
  }

  /** A key's last line decides its value: a later line for the same key overwrites an earlier one. */
  lemma LastLineWins(lines: seq<string>, line: string, split: string -> Option<(string, string)>, coerce: string -> Result<string>, key: string, value: string)
    requires split(line) == Some((key, value))
    requires ParseLines(lines + [line], split, coerce, map[]).Ok?
    ensures coerce(value).Ok?
    ensures var m := ParseLines(lines + [line], split, coerce, map[]).value;
      key in m && m[key] == coerce(value).value
  {
    ParseLinesSnoc(lines, line, split, coerce, map[]);
    var prior := ParseLines(lines, split, coerce, map[]);
    assert prior.Ok?;
    var c := coerce(value);
    assert c.Ok?;
    assert Step(prior.value, line, split, coerce) == Ok(prior.value[key := c.value]);
  }

  // ---------------------------------------------------------------- writing frontmatter back

  /** A value between double quotes. */
  function Quoted(value: string): string { "\"" + value + "\"" }

  /** The line `key: "value"` that stores `value` under `key`. */
  function EntryLine(key: string, value: string): string {
    key + ": " + Quoted(value)
  }

  /** Keys that `EntryLine` can carry: non-empty, untrimmable, without `:` or a line break, not starting with `-`. */
  predicate GoodKey(key: string) {
    key != [] && key[0] != '-' && Trim(key) == key && ':' !in key && '\n' !in key
  }

  /** An entry line has nothing to trim: it opens with its key and closes with a quote. */
  lemma EntryLineTrimmed(key: string, value: string)
    requires GoodKey(key)
    ensures EntryLine(key, value) != [] && Trim(EntryLine(key, value)) == EntryLine(key, value)
  {
    var line := EntryLine(key, value);
    assert !IsSpace(key[0]) by {
      assert TrimStart(key) == key;
    }
    assert line[0] == key[0] && line[|line| - 1] == '"';
    TrimPadded([], line, []);
    assert [] + line + [] == line;
  }

  /** A quoted value after one space trims to the quoted value. */
  lemma SpacedQuoteTrimmed(value: string)
    ensures Trim(" " + Quoted(value)) == Quoted(value)
  {
    var q := Quoted(value);
    assert " " + q == [' '] + q + [];
    TrimPadded([' '], q, []);
  }

  predicate GoodEntries(entries: seq<(string, string)>) {
    forall k :: 0 <= k < |entries| ==> GoodKey(entries[k].0) && '\n' !in entries[k].1
  }

  function EntryLines(entries: seq<(string, string)>): (lines: seq<string>)
    ensures |lines| == |entries|
    ensures forall k :: 0 <= k < |entries| ==> lines[k] == EntryLine(entries[k].0, entries[k].1)
  {
    seq(|entries|, k requires 0 <= k < |entries| => EntryLine(entries[k].0, entries[k].1))
  }

  /** The record that storing the entries one after another produces. */
  function Store(entries: seq<(string, string)>, acc: map<string, string>): map<string, string>
    decreases |entries|
  {
    if entries == [] then acc else Store(entries[1..], acc[entries[0].0 := entries[0].1])
  }

  /** A parser reads every entry line back: it cuts out the key and the quoted value, and stores the value. */
  predicate ReadsEntriesBack(entries: seq<(string, string)>, split: string -> Option<(string, string)>, coerce: string -> Result<string>) {
    forall k :: 0 <= k < |entries| ==>
      split(EntryLine(entries[k].0, entries[k].1)) == Some((entries[k].0, Quoted(entries[k].1)))
      && coerce(Quoted(entries[k].1)) == Ok(entries[k].1)
  }

  lemma EntryLineShape(key: string, value: string)
    requires GoodKey(key) && '\n' !in value
    ensures var line := EntryLine(key, value);
      line != [] && line[0] == key[0] && '\n' !in line
  {
    var line := EntryLine(key, value);
    assert line == key + [':', ' ', '"'] + value + ['"'];
    forall i | 0 <= i < |line|
      ensures line[i] != '\n'
    {
      if i < |key| {
        assert line[i] == key[i] && key[i] in key;
      } else if |key| + 3 <= i < |key| + 3 + |value| {
        assert line[i] == value[i - |key| - 3] && value[i - |key| - 3] in value;
      }
    }
  }

  lemma {:induction false} EntryLinesParse(entries: seq<(string, string)>, split: string -> Option<(string, string)>, coerce: string -> Result<string>, acc: map<string, string>)
    requires ReadsEntriesBack(entries, split, coerce)
    ensures ParseLines(EntryLines(entries), split, coerce, acc) == Ok(Store(entries, acc))
    decreases |entries|
  {
    if entries != [] {
      var (key, value) := entries[0];
      var lines := EntryLines(entries);
      assert Step(acc, lines[0], split, coerce) == Ok(acc[key := value]);
      assert lines[1..] == EntryLines(entries[1..]) by {
        forall k | 0 <= k < |entries| - 1
          ensures lines[1..][k] == EntryLines(entries[1..])[k]
        {
          assert entries[1..][k] == entries[k + 1];
        }
      }
      assert ReadsEntriesBack(entries[1..], split, coerce) by {
        forall k | 0 <= k < |entries[1..]|
          ensures split(EntryLine(entries[1..][k].0, entries[1..][k].1)) == Some((entries[1..][k].0, Quoted(entries[1..][k].1)))
          ensures coerce(Quoted(entries[1..][k].1)) == Ok(entries[1..][k].1)
        {
          assert entries[1..][k] == entries[k + 1];
        }
      }
      EntryLinesParse(entries[1..], split, coerce, acc[key := value]);
    }
  }

  /**
   * Round trip: a document whose frontmatter is `key: "value"` lines, parsed
   * by a parser that reads each such line back, gives the record those
   * entries build, and its body comes back as written.
   */
  lemma FrontmatterRoundTrip(entries: seq<(string, string)>, body: string, split: string -> Option<(string, string)>, coerce: string -> Result<string>)
    requires |entries| >= 1 && GoodEntries(entries)
    requires ReadsEntriesBack(entries, split, coerce)
    ensures Frontmatter(Open + Join(EntryLines(entries), "\n") + Close + body, split, coerce) == Ok(Parsed(Store(entries, map[]), body))
  {
    var lines := EntryLines(entries);
    forall k | 0 <= k < |lines|
      ensures lines[k] != [] && lines[k][0] != '-' && '\n' !in lines[k]
    {
      EntryLineShape(entries[k].0, entries[k].1);
    }
    FramedLines(lines, body);
    EntryLinesParse(entries, split, coerce, map[]);
  }
}
