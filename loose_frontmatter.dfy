/**
 * `parseFrontmatter` of client/utils/content-loader.ts: a line-oriented
 * reader of a YAML-looking subset. The frontmatter is cut out by the pattern
 * `^---\s*\n([\s\S]*?)\n---\s*\n?([\s\S]*)$`; its lines are read one key at
 * a time, where a key line is `name: value` with a name of letters, digits,
 * `_` and `-`. A value `|` or `>` opens a block scalar that runs up to the
 * next key line; an empty value followed by `- ` lines opens a list; any
 * other value is a plain scalar, where `true` and `false` become booleans.
 * The body comes back trimmed.
 */
module LooseFrontmatter {
  import opened Outcomes
  import opened JsText
  import StrictFrontmatter

  /** A frontmatter value: a string, a boolean or a list of strings. */
  datatype FieldValue = Text(s: string) | Flag(b: bool) | Items(items: seq<string>)

  // ---------------------------------------------------------------- the pattern

  /** The end of the run of white space that starts at `k`. */
  function SpaceRunEnd(s: string, k: nat): (e: nat)
    requires k <= |s|
    ensures k <= e <= |s|
    ensures forall j :: k <= j < e ==> IsSpace(s[j])
    ensures e < |s| ==> !IsSpace(s[e])
    decreases |s| - k
  {
    if k < |s| && IsSpace(s[k]) then SpaceRunEnd(s, k + 1) else k
  }

  /** The closing `\n---` of the frontmatter. */
  const Fence: string := "\n---"

  /**
   * The line break that ends the opening `---\s*`: `\s*` is greedy, so the
   * candidates below `n` are tried from the last one down, and the first
   * whose frontmatter is followed by a `\n---` is taken.
   */
  function OpeningBreak(s: string, n: nat): (r: Option<nat>)
    requires 3 <= n <= |s|
    ensures r.Some? ==> 3 <= r.value < n && s[r.value] == '\n' && IndexOfFrom(s, Fence, r.value + 1) != -1
    decreases n
  {
    if n == 3 then None
    else if s[n - 1] == '\n' && IndexOfFrom(s, Fence, n) != -1 then Some(n - 1)
    else OpeningBreak(s, n - 1)
  }

  /** The two capture groups of a successful match, `None` when the pattern does not match. */
  function FenceMatch(s: string): (r: Option<(string, string)>)
  {
    if !StartsWith(s, "---") then None
    else
      match OpeningBreak(s, SpaceRunEnd(s, 3))
      case None => None
      case Some(c) =>
        var q := IndexOfFrom(s, Fence, c + 1);
        Some((s[c + 1..q], s[SpaceRunEnd(s, q + 4)..]))
  }

  // ---------------------------------------------------------------- lines

  predicate IsKeyChar(c: char) {
    ('A' <= c <= 'Z') || ('a' <= c <= 'z') || IsDigit(c) || c == '_' || c == '-'
  }

  /** The length of the longest prefix of `t` made of key characters. */
  function KeyLength(t: string): (n: nat)
    ensures n <= |t|
    ensures forall j :: 0 <= j < n ==> IsKeyChar(t[j])
    ensures n < |t| ==> !IsKeyChar(t[n])
  {
    if t != [] && IsKeyChar(t[0]) then 1 + KeyLength(t[1..]) else 0
  }

  /** `/^[A-Za-z0-9_-]+:/.test(t)` */
  predicate IsKeyLine(t: string) {
    0 < KeyLength(t) < |t| && t[KeyLength(t)] == ':'
  }

  predicate NoLineTerminator(s: string) {
    forall j :: 0 <= j < |s| ==> !IsLineTerminator(s[j])
  }

  /**
   * `t.match(/^([A-Za-z0-9_-]+):\s*(.*)$/)` on a trimmed line: the key and the
   * trimmed value. `.` stops at line terminators, so the value must hold none.
   */
  function KeyLine(t: string): (r: Option<(string, string)>)
    ensures r.Some? ==> IsKeyLine(t) && r.value.0 == t[..KeyLength(t)] && r.value.0 != []
  {
    if !IsKeyLine(t) then None
    else
      var n := KeyLength(t);
      var rest := TrimStart(t[n + 1..]);
      if NoLineTerminator(rest) then Some((t[..n], Trim(rest))) else None
  }

  /** `blockLine.replace(/^  /, "")` */
  function Dedent(line: string): (r: string)
    ensures StartsWith(line, "  ") ==> line == "  " + r
    ensures !StartsWith(line, "  ") ==> r == line
  {
    if StartsWith(line, "  ") then line[2..] else line
  }

  predicate IsQuote(c: char) { c == '"' || c == '\'' }

  /** `v.replace(/^["']|["']$/g, "")`: one leading and one trailing quote, each of either kind. */
  function StripQuotes(v: string): (r: string)
  {
    var a := if v != [] && IsQuote(v[0]) then v[1..] else v;
    if a != [] && IsQuote(a[|a| - 1]) then a[..|a| - 1] else a
  }

  /** The line's trimmed text starts with `- `. */
  predicate IsListLine(line: string) { StartsWith(Trim(line), "- ") }

  /** `lines[i].trim().replace(/^- /, "").replace(/^["']|["']$/g, "")` */
  function ListItem(line: string): string {
    var t := Trim(line);
    StripQuotes(if StartsWith(t, "- ") then t[2..] else t)
  }

  /** A line inside a block scalar: one whose trimmed text is not a key line. */
  predicate IsBlockLine(line: string) { !IsKeyLine(Trim(line)) }

  /** The index of the first line at or after `k` that `keep` refuses: where a run starting at `k` stops. */
  function RunEnd(lines: seq<string>, k: nat, keep: string -> bool): (e: nat)
    requires k <= |lines|
    ensures k <= e <= |lines|
    decreases |lines| - k
  {
    if k == |lines| || !keep(lines[k]) then k else RunEnd(lines, k + 1, keep)
  }

  /** The `item`s of the lines from `k` up to where the run stops. */
  function Run<T>(lines: seq<string>, k: nat, keep: string -> bool, item: string -> T): seq<T>
    requires k <= |lines|
    decreases |lines| - k
  {
    if k == |lines| || !keep(lines[k]) then [] else [item(lines[k])] + Run(lines, k + 1, keep, item)
  }

  /** Where a block scalar starting at `k` stops: the first key line at or after `k`. */
  function BlockEnd(lines: seq<string>, k: nat): nat
    requires k <= |lines|
  {
    RunEnd(lines, k, IsBlockLine)
  }

  /** The lines of a block scalar starting at `k`, dedented: those before the next key line. */
  function BlockRun(lines: seq<string>, k: nat): seq<string>
    requires k <= |lines|
  {
    Run(lines, k, IsBlockLine, Dedent)
  }

  /** The index of the first line at or after `k` that is not a list line. */
  function ListEnd(lines: seq<string>, k: nat): nat
    requires k <= |lines|
  {
    RunEnd(lines, k, IsListLine)
  }

  /** The items of the run of list lines starting at `k`. */
  function ListRun(lines: seq<string>, k: nat): seq<string>
    requires k <= |lines|
  {
    Run(lines, k, IsListLine, ListItem)
  }

  /** A plain scalar: quotes stripped, then `true` and `false` become booleans. */
  function Scalar(value: string): (r: FieldValue)
    ensures r.Flag? <==> StripQuotes(value) == "true" || StripQuotes(value) == "false"
    ensures r.Flag? ==> r.b == (StripQuotes(value) == "true")
    ensures r.Text? ==> r.s == StripQuotes(value)
    ensures !r.Items?
  {
    var v := StripQuotes(value);
    if v == "true" || v == "false" then Flag(v == "true") else Text(v)
  }

  /** The separator a block scalar's lines are joined with: a space for `>`, a line break for `|`. */
  function BlockSeparator(indicator: string): string {
    if indicator == ">" then " " else "\n"
  }

  /** The value of a block scalar made of the given (dedented) lines. */
  function BlockText(block: seq<string>, indicator: string): string {
    Trim(Join(block, BlockSeparator(indicator)))
  }

  /**
   * Reading at line `i`: the assignment `data[key] = …` that the line starts,
   * if any, and the index of the line where reading resumes. Every branch
   * moves past line `i`, so the loop ends.
   */
  function EntryAt(lines: seq<string>, i: nat): (r: (Option<(string, FieldValue)>, int))
    requires i < |lines|
    ensures i < r.1 <= |lines|
    ensures r.0.None? <==> KeyLine(Trim(lines[i])).None?
    ensures r.0.None? ==> r.1 == i + 1
  {
    match KeyLine(Trim(lines[i]))
    case None => (None, i + 1)
    case Some((key, value)) =>
      if value == "|" || value == ">" then
        (Some((key, Text(BlockText(BlockRun(lines, i + 1), value)))), BlockEnd(lines, i + 1))
      else if value == "" && i + 1 < |lines| && IsListLine(lines[i + 1]) then
        (Some((key, Items(ListRun(lines, i + 1)))), ListEnd(lines, i + 1))
      else
        (Some((key, Scalar(value))), i + 1)
  }

  /** The assignments that reading the lines from index `i` on performs, in order. */
  function WritesFrom(lines: seq<string>, i: nat): seq<(string, FieldValue)>
    requires i <= |lines|
    decreases |lines| - i
  {
    if i == |lines| then []
    else
      var e := EntryAt(lines, i);
      (if e.0.Some? then [e.0.value] else []) + WritesFrom(lines, e.1)
  }

  /** Performing the assignments on a record, in order. */
  function Assign(data: map<string, FieldValue>, writes: seq<(string, FieldValue)>): map<string, FieldValue>
    decreases |writes|
  {
    if writes == [] then data else Assign(data[writes[0].0 := writes[0].1], writes[1..])
  }

  /** The record and the content that `parseFrontmatter` returns. */
  function Frontmatter(content: string): (map<string, FieldValue>, string)
  {
    match FenceMatch(content)
    case None => (map[], content)
    case Some((front, body)) => (Assign(map[], WritesFrom(Split(front, "\n"), 0)), Trim(body))
  }

  /**
   * The inner loops of `parseFrontmatter`: from `start`, collect `item` of
   * each line while `keep` holds; return the items and the line it stopped at.
   */
  method ReadRun<T>(lines: seq<string>, start: nat, keep: string -> bool, item: string -> T) returns (items: seq<T>, end: nat)
    requires start <= |lines|
    ensures end == RunEnd(lines, start, keep)
    ensures items == Run(lines, start, keep, item)
  {
    end := start;
    items := [];
    while end < |lines|
      invariant start <= end <= |lines|
      invariant RunEnd(lines, start, keep) == RunEnd(lines, end, keep)
      invariant Run(lines, start, keep, item) == items + Run(lines, end, keep, item)
    {
      if !keep(lines[end]) {
        break;
      }
      RunStep(lines, end, keep, item);
      items := items + [item(lines[end])];
      end := end + 1;
    }
  }

  /** The inner loop of a block scalar: the dedented lines from `start` up to the next key line. */
  method ReadBlock(lines: seq<string>, start: nat) returns (blockLines: seq<string>, end: nat)
    requires start <= |lines|
    ensures end == BlockEnd(lines, start)
    ensures blockLines == BlockRun(lines, start)
  {
    blockLines, end := ReadRun(lines, start, IsBlockLine, Dedent);
  }

  /** The inner loop of a list: the items of the list lines from `start` on. */
  method ReadList(lines: seq<string>, start: nat) returns (items: seq<string>, end: nat)
    requires start <= |lines|
    ensures end == ListEnd(lines, start)
    ensures items == ListRun(lines, start)
  {
    items, end := ReadRun(lines, start, IsListLine, ListItem);
  }

  /**
   * One turn of `parseFrontmatter`'s loop at line `i`: the assignment it
   * performs, if any, and the line the loop resumes at.
   */
  method ReadEntry(lines: seq<string>, i: nat) returns (write: Option<(string, FieldValue)>, next: nat)
    requires i < |lines|
    ensures (write, next as int) == EntryAt(lines, i)
  {
    var trimmed := Trim(lines[i]);
    if trimmed == [] {
      return None, i + 1;
    }
    var keyMatch := KeyLine(trimmed);
    if keyMatch.None? {
      return None, i + 1;
    }
    var key := keyMatch.value.0;
    var value := keyMatch.value.1;

    if value == "|" || value == ">" {
      var blockLines, end := ReadBlock(lines, i + 1);
      var combined := if value == ">" then Trim(Join(blockLines, " ")) else Trim(Join(blockLines, "\n"));
      assert combined == BlockText(blockLines, value);
      BlockEntry(lines, i, key, value);
      return Some((key, Text(combined))), end;
    }

    if value == "" && i + 1 < |lines| && IsListLine(lines[i + 1]) {
      var items, end := ReadList(lines, i + 1);
      ListEntry(lines, i, key, value);
      return Some((key, Items(items))), end;
    }

    ScalarEntry(lines, i, key, value);
    value := StripQuotes(value);
    if value == "true" || value == "false" {
      write := Some((key, Flag(value == "true")));
    } else {
      write := Some((key, Text(value)));
    }
    next := i + 1;
  }

  /** The loop of `parseFrontmatter` over the frontmatter's lines: the assignments it performs, in order. */
  method ReadLines(lines: seq<string>) returns (data: map<string, FieldValue>)
    ensures data == Assign(map[], WritesFrom(lines, 0))
  {
    data := map[];
    var i := 0;
    while i < |lines|
      invariant 0 <= i <= |lines|
      invariant Assign(data, WritesFrom(lines, i)) == Assign(map[], WritesFrom(lines, 0))
      decreases |lines| - i
    {
      var write, next := ReadEntry(lines, i);
      EntryStep(lines, i, write, next);
      if write.Some? {
        AssignCons(data, write.value.0, write.value.1, WritesFrom(lines, next));
        data := data[write.value.0 := write.value.1];
      } else {
        assert [] + WritesFrom(lines, next) == WritesFrom(lines, next);
      }
      i := next;
    }
  }

  /** `parseFrontmatter(content)` of client/utils/content-loader.ts. */
  method ParseFrontmatter(content: string) returns (data: map<string, FieldValue>, body: string)
    ensures (data, body) == Frontmatter(content)
    ensures FenceMatch(content).None? ==> data == map[] && body == content
    ensures FenceMatch(content).Some? ==> body == Trim(FenceMatch(content).value.1)
  {
    var m := FenceMatch(content);
    if m.None? {
      return map[], content;
    }
    data := ReadLines(Split(m.value.0, "\n"));
    body := Trim(m.value.1);
  }

  /** A key line introducing a block scalar assigns the text of the lines up to the next key line. */
  lemma BlockEntry(lines: seq<string>, i: nat, key: string, value: string)
    requires i < |lines| && KeyLine(Trim(lines[i])) == Some((key, value)) && (value == "|" || value == ">")
    ensures EntryAt(lines, i) == (Some((key, Text(BlockText(BlockRun(lines, i + 1), value)))), BlockEnd(lines, i + 1))
  {
  }

  /** A key line with an empty value followed by a list line assigns the list's items. */
  lemma ListEntry(lines: seq<string>, i: nat, key: string, value: string)
    requires i < |lines| && KeyLine(Trim(lines[i])) == Some((key, value)) && value != "|" && value != ">"
    requires value == "" && i + 1 < |lines| && IsListLine(lines[i + 1])
    ensures EntryAt(lines, i) == (Some((key, Items(ListRun(lines, i + 1)))), ListEnd(lines, i + 1))
  {
  }

  /** Any other key line assigns its value as a plain scalar. */
  lemma ScalarEntry(lines: seq<string>, i: nat, key: string, value: string)
    requires i < |lines| && KeyLine(Trim(lines[i])) == Some((key, value)) && value != "|" && value != ">"
    requires !(value == "" && i + 1 < |lines| && IsListLine(lines[i + 1]))
    ensures EntryAt(lines, i) == (Some((key, Scalar(value))), i + 1)
  {
  }

  /** Reading line `i` performs the entry's assignment, if any, then those from where it resumes. */
  lemma EntryStep(lines: seq<string>, i: nat, write: Option<(string, FieldValue)>, next: nat)
    requires i < |lines| && (write, next as int) == EntryAt(lines, i)
    ensures i < next <= |lines|
    ensures WritesFrom(lines, i) == (if write.Some? then [write.value] else []) + WritesFrom(lines, next)
  {
    WritesFromUnfold(lines, i);
  }

  lemma WritesCons(lines: seq<string>, i: nat, key: string, v: FieldValue, end: nat)
    requires i < |lines| && EntryAt(lines, i).0 == Some((key, v)) && EntryAt(lines, i).1 == end
    ensures end <= |lines|
    ensures WritesFrom(lines, i) == [(key, v)] + WritesFrom(lines, end)
  {
    WritesFromUnfold(lines, i);
  }

  lemma AssignCons(data: map<string, FieldValue>, key: string, v: FieldValue, ws: seq<(string, FieldValue)>)
    ensures Assign(data, [(key, v)] + ws) == Assign(data[key := v], ws)
  {
    assert ([(key, v)] + ws)[1..] == ws;
  }

  lemma WritesFromUnfold(lines: seq<string>, i: nat)
    requires i < |lines|
    ensures WritesFrom(lines, i)
         == (if EntryAt(lines, i).0.Some? then [EntryAt(lines, i).0.value] else []) + WritesFrom(lines, EntryAt(lines, i).1)
  {
  }

  // ---------------------------------------------------------------- properties

  /** The value the last assignment to `k` in `writes` stores, if any: the reference for `Assign`. */
  function LastWrite(writes: seq<(string, FieldValue)>, k: string): Option<FieldValue>
    decreases |writes|
  {
    if writes == [] then None
    else
      match LastWrite(writes[1..], k)
      case Some(v) => Some(v)
      case None => if writes[0].0 == k then Some(writes[0].1) else None
  }

  /** A later assignment to a key overwrites an earlier one; keys never assigned keep their value. */
  lemma {:induction false} AssignLastWrite(data: map<string, FieldValue>, writes: seq<(string, FieldValue)>, k: string)
    ensures k in Assign(data, writes) <==> LastWrite(writes, k).Some? || k in data
    ensures LastWrite(writes, k).Some? ==> Assign(data, writes)[k] == LastWrite(writes, k).value
    ensures LastWrite(writes, k).None? && k in data ==> Assign(data, writes)[k] == data[k]
    decreases |writes|
  {
    if writes != [] {
      AssignLastWrite(data[writes[0].0 := writes[0].1], writes[1..], k);
    }
  }

  /** A key name of the pattern `[A-Za-z0-9_-]+`. */
  predicate IsKeyName(k: string) {
    k != [] && forall j :: 0 <= j < |k| ==> IsKeyChar(k[j])
  }

  lemma {:induction false} WritesFromKeys(lines: seq<string>, i: nat)
    requires i <= |lines|
    ensures forall w :: w in WritesFrom(lines, i) ==> IsKeyName(w.0)
    decreases |lines| - i
  {
    if i < |lines| {
      var e := EntryAt(lines, i);
      WritesFromKeys(lines, e.1);
      WritesFromUnfold(lines, i);
      EntryAtKey(lines, i);
    }
  }

  lemma EntryAtKey(lines: seq<string>, i: nat)
    requires i < |lines|
    ensures EntryAt(lines, i).0.Some? ==> IsKeyName(EntryAt(lines, i).0.value.0)
  {
    var t := Trim(lines[i]);
    if KeyLine(t).Some? {
      KeyPrefixName(t);
    }
  }

  lemma KeyPrefixName(t: string)
    requires 0 < KeyLength(t)
    ensures IsKeyName(t[..KeyLength(t)])
  {
    var k := t[..KeyLength(t)];
    forall j | 0 <= j < |k|
      ensures IsKeyChar(k[j])
    {
      assert k[j] == t[j];
    }
  }

  lemma {:induction false} LastWriteKey(writes: seq<(string, FieldValue)>, k: string)
    requires LastWrite(writes, k).Some?
    ensures exists w :: w in writes && w.0 == k
    decreases |writes|
  {
    if LastWrite(writes[1..], k).Some? {
      LastWriteKey(writes[1..], k);
      var w :| w in writes[1..] && w.0 == k;
      assert w in writes;
    } else {
      assert writes[0] in writes;
    }
  }

  /** Every key of the parsed record is a key name that some key line introduced. */
  lemma FrontmatterKeys(content: string)
    ensures forall k :: k in Frontmatter(content).0 ==> IsKeyName(k)
  {
    match FenceMatch(content)
    case None =>
    case Some((front, body)) =>
      var lines := Split(front, "\n");
      WritesFromKeys(lines, 0);
      forall k | k in Frontmatter(content).0
        ensures IsKeyName(k)
      {
        AssignLastWrite(map[], WritesFrom(lines, 0), k);
        LastWriteKey(WritesFrom(lines, 0), k);
      }
  }

  /**
   * A run: one item per line from `k` up to the first line `keep` refuses,
   * in order (`RunItems`); `keep` holds on every line of it and fails on the
   * line it stops at (`RunLines`).
   */
  lemma RunItems<T>(lines: seq<string>, k: nat, keep: string -> bool, item: string -> T)
    requires k <= |lines|
    ensures |Run(lines, k, keep, item)| == RunEnd(lines, k, keep) - k
    ensures forall j :: 0 <= j < |Run(lines, k, keep, item)| ==> Run(lines, k, keep, item)[j] == item(lines[k + j])
  {
    RunLength(lines, k, keep, item);
    forall j | 0 <= j < |Run(lines, k, keep, item)|
      ensures Run(lines, k, keep, item)[j] == item(lines[k + j])
    {
      RunItemAt(lines, k, keep, item, j);
    }
  }

  /** A kept line contributes its item and moves the run on by one line. */
  lemma RunStep<T>(lines: seq<string>, k: nat, keep: string -> bool, item: string -> T)
    requires k < |lines| && keep(lines[k])
    ensures RunEnd(lines, k, keep) == RunEnd(lines, k + 1, keep)
    ensures Run(lines, k, keep, item) == [item(lines[k])] + Run(lines, k + 1, keep, item)
  {
  }

  lemma {:induction false} RunLength<T>(lines: seq<string>, k: nat, keep: string -> bool, item: string -> T)
    requires k <= |lines|
    ensures |Run(lines, k, keep, item)| == RunEnd(lines, k, keep) - k
    decreases |lines| - k
  {
    if k < |lines| && keep(lines[k]) {
      RunLength(lines, k + 1, keep, item);
    }
  }

  lemma {:induction false} RunItemAt<T>(lines: seq<string>, k: nat, keep: string -> bool, item: string -> T, j: nat)
    requires k <= |lines| && j < |Run(lines, k, keep, item)|
    ensures k + j < |lines| && Run(lines, k, keep, item)[j] == item(lines[k + j])
    decreases j
  {
    assert k < |lines| && keep(lines[k]);
    var tail := Run(lines, k + 1, keep, item);
    assert Run(lines, k, keep, item) == [item(lines[k])] + tail;
    if j > 0 {
      RunItemAt(lines, k + 1, keep, item, j - 1);
      assert Run(lines, k, keep, item)[j] == tail[j - 1];
    }
  }

  lemma {:induction false} RunLines(lines: seq<string>, k: nat, keep: string -> bool)
    requires k <= |lines|
    ensures forall j :: k <= j < RunEnd(lines, k, keep) ==> keep(lines[j])
    ensures RunEnd(lines, k, keep) < |lines| ==> !keep(lines[RunEnd(lines, k, keep)])
    decreases |lines| - k
  {
    if k < |lines| && keep(lines[k]) {
      RunLines(lines, k + 1, keep);
      assert RunEnd(lines, k, keep) == RunEnd(lines, k + 1, keep);
      forall j | k <= j < RunEnd(lines, k, keep)
        ensures keep(lines[j])
      {
        if j > k {
          assert k + 1 <= j < RunEnd(lines, k + 1, keep);
        }
      }
    } else {
      assert RunEnd(lines, k, keep) == k;
    }
  }

  /**
   * A block scalar: the lines from `k` up to (not including) the first key
   * line, each with one two-space indent removed; none of them is a key
   * line, and the line it stops at is one.
   */
  lemma BlockItems(lines: seq<string>, k: nat)
    requires k <= |lines|
    ensures |BlockRun(lines, k)| == BlockEnd(lines, k) - k
    ensures forall j :: 0 <= j < |BlockRun(lines, k)| ==> BlockRun(lines, k)[j] == Dedent(lines[k + j])
  {
    RunItems(lines, k, IsBlockLine, Dedent);
  }

  lemma BlockLines(lines: seq<string>, k: nat)
    requires k <= |lines|
    ensures forall j :: k <= j < BlockEnd(lines, k) ==> !IsKeyLine(Trim(lines[j]))
    ensures BlockEnd(lines, k) < |lines| ==> IsKeyLine(Trim(lines[BlockEnd(lines, k)]))
  {
    RunLines(lines, k, IsBlockLine);
  }

  /**
   * A list: the items of the contiguous lines from `k` on whose trimmed
   * text starts with `- `, in order, stopping at the first other line.
   */
  lemma ListItems(lines: seq<string>, k: nat)
    requires k <= |lines|
    ensures |ListRun(lines, k)| == ListEnd(lines, k) - k
    ensures forall j :: 0 <= j < |ListRun(lines, k)| ==> ListRun(lines, k)[j] == ListItem(lines[k + j])
  {
    RunItems(lines, k, IsListLine, ListItem);
  }

  lemma ListLines(lines: seq<string>, k: nat)
    requires k <= |lines|
    ensures forall j :: k <= j < ListEnd(lines, k) ==> IsListLine(lines[j])
    ensures ListEnd(lines, k) < |lines| ==> !IsListLine(lines[ListEnd(lines, k)])
  {
    RunLines(lines, k, IsListLine);
  }

  /** One quote of either kind at each end is removed, whatever lies between. */
  lemma StripQuotesWrapped(q1: char, s: string, q2: char)
    requires IsQuote(q1) && IsQuote(q2)
    ensures StripQuotes([q1] + s + [q2]) == s
  {
    assert ([q1] + s + [q2])[1..] == s + [q2];
    assert (s + [q2])[..|s|] == s;
  }

  /** A value with no quote at either end is left as it is. */
  lemma StripQuotesUnquoted(s: string)
    requires s == [] || (!IsQuote(s[0]) && !IsQuote(s[|s| - 1]))
    ensures StripQuotes(s) == s
  {
  }

  /** A value `""` or `"x"` quoted once more loses only the outer pair: stripping is not repeated. */
  lemma StripQuotesOnce(s: string)
    ensures StripQuotes("\"" + "\"" + s + "\"" + "\"") == "\"" + s + "\""
  {
    StripQuotesWrapped('"', "\"" + s + "\"", '"');
    assert "\"" + "\"" + s + "\"" + "\"" == ['"'] + ("\"" + s + "\"") + ['"'];
  }

  /** Numeric text is not converted: it stays a string. */
  lemma NumericScalarStaysText(value: string)
    requires StripQuotes(value) != [] && AllDigits(StripQuotes(value))
    ensures Scalar(value) == Text(StripQuotes(value))
  {
    assert IsDigit(StripQuotes(value)[0]);
  }

  // ---------------------------------------------------------------- reading entry lines back

  /** Keys a `key: "value"` line can carry here: key names that do not start with `-`. */
  predicate GoodEntries(entries: seq<(string, string)>) {
    forall k :: 0 <= k < |entries| ==>
      IsKeyName(entries[k].0) && entries[k].0[0] != '-' && NoLineTerminator(entries[k].1)
  }

  /** What `value` quoted reads back as: `true` and `false` lose their quotes and become booleans. */
  function QuotedValue(value: string): FieldValue {
    if value == "true" || value == "false" then Flag(value == "true") else Text(value)
  }

  /** The assignments that the entries from index `i` on stand for. */
  function EntryWrites(entries: seq<(string, string)>, i: nat): seq<(string, FieldValue)>
    requires i <= |entries|
    decreases |entries| - i
  {
    if i == |entries| then [] else [(entries[i].0, QuotedValue(entries[i].1))] + EntryWrites(entries, i + 1)
  }

  lemma {:induction false} KeyLengthOfKey(key: string, rest: string)
    requires forall j :: 0 <= j < |key| ==> IsKeyChar(key[j])
    requires rest == [] || !IsKeyChar(rest[0])
    ensures KeyLength(key + rest) == |key|
    decreases |key|
  {
    if key != [] {
      assert (key + rest)[1..] == key[1..] + rest;
      KeyLengthOfKey(key[1..], rest);
    } else {
      assert key + rest == rest;
    }
  }

  /** A text that `trim` leaves alone: empty, or not white at either end. */
  predicate Untrimmable(v: string) {
    v == [] || (!IsSpace(v[0]) && !IsSpace(v[|v| - 1]))
  }

  /** `key: value` with a key name and a non-empty untrimmable value on one line is a key line for that key and value. */
  lemma KeyLineOf(key: string, value: string)
    requires IsKeyName(key) && value != [] && Untrimmable(value) && NoLineTerminator(value)
    ensures KeyLine(key + ": " + value) == Some((key, value))
  {
    var line := key + ": " + value;
    KeyLengthOfEntry(key, value);
    ValueOfEntry(key, value);
    assert line[..|key|] == key && line[|key|] == ':';
    KeyLineParts(line, key, value);
  }

  lemma KeyLengthOfEntry(key: string, value: string)
    requires IsKeyName(key)
    ensures KeyLength(key + ": " + value) == |key|
  {
    assert key + ": " + value == key + (": " + value);
    KeyLengthOfKey(key, ": " + value);
  }

  lemma ValueOfEntry(key: string, value: string)
    requires Untrimmable(value)
    ensures TrimStart((key + ": " + value)[|key| + 1..]) == value
    ensures Trim(value) == value
  {
    assert (key + ": " + value)[|key| + 1..] == " " + value;
    TrimStartPadded(" ", value);
    TrimPadded([], value, []);
    assert [] + value + [] == value;
  }

  lemma KeyLineParts(t: string, key: string, value: string)
    requires 0 < |key| < |t| && KeyLength(t) == |key| && t[..|key|] == key && t[|key|] == ':'
    requires TrimStart(t[|key| + 1..]) == value && Trim(value) == value && NoLineTerminator(value)
    ensures KeyLine(t) == Some((key, value))
  {
  }

  /** Such a line is its own trimmed text. */
  lemma EntryTrimmed(key: string, value: string)
    requires IsKeyName(key) && value != [] && Untrimmable(value)
    ensures Trim(key + ": " + value) == key + ": " + value
  {
    var line := key + ": " + value;
    assert line[0] == key[0] && IsKeyChar(key[0]);
    assert line[|line| - 1] == value[|value| - 1];
    TrimPadded([], line, []);
    assert [] + line + [] == line;
  }

  lemma QuotedShape(value: string)
    requires NoLineTerminator(value)
    ensures var q := StrictFrontmatter.Quoted(value);
      q != [] && Untrimmable(q) && NoLineTerminator(q) && q == ['"'] + value + ['"']
  {
    var q := StrictFrontmatter.Quoted(value);
    forall j | 0 <= j < |q|
      ensures !IsLineTerminator(q[j])
    {
      if 0 < j < |q| - 1 {
        assert q[j] == value[j - 1];
      }
    }
  }

  /** `key: "value"` is a key line that assigns the quoted value to `key`. */
  lemma EntryLineKey(key: string, value: string)
    requires IsKeyName(key) && NoLineTerminator(value)
    ensures KeyLine(Trim(StrictFrontmatter.EntryLine(key, value))) == Some((key, StrictFrontmatter.Quoted(value)))
  {
    var q := StrictFrontmatter.Quoted(value);
    QuotedShape(value);
    EntryTrimmed(key, q);
    KeyLineOf(key, q);
  }

  /** What `value` quoted reads back as: the plain scalar of `"value"`. */
  lemma ScalarOfQuoted(value: string)
    ensures Scalar(StrictFrontmatter.Quoted(value)) == QuotedValue(value)
  {
    StripQuotesWrapped('"', value, '"');
    assert StrictFrontmatter.Quoted(value) == ['"'] + value + ['"'];
  }

  /** A key line with a plain value is a one-line entry. */
  lemma PlainEntryAt(lines: seq<string>, i: nat, key: string, value: string)
    requires i < |lines| && KeyLine(Trim(lines[i])) == Some((key, value))
    requires value != "|" && value != ">" && value != ""
    ensures EntryAt(lines, i).0 == Some((key, Scalar(value))) && EntryAt(lines, i).1 == i + 1
  {
  }

  /** The `i`-th entry line reads back as the `i`-th entry. */
  lemma EntryLineAt(entries: seq<(string, string)>, i: nat)
    requires GoodEntries(entries) && i < |entries|
    ensures var lines := StrictFrontmatter.EntryLines(entries);
      EntryAt(lines, i).0 == Some((entries[i].0, QuotedValue(entries[i].1))) && EntryAt(lines, i).1 == i + 1
  {
    var lines := StrictFrontmatter.EntryLines(entries);
    var (key, value) := entries[i];
    var q := StrictFrontmatter.Quoted(value);
    assert lines[i] == StrictFrontmatter.EntryLine(key, value);
    EntryLineKey(key, value);
    assert |q| >= 2;
    PlainEntryAt(lines, i, key, q);
    ScalarOfQuoted(value);
  }

  lemma {:induction false} EntryLinesWrites(entries: seq<(string, string)>, i: nat)
    requires GoodEntries(entries) && i <= |entries|
    ensures i <= |StrictFrontmatter.EntryLines(entries)|
    ensures WritesFrom(StrictFrontmatter.EntryLines(entries), i) == EntryWrites(entries, i)
    decreases |entries| - i
  {
    var lines := StrictFrontmatter.EntryLines(entries);
    if i < |entries| {
      var w := (entries[i].0, QuotedValue(entries[i].1));
      var rest := EntryWrites(entries, i + 1);
      assert WritesFrom(lines, i) == [w] + WritesFrom(lines, i + 1) by {
        EntryLineAt(entries, i);
        WritesCons(lines, i, w.0, w.1, i + 1);
      }
      assert WritesFrom(lines, i + 1) == rest by {
        EntryLinesWrites(entries, i + 1);
      }
      assert EntryWrites(entries, i) == [w] + rest;
    } else {
      assert WritesFrom(lines, i) == [];
    }
  }

  /** The white space that `\s*` skips at `k` is also what `trim` removes there. */
  lemma TrimAfterSpaceRun(s: string, k: nat)
    requires k <= |s|
    ensures Trim(s[SpaceRunEnd(s, k)..]) == Trim(s[k..])
  {
    var e := SpaceRunEnd(s, k);
    assert s[k..] == s[k..e] + s[e..];
    TrimStartPadded(s[k..e], s[e..]);
    TrimStartPadded([], s[e..]);
    assert [] + s[e..] == s[e..];
  }

  /** A document framed by `---` lines. */
  function Framed(f: string, body: string): string {
    "---\n" + f + "\n---\n" + body
  }

  /** With no line of `f` after the first starting with `-`, the first `\n---` is the closing one. */
  lemma ClosingFence(f: string, body: string)
    requires StrictFrontmatter.NoDashAfterBreak(f)
    ensures IndexOfFrom(Framed(f, body), Fence, 4) == 4 + |f|
  {
    var s := Framed(f, body);
    var t := f + Fence;
    StrictFrontmatter.NoDashAfterBreakCloses(f, Fence);
    assert s[4..4 + |f| + 4] == t;
    assert OccursAt(s, Fence, 4 + |f|);
    forall j | 4 <= j < 4 + |f|
      ensures !OccursAt(s, Fence, j)
    {
      OccursShifted(s, t, Fence, 4, j - 4);
    }
  }

  /** Where `t` sits in `s` at `off`, `p` occurs in `s` at `off + j` exactly when it occurs in `t` at `j`. */
  lemma OccursShifted(s: string, t: string, p: string, off: nat, j: nat)
    requires off + |t| <= |s| && s[off..off + |t|] == t && j + |p| <= |t|
    ensures OccursAt(s, p, off + j) <==> OccursAt(t, p, j)
  {
    var inS := s[off + j..off + j + |p|];
    var inT := t[j..j + |p|];
    forall k | 0 <= k < |p| ensures inS[k] == inT[k] {
      assert s[off..off + |t|][j + k] == s[off + j + k];
    }
    assert inS == inT;
  }

  /** `---\s*` stops at the first line break when the next line starts with a non-space. */
  lemma OpeningLine(s: string)
    requires |s| >= 5 && s[..4] == "---\n" && !IsSpace(s[4]) && IndexOfFrom(s, Fence, 4) != -1
    ensures SpaceRunEnd(s, 3) == 4 && OpeningBreak(s, 4) == Some(3)
  {
    assert s[3] == '\n';
    assert SpaceRunEnd(s, 4) == 4;
  }

  lemma ClosingLine(f: string, body: string)
    ensures Trim(Framed(f, body)[SpaceRunEnd(Framed(f, body), |f| + 8)..]) == Trim(body)
  {
    var s := Framed(f, body);
    TrimAfterSpaceRun(s, |f| + 8);
    AfterClosingFence(f, body);
    TrimLeadingBreak(body);
  }

  lemma AfterClosingFence(f: string, body: string)
    ensures Framed(f, body)[|f| + 8..] == "\n" + body
  {
  }

  lemma TrimLeadingBreak(body: string)
    ensures Trim("\n" + body) == Trim(body)
  {
    TrimStartSkip("\n", body);
  }

  /** Leading white space does not change what `trimStart` keeps. */
  lemma {:induction false} TrimStartSkip(w: string, t: string)
    requires AllSpace(w)
    ensures TrimStart(w + t) == TrimStart(t)
    decreases |w|
  {
    if w == [] {
      assert w + t == t;
    } else {
      assert (w + t)[1..] == w[1..] + t;
      assert IsSpace((w + t)[0]);
      TrimStartSkip(w[1..], t);
    }
  }

  /** The pattern on a framed document whose frontmatter starts with a non-space. */
  lemma FramedMatch(f: string, body: string)
    requires f != [] && !IsSpace(f[0])
    requires StrictFrontmatter.NoDashAfterBreak(f)
    ensures FenceMatch(Framed(f, body)).Some?
    ensures FenceMatch(Framed(f, body)).value.0 == f
    ensures Trim(FenceMatch(Framed(f, body)).value.1) == Trim(body)
  {
    var s := Framed(f, body);
    ClosingFence(f, body);
    FramedHead(f, body);
    FenceMatchAt(s, 4 + |f|);
    ClosingLine(f, body);
  }

  lemma FramedHead(f: string, body: string)
    requires f != []
    ensures var s := Framed(f, body);
      |s| >= 5 && s[..4] == "---\n" && s[4] == f[0] && s[4..4 + |f|] == f
  {
  }

  /** The captures when `---\s*` ends at the first line break and the first `\n---` after it is at `q`. */
  lemma FenceMatchAt(s: string, q: nat)
    requires |s| >= 5 && s[..4] == "---\n" && !IsSpace(s[4])
    requires 4 <= q && IndexOfFrom(s, Fence, 4) == q
    ensures FenceMatch(s).Some?
    ensures FenceMatch(s).value.0 == s[4..q]
    ensures FenceMatch(s).value.1 == s[SpaceRunEnd(s, q + 4)..]
  {
    OpeningLine(s);
  }

  /** Every line `key: "value"` of good entries is non-empty, starts with the key and holds no line break. */
  lemma EntryLinesShape(entries: seq<(string, string)>)
    requires GoodEntries(entries)
    ensures forall k :: 0 <= k < |entries| ==>
      var line := StrictFrontmatter.EntryLines(entries)[k];
      line != [] && line[0] == entries[k].0[0] && line[0] != '-' && '\n' !in line
  {
    forall k | 0 <= k < |entries|
      ensures var line := StrictFrontmatter.EntryLines(entries)[k];
        line != [] && line[0] == entries[k].0[0] && line[0] != '-' && '\n' !in line
    {
      EntryShape(entries[k].0, entries[k].1);
    }
  }

  lemma EntryShape(key: string, value: string)
    requires IsKeyName(key) && key[0] != '-' && NoLineTerminator(value)
    ensures var line := StrictFrontmatter.EntryLine(key, value);
      line != [] && line[0] == key[0] && '\n' !in line
  {
    KeyNameGood(key);
    NoBreakIn(value);
    StrictFrontmatter.EntryLineShape(key, value);
  }

  /** A key name that does not start with `-` is a key an entry line can carry. */
  lemma KeyNameGood(key: string)
    requires IsKeyName(key) && key[0] != '-'
    ensures StrictFrontmatter.GoodKey(key)
  {
    assert IsKeyChar(key[0]) && IsKeyChar(key[|key| - 1]);
    TrimPadded([], key, []);
    assert [] + key + [] == key;
    forall j | 0 <= j < |key| ensures key[j] != ':' && key[j] != '\n' {
      assert IsKeyChar(key[j]);
    }
  }

  lemma NoBreakIn(value: string)
    requires NoLineTerminator(value)
    ensures '\n' !in value
  {
    forall j | 0 <= j < |value| ensures value[j] != '\n' {
      assert !IsLineTerminator(value[j]);
    }
  }


  /**
   * Round trip: a document framed by `---` lines whose frontmatter is
   * `key: "value"` lines parses to the record those entries build, where a
   * later key overwrites an earlier one and a quoted `true` or `false` still
   * becomes a boolean; the body comes back trimmed.
   */
  lemma FrontmatterRoundTrip(entries: seq<(string, string)>, body: string)
    requires |entries| >= 1 && GoodEntries(entries)
    ensures Frontmatter(Framed(Join(StrictFrontmatter.EntryLines(entries), "\n"), body))
         == (Assign(map[], EntryWrites(entries, 0)), Trim(body))
  {
    var lines := StrictFrontmatter.EntryLines(entries);
    var f := Join(lines, "\n");
    assert Split(f, "\n") == lines by {
      EntryLinesShape(entries);
      SplitJoin(lines, '\n');
    }
    assert f != [] && !IsSpace(f[0]) && StrictFrontmatter.NoDashAfterBreak(f) by {
      EntryLinesShape(entries);
      StrictFrontmatter.JoinedLinesNoDash(lines);
      StrictFrontmatter.JoinHead(lines, "\n");
      assert IsKeyChar(entries[0].0[0]);
    }
    FramedMatch(f, body);
    EntryLinesWrites(entries, 0);
  }
}
