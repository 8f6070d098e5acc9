/**
 * `parseFrontmatter` of client/lib/utils.ts. It uses the same strict
 * pattern as the events parsers, but cuts each non-blank line at every
 * `": "`: the key is the trimmed first piece, and the value is the other
 * pieces joined back with `": "` and trimmed. The conversion chain is the
 * events one, except that `JSON.parse` is not guarded: a bracketed value
 * that is not valid JSON raises a `SyntaxError` there, and one that is valid
 * becomes an array and fails at the next `startsWith`. Either way, any
 * bracketed value makes the parse throw.
 *
 * `JSON.parse` is a parameter: `jsonValid(text)` says whether it accepts the text.
 */
module LibUtils {
  import opened Outcomes
  import opened JsText
  import opened StrictFrontmatter

  const Separator: string := ": "

  /** A non-blank line's trimmed key and trimmed value; `None` for a blank line. */
  function SplitLine(line: string): (r: Option<(string, string)>)
    ensures r.None? <==> Trim(line) == []
  {
    if Trim(line) == [] then None
    else
      var pieces := Split(line, Separator);
      Some((Trim(pieces[0]), Trim(Join(pieces[1..], Separator))))
  }

  /** The value stored under the key, or the exception the conversion chain raises. */
  function CoerceValue(value: string, jsonValid: string -> bool): (r: Result<string>)
    ensures r.Ok? ==> value != "true" && value != "false" && !IsNumericText(value) && !IsBracketed(value)
    ensures r.Ok? ==> r.value == StripDoubleQuotes(value)
    ensures value != [] && value[0] == '"' ==> r == Ok(StripDoubleQuotes(value))
  {
    assert value != [] && value[0] == '"' ==>
             value != "true" && value != "false" && !IsNumericText(value) && !IsBracketed(value) by {
      if value != [] && value[0] == '"' { QuotedPasses(value); }
    }
    if value == "true" || value == "false" || IsNumericText(value) then Err(TypeError)
    else if IsBracketed(value) then (if jsonValid(value) then Err(TypeError) else Err(SyntaxError))
    else Ok(StripDoubleQuotes(value))
  }

  /** The conversion chain for a given `JSON.parse`, as a function of the value. */
  function Coercion(jsonValid: string -> bool): string -> Result<string> {
    v => CoerceValue(v, jsonValid)
  }

  /** `parseFrontmatter(markdown)` of client/lib/utils.ts. */
  method ParseFrontmatter(markdown: string, jsonValid: string -> bool) returns (r: Result<Parsed>)
    ensures r == Frontmatter(markdown, SplitLine, Coercion(jsonValid))
    ensures SplitFence(markdown).None? ==> r == Ok(Parsed(map[], markdown))
    ensures SplitFence(markdown).Some? && r.Ok? ==> r.value.content == SplitFence(markdown).value.1
  {
    var fence := SplitFence(markdown);
    if fence.None? {
      return Ok(Parsed(map[], markdown));
    }
    var lines := Split(fence.value.0, "\n");
    var frontmatter: map<string, string> := map[];
    var i := 0;
    while i < |lines|
      invariant 0 <= i <= |lines|
      invariant ParseLines(lines[i..], SplitLine, Coercion(jsonValid), frontmatter)
             == ParseLines(lines, SplitLine, Coercion(jsonValid), map[])
    {
      assert lines[i..][1..] == lines[i + 1..];
      var line := lines[i];
      i := i + 1;
      if Trim(line) == [] {
        continue;
      }
      var pieces := Split(line, Separator);
      var key := pieces[0];
      var value := Trim(Join(pieces[1..], Separator));
      var coerced := CoerceValue(value, jsonValid);
      if coerced.Err? {
        return Err(coerced.error);
      }
      frontmatter := frontmatter[Trim(key) := coerced.value];
    }
    assert lines[i..] == [];
    return Ok(Parsed(frontmatter, fence.value.1));
  }

  // ---------------------------------------------------------------- properties

  /** A bracketed value always makes the parse throw: `SyntaxError` when it is not valid JSON, `TypeError` when it is. */
  lemma BracketedThrows(value: string, jsonValid: string -> bool)
    requires IsBracketed(value)
    ensures CoerceValue(value, jsonValid) == Err(if jsonValid(value) then TypeError else SyntaxError)
  {
    assert value[0] == '[';
    assert value != "true" && value != "false";
    assert !IsNumericText(value) by {
      BracketedNotNumeric(value);
    }
  }

  /** When the key holds no `:`, the first `": "` of the line is the one after the key. */
  lemma FirstSeparator(key: string, rest: string)
    requires ':' !in key
    ensures IndexOf(key + Separator + rest, Separator) == |key|
  {
    var s := key + Separator + rest;
    assert OccursAt(s, Separator, |key|) by {
      assert s[|key|..|key| + 2] == Separator;
    }
    forall j | 0 <= j < |key|
      ensures !OccursAt(s, Separator, j)
    {
      assert s[j] == key[j] && key[j] in key;
      if j + 2 <= |s| {
        assert s[j..j + 2][0] == s[j];
      }
    }
  }

  /**
   * The value is everything after the first `": "`: further `": "` inside it
   * survive, because the pieces are joined back.
   */
  lemma ValueKeepsSeparator(key: string, rest: string)
    requires ':' !in key
    ensures SplitLine(key + Separator + rest) == Some((Trim(key), Trim(rest)))
  {
    var s := key + Separator + rest;
    FirstSeparator(key, rest);
    SplitHead(s, Separator, |key|);
    assert s[..|key|] == key;
    assert s[|key| + 2..] == rest;
    assert Trim(s) != [] by {
      assert !IsSpace(s[|key|]);
      TrimEmptyAllSpace(s);
    }
  }

  /** A non-blank line without `": "` (such as `foo:bar`) stores the whole trimmed line as a key, with an empty value. */
  lemma NoSeparatorLine(line: string, jsonValid: string -> bool, acc: map<string, string>)
    requires Trim(line) != [] && IndexOf(line, Separator) == -1
    ensures Step(acc, line, SplitLine, Coercion(jsonValid)) == Ok(acc[Trim(line) := ""])
  {
    assert SplitLine(line) == Some((Trim(line), "")) by {
      SplitNone(line, Separator);
      assert Split(line, Separator)[1..] == [];
      assert Join([], Separator) == "";
      TrimPadded([], [], []);
    }
    assert Coercion(jsonValid)("") == Ok("") by {
      assert !IsNumericText("") && !IsBracketed("");
    }
    StepWrites(acc, line, SplitLine, Coercion(jsonValid), Trim(line), "", "");
  }

  /** The line `key: "value"` splits into the key and the quoted value. */
  lemma EntryLineSplits(key: string, value: string)
    requires GoodKey(key)
    ensures SplitLine(EntryLine(key, value)) == Some((key, Quoted(value)))
  {
    var q := Quoted(value);
    assert EntryLine(key, value) == key + Separator + q;
    assert Trim(q) == q by {
      QuotedTrimmed(value);
    }
    ValueKeepsSeparator(key, q);
  }

  /** A quoted value has nothing to trim. */
  lemma QuotedTrimmed(value: string)
    ensures Trim(Quoted(value)) == Quoted(value)
  {
    var q := Quoted(value);
    assert q[0] == '"' && q[|q| - 1] == '"';
    TrimPadded([], q, []);
    assert [] + q + [] == q;
  }

  /**
   * Round trip: a document whose frontmatter is `key: "value"` lines parses
   * back to the record those entries build, and its body comes back as written.
   */
  lemma LibRoundTrip(entries: seq<(string, string)>, body: string, jsonValid: string -> bool)
    requires |entries| >= 1 && GoodEntries(entries)
    ensures Frontmatter(Open + Join(EntryLines(entries), "\n") + Close + body, SplitLine, Coercion(jsonValid))
         == Ok(Parsed(Store(entries, map[]), body))
  {
    forall k | 0 <= k < |entries|
      ensures SplitLine(EntryLine(entries[k].0, entries[k].1)) == Some((entries[k].0, Quoted(entries[k].1)))
      ensures Coercion(jsonValid)(Quoted(entries[k].1)) == Ok(entries[k].1)
    {
      EntryLineSplits(entries[k].0, entries[k].1);
      assert Quoted(entries[k].1)[0] == '"';
      StripQuoted(entries[k].1);
    }
    FrontmatterRoundTrip(entries, body, SplitLine, Coercion(jsonValid));
  }
}
