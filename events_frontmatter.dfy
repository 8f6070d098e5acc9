/**
 * The frontmatter parser that server/routes/events.ts and
 * netlify/functions/events.ts both carry, character for character. Each
 * non-blank frontmatter line is cut at its first `:`; key and value are
 * trimmed. The value then goes through a chain of conversions: `true`,
 * `false` and numeric text become a boolean or a number, and a bracketed
 * value that is valid JSON becomes an array. Any of these makes the following
 * `value.startsWith` call throw a `TypeError`, so the only values that
 * survive are strings, with surrounding double quotes removed.
 *
 * `JSON.parse` is a parameter: `jsonValid(text)` says whether it accepts the text.
 */
module EventsFrontmatter {
  import opened Outcomes
  import opened JsText
  import opened StrictFrontmatter

  /** A line's trimmed key and trimmed value, `None` for a blank line or a line without `:`. */
  function SplitLine(line: string): (r: Option<(string, string)>)
    ensures r.Some? ==> Trim(line) != [] && Contains(line, ":")
  {
    if Trim(line) == [] then None
    else
      var c := IndexOf(line, ":");
      if c == -1 then None else Some((Trim(line[..c]), Trim(line[c + 1..])))
  }

  /** The value that reaches `frontmatter[key]`, or the exception the conversion chain raises. */
  function CoerceValue(value: string, jsonValid: string -> bool): (r: Result<string>)
    ensures r.Ok? ==> value != "true" && value != "false" && !IsNumericText(value)
    ensures r.Err? ==> r.error == TypeError
    ensures value != [] && value[0] == '"' ==> r == Ok(StripDoubleQuotes(value))
  {
    assert value != [] && value[0] == '"' ==>
             value != "true" && value != "false" && !IsNumericText(value) && !IsBracketed(value) by {
      if value != [] && value[0] == '"' { QuotedPasses(value); }
    }
    if value == "true" || value == "false" || IsNumericText(value) then Err(TypeError)
    else if IsBracketed(value) && jsonValid(value) then Err(TypeError)
    else Ok(StripDoubleQuotes(value))
  }

  /** The conversion chain for a given `JSON.parse`, as a function of the value. */
  function Coercion(jsonValid: string -> bool): string -> Result<string> {
    v => CoerceValue(v, jsonValid)
  }

  /** `parseFrontmatter(markdown)` of server/routes/events.ts and netlify/functions/events.ts. */
  method ParseFrontmatter(markdown: string, jsonValid: string -> bool) returns (r: Result<Parsed>)
    ensures r == Frontmatter(markdown, SplitLine, Coercion(jsonValid))
    ensures SplitFence(markdown).None? ==> r == Ok(Parsed(map[], markdown))
    ensures SplitFence(markdown).Some? && r.Ok? ==> r.value.content == SplitFence(markdown).value.1
  {
    var fence := SplitFence(markdown);
    if fence.None? {
      return Ok(Parsed(map[], markdown));
    }
    var lines := Split(fence.value.0, "\n");
    var frontmatter: map<string, string> := map[];
    var i := 0;
    while i < |lines|
      invariant 0 <= i <= |lines|
      invariant ParseLines(lines[i..], SplitLine, Coercion(jsonValid), frontmatter)
             == ParseLines(lines, SplitLine, Coercion(jsonValid), map[])
    {
      assert lines[i..][1..] == lines[i + 1..];
      var line := lines[i];
      i := i + 1;
      if Trim(line) == [] {
        continue;
      }
      var colon := IndexOf(line, ":");
      if colon == -1 {
        continue;
      }
      var key := Trim(line[..colon]);
      var value := Trim(line[colon + 1..]);
      var coerced := CoerceValue(value, jsonValid);
      if coerced.Err? {
        return Err(coerced.error);
      }
      frontmatter := frontmatter[key := coerced.value];
    }
    assert lines[i..] == [];
    return Ok(Parsed(frontmatter, fence.value.1));
  }

  // ---------------------------------------------------------------- properties

  /** A bracketed value that is not valid JSON is kept as it is, brackets included. */
  lemma InvalidJsonKept(value: string, jsonValid: string -> bool)
    requires IsBracketed(value) && !jsonValid(value)
    ensures CoerceValue(value, jsonValid) == Ok(value)
  {
    assert value[0] == '[';
    assert value != "true" && value != "false";
    assert !IsNumericText(value) by {
      BracketedNotNumeric(value);
    }
  }

  /**
   * A line `published: false` (or any boolean or numeric value) makes the
   * whole parse throw, so no record that the parser returns holds `false`.
   */
  lemma BooleanLineThrows(lines: seq<string>, i: nat, jsonValid: string -> bool, acc: map<string, string>)
    requires i < |lines| && SplitLine(lines[i]).Some?
    requires var v := SplitLine(lines[i]).value.1; v == "true" || v == "false" || IsNumericText(v)
    ensures ParseLines(lines, SplitLine, Coercion(jsonValid), acc) == Err(TypeError)
  {
    assert Throws(lines[i], SplitLine, Coercion(jsonValid));
    ParseLinesThrowsIff(lines, SplitLine, Coercion(jsonValid), acc);
    ParseErrorIsTypeError(lines, jsonValid, acc);
  }

  /** Every exception this parser raises is a `TypeError`. */
  lemma {:induction false} ParseErrorIsTypeError(lines: seq<string>, jsonValid: string -> bool, acc: map<string, string>)
    ensures ParseLines(lines, SplitLine, Coercion(jsonValid), acc).Err? ==>
      ParseLines(lines, SplitLine, Coercion(jsonValid), acc).error == TypeError
    decreases |lines|
  {
    if lines != [] {
      match Step(acc, lines[0], SplitLine, Coercion(jsonValid))
      case Err(_) =>
      case Ok(next) => ParseErrorIsTypeError(lines[1..], jsonValid, next);
    }
  }

  /** The line `key: "value"` splits into the key and the quoted value. */
  lemma EntryLineSplits(key: string, value: string)
    requires GoodKey(key)
    ensures SplitLine(EntryLine(key, value)) == Some((key, Quoted(value)))
  {
    var q := Quoted(value);
    var line := EntryLine(key, value);
    assert line == key + [':'] + (" " + q);
    assert Trim(line) != [] && IndexOf(line, ":") == |key| by {
      EntryLineTrimmed(key, value);
      FirstSepAt(key, ':', " " + q);
    }
    SplitAtColon(line, |key|);
    assert Trim(line[..|key|]) == key by {
      assert line[..|key|] == key;
    }
    assert Trim(line[|key| + 1..]) == q by {
      assert line[|key| + 1..] == " " + q;
      SpacedQuoteTrimmed(value);
    }
  }

  /** A non-blank line whose first `:` is at `c` splits around it. */
  lemma SplitAtColon(line: string, c: nat)
    requires Trim(line) != [] && IndexOf(line, ":") == c
    ensures SplitLine(line) == Some((Trim(line[..c]), Trim(line[c + 1..])))
  {
  }

  /**
   * Round trip: a document whose frontmatter is `key: "value"` lines parses
   * back to the record those entries build, and its body comes back as written.
   */
  lemma EventsRoundTrip(entries: seq<(string, string)>, body: string, jsonValid: string -> bool)
    requires |entries| >= 1 && GoodEntries(entries)
    ensures Frontmatter(Open + Join(EntryLines(entries), "\n") + Close + body, SplitLine, Coercion(jsonValid))
         == Ok(Parsed(Store(entries, map[]), body))
  {
    forall k | 0 <= k < |entries|
      ensures SplitLine(EntryLine(entries[k].0, entries[k].1)) == Some((entries[k].0, Quoted(entries[k].1)))
      ensures Coercion(jsonValid)(Quoted(entries[k].1)) == Ok(entries[k].1)
    {
      EntryLineSplits(entries[k].0, entries[k].1);
      assert Quoted(entries[k].1)[0] == '"';
      StripQuoted(entries[k].1);
    }
    FrontmatterRoundTrip(entries, body, SplitLine, Coercion(jsonValid));
  }
}
