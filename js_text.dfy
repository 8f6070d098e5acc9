/**
 * The JavaScript string operations the modelled code relies on, written out:
 * `trim` with the whitespace set of the ECMAScript `\s` class, `startsWith`,
 * `endsWith`, `includes`, `indexOf`, `split`/`join` on a string separator,
 * `replace` of the first occurrence, `slice(0, end)`, the UTF-16 code units that
 * `length` and `slice` count, ASCII `toLowerCase`,
 * number-to-decimal conversion, `Number(s)` (only whether it is NaN) and
 * `parseInt(s)`.
 */
module JsText {
  import opened Outcomes

  // ---------------------------------------------------------------- characters

  /** The characters matched by `\s` and removed by `String.prototype.trim`. */
  predicate IsSpace(c: char) {
    || c == ' ' || c == '\t' || c == '\n' || c == '\r' || c == '\U{000B}' || c == '\U{000C}'
    || c == '\U{00A0}' || c == '\U{1680}' || ('\U{2000}' <= c <= '\U{200A}')
    || c == '\U{2028}' || c == '\U{2029}' || c == '\U{202F}' || c == '\U{205F}'
    || c == '\U{3000}' || c == '\U{FEFF}'
  }

  /** The characters `.` does not match in a regular expression without the `s` flag. */
  predicate IsLineTerminator(c: char) {
    c == '\n' || c == '\r' || c == '\U{2028}' || c == '\U{2029}'
  }

  predicate IsDigit(c: char) { '0' <= c <= '9' }

  /** The characters of the `\w` class (no `u` flag). */
  predicate IsWordChar(c: char) {
    ('a' <= c <= 'z') || ('A' <= c <= 'Z') || IsDigit(c) || c == '_'
  }

  predicate AllSpace(s: string) { forall i :: 0 <= i < |s| ==> IsSpace(s[i]) }

  // ---------------------------------------------------------------- trimming

  function TrimStart(s: string): (r: string)
    ensures |r| <= |s| && r == s[|s| - |r|..]
    ensures AllSpace(s[..|s| - |r|])
    ensures r == [] || !IsSpace(r[0])
  {
    if s != [] && IsSpace(s[0]) then TrimStart(s[1..]) else s
  }

  function TrimEnd(s: string): (r: string)
    ensures |r| <= |s| && r == s[..|r|]
    ensures AllSpace(s[|r|..])
    ensures r == [] || !IsSpace(r[|r| - 1])
  {
    if s != [] && IsSpace(s[|s| - 1]) then TrimEnd(s[..|s| - 1]) else s
  }

  /** `s.trim()`: whitespace removed at both ends. */
  function Trim(s: string): (r: string)
    ensures |r| <= |s|
    ensures r == [] || (!IsSpace(r[0]) && !IsSpace(r[|r| - 1]))
    ensures r == TrimEnd(TrimStart(s))
  {
    TrimEnd(TrimStart(s))
  }

  lemma {:induction false} TrimStartPadded(w: string, t: string)
    requires AllSpace(w)
    requires t == [] || !IsSpace(t[0])
    ensures TrimStart(w + t) == t
    decreases |w|
  {
    if w != [] {
      assert (w + t)[1..] == w[1..] + t;
      TrimStartPadded(w[1..], t);
    } else {
      assert w + t == t;
    }
  }

  lemma {:induction false} TrimEndPadded(t: string, w: string)
    requires AllSpace(w)
    requires t == [] || !IsSpace(t[|t| - 1])
    ensures TrimEnd(t + w) == t
    decreases |w|
  {
    if w != [] {
      assert (t + w)[..|t + w| - 1] == t + w[..|w| - 1];
      TrimEndPadded(t, w[..|w| - 1]);
    } else {
      assert t + w == t;
    }
  }

  /** Whitespace around a text that is not itself padded is exactly what `trim` removes. */
  lemma TrimPadded(w1: string, t: string, w2: string)
    requires AllSpace(w1) && AllSpace(w2)
    requires t == [] || (!IsSpace(t[0]) && !IsSpace(t[|t| - 1]))
    ensures Trim(w1 + t + w2) == t
  {
    if t == [] {
      assert w1 + t + w2 == w1 + w2;
      assert AllSpace(w1 + w2);
      TrimStartPadded(w1 + w2, []);
      assert w1 + w2 + [] == w1 + w2;
      TrimEndPadded([], []);
    } else {
      assert w1 + t + w2 == w1 + (t + w2);
      TrimStartPadded(w1, t + w2);
      TrimEndPadded(t, w2);
    }
  }

  lemma TrimIdempotent(s: string)
    ensures Trim(Trim(s)) == Trim(s)
  {
    TrimPadded([], Trim(s), []);
    assert [] + Trim(s) + [] == Trim(s);
  }

  /** Only a text made of white space trims to nothing. */
  lemma TrimEmptyAllSpace(s: string)
    ensures Trim(s) == [] ==> AllSpace(s)
  {
    var t := TrimStart(s);
    if TrimEnd(t) == [] {
      assert AllSpace(t[0..]);
      assert t[0..] == t;
      assert t == [];
      assert s[..|s| - |t|] == s;
    }
  }

  // ---------------------------------------------------------------- searching

  predicate StartsWith(s: string, p: string) { |p| <= |s| && s[..|p|] == p }

  predicate EndsWith(s: string, p: string) { |p| <= |s| && s[|s| - |p|..] == p }

  lemma EndsWithConcat(p: string, q: string)
    ensures EndsWith(p + q, q)
  {
    assert (p + q)[|p|..] == q;
  }

  /** `p` occurs in `s` at position `j`. */
  predicate OccursAt(s: string, p: string, j: int) {
    0 <= j && j + |p| <= |s| && s[j..j + |p|] == p
  }

  /** `s.indexOf(p, k)` for `k <= |s|`: the first position at or after `k` where `p` occurs, or -1. */
  function IndexOfFrom(s: string, p: string, k: nat): (r: int)
    requires k <= |s|
    decreases |s| - k
    ensures r == -1 || (k <= r && OccursAt(s, p, r))
    ensures forall j :: k <= j && (r == -1 || j < r) ==> !OccursAt(s, p, j)
  {
    if k + |p| > |s| then -1
    else if s[k..k + |p|] == p then k
    else if k == |s| then -1
    else IndexOfFrom(s, p, k + 1)
  }

  function IndexOf(s: string, p: string): (r: int)
    ensures r == -1 || OccursAt(s, p, r)
    ensures forall j :: 0 <= j && (r == -1 || j < r) ==> !OccursAt(s, p, j)
  {
    IndexOfFrom(s, p, 0)
  }

  /** `s.includes(p)` */
  predicate Contains(s: string, p: string) { IndexOf(s, p) != -1 }

  /** `s.replace(p, q)` with a string pattern: only the first occurrence is replaced. */
  function ReplaceFirst(s: string, p: string, q: string): (r: string)
    ensures IndexOf(s, p) == -1 ==> r == s
    ensures IndexOf(s, p) != -1 ==> r == s[..IndexOf(s, p)] + q + s[IndexOf(s, p) + |p|..]
  {
    var i := IndexOf(s, p);
    if i == -1 then s else s[..i] + q + s[i + |p|..]
  }

  // ---------------------------------------------------------------- split and join

  /** `s.split(sep)` for a non-empty string separator. */
  function Split(s: string, sep: string): (parts: seq<string>)
    requires sep != []
    decreases |s|
    ensures |parts| >= 1
  {
    var i := IndexOf(s, sep);
    if i == -1 then [s] else [s[..i]] + Split(s[i + |sep|..], sep)
  }

  /** `parts.join(sep)` */
  function Join(parts: seq<string>, sep: string): string
  {
    if parts == [] then ""
    else if |parts| == 1 then parts[0]
    else parts[0] + sep + Join(parts[1..], sep)
  }

  /** Splitting and joining back with the same separator gives the text back. */
  lemma {:induction false} JoinSplit(s: string, sep: string)
    requires sep != []
    ensures Join(Split(s, sep), sep) == s
    decreases |s|
  {
    var i := IndexOf(s, sep);
    if i == -1 {
      SplitNone(s, sep);
    } else {
      JoinSplit(s[i + |sep|..], sep);
      JoinSplitStep(s, sep, i);
    }
  }

  lemma JoinSplitStep(s: string, sep: string, i: int)
    requires sep != [] && i == IndexOf(s, sep) && i != -1
    requires Join(Split(s[i + |sep|..], sep), sep) == s[i + |sep|..]
    ensures Join(Split(s, sep), sep) == s
  {
    SplitCons(s, sep, i);
    JoinAround(s, sep, i, Split(s[i + |sep|..], sep));
  }

  /** The piece before an occurrence of the separator, joined to pieces that rebuild what follows it, rebuilds the text. */
  lemma JoinAround(s: string, sep: string, i: nat, tail: seq<string>)
    requires OccursAt(s, sep, i)
    requires |tail| >= 1 && Join(tail, sep) == s[i + |sep|..]
    ensures Join([s[..i]] + tail, sep) == s
  {
    JoinCons(s[..i], tail, sep);
    Recompose(s, i, |sep|);
  }

  /** Growing a slice by one element. */
  lemma SliceExtend<T>(xs: seq<T>, i: nat, j: nat)
    requires i <= j < |xs|
    ensures xs[i..j + 1] == xs[i..j] + [xs[j]]
    ensures xs[j..][1..] == xs[j + 1..]
  {
  }

  lemma Recompose(s: string, i: nat, n: nat)
    requires i + n <= |s|
    ensures s[..i] + s[i..i + n] + s[i + n..] == s
  {
  }

  lemma JoinCons(x: string, tail: seq<string>, sep: string)
    requires |tail| >= 1
    ensures Join([x] + tail, sep) == x + sep + Join(tail, sep)
  {
    assert ([x] + tail)[1..] == tail;
  }

  /** The first piece is the text before the first separator; the rest joins back to what follows it. */
  lemma SplitHead(s: string, sep: string, i: int)
    requires sep != [] && i == IndexOf(s, sep) && i != -1
    ensures Split(s, sep)[0] == s[..i]
    ensures Join(Split(s, sep)[1..], sep) == s[i + |sep|..]
  {
    SplitCons(s, sep, i);
    JoinTail(s[..i], s[i + |sep|..], sep);
  }

  lemma SplitCons(s: string, sep: string, i: int)
    requires sep != [] && i == IndexOf(s, sep) && i != -1
    ensures Split(s, sep) == [s[..i]] + Split(s[i + |sep|..], sep)
  {
  }

  /** Without a separator the string is its one piece. */
  lemma SplitNone(s: string, sep: string)
    requires sep != [] && IndexOf(s, sep) == -1
    ensures Split(s, sep) == [s]
  {
  }

  lemma JoinTail(head: string, rest: string, sep: string)
    requires sep != []
    ensures Join(([head] + Split(rest, sep))[1..], sep) == rest
  {
    assert ([head] + Split(rest, sep))[1..] == Split(rest, sep);
    JoinSplit(rest, sep);
  }

  /** Joining lines free of a one-character separator and splitting again gives the lines back. */
  lemma {:induction false} SplitJoin(parts: seq<string>, c: char)
    requires |parts| >= 1
    requires forall k :: 0 <= k < |parts| ==> c !in parts[k]
    ensures Split(Join(parts, [c]), [c]) == parts
    decreases |parts|
  {
    var s := Join(parts, [c]);
    if |parts| == 1 {
      NoSepIndex(parts[0], c);
    } else {
      var tail := Join(parts[1..], [c]);
      assert s == parts[0] + [c] + tail;
      NoSepIndex(parts[0], c);
      FirstSepAt(parts[0], c, tail);
      assert s[|parts[0]| + 1..] == tail;
      assert s[..|parts[0]|] == parts[0];
      SplitJoin(parts[1..], c);
    }
  }

  lemma NoSepIndex(s: string, c: char)
    requires c !in s
    ensures IndexOf(s, [c]) == -1
  {
    forall j | 0 <= j
      ensures !OccursAt(s, [c], j)
    {
      if j < |s| {
        assert s[j] in s;
        assert s[j..j + 1] == [s[j]];
      }
    }
  }

  lemma FirstSepAt(a: string, c: char, b: string)
    requires c !in a
    ensures IndexOf(a + [c] + b, [c]) == |a|
  {
    var s := a + [c] + b;
    assert s[|a|..|a| + 1] == [c];
    assert OccursAt(s, [c], |a|);
    forall j | 0 <= j < |a|
      ensures !OccursAt(s, [c], j)
    {
      assert a[j] in a;
      assert s[j..j + 1] == [a[j]];
    }
  }

  // ---------------------------------------------------------------- slicing

  /** `xs.slice(0, end)` for an integral `end`: a negative end counts back from the length. */
  function SliceTo<T>(xs: seq<T>, end: int): (r: seq<T>)
    ensures |r| <= |xs| && r == xs[..|r|]
    ensures end >= 0 ==> |r| == (if end < |xs| then end else |xs|)
    ensures end < 0 ==> |r| == (if |xs| + end > 0 then |xs| + end else 0)
  {
    if end >= 0 then (if end < |xs| then xs[..end] else xs)
    else if |xs| + end > 0 then xs[..|xs| + end] else []
  }

  // ---------------------------------------------------------------- UTF-16

  /**
   * A JavaScript string is a sequence of UTF-16 code units; `length` counts
   * them and `slice` cuts between them, so a character outside the Basic
   * Multilingual Plane counts twice and can be cut in half.
   */
  newtype CodeUnit = n: int | 0 <= n < 0x1_0000

  /** One character's units: itself below U+10000, else its surrogate pair. */
  function Utf16Char(c: char): (u: seq<CodeUnit>)
    ensures |u| == (if c as int < 0x1_0000 then 1 else 2)
  {
    var n := c as int;
    if n < 0x1_0000 then [n as CodeUnit]
    else [(0xD800 + (n - 0x1_0000) / 0x400) as CodeUnit, (0xDC00 + (n - 0x1_0000) % 0x400) as CodeUnit]
  }

  /** The JavaScript string holding the text. */
  function Utf16(s: string): (u: seq<CodeUnit>)
    ensures |s| <= |u| <= 2 * |s|
  {
    if s == [] then [] else Utf16Char(s[0]) + Utf16(s[1..])
  }

  lemma {:induction false} Utf16Concat(a: string, b: string)
    ensures Utf16(a + b) == Utf16(a) + Utf16(b)
  {
    if a == [] {
      assert a + b == b;
    } else {
      assert (a + b)[1..] == a[1..] + b;
      Utf16Concat(a[1..], b);
    }
  }

  /** A slice of a text is no longer, in code units, than the text. */
  lemma Utf16Slice(s: string, a: nat, b: nat)
    requires a <= b <= |s|
    ensures |Utf16(s[a..b])| <= |Utf16(s)|
  {
    assert s == s[..a] + s[a..b] + s[b..];
    Utf16Concat(s[..a] + s[a..b], s[b..]);
    Utf16Concat(s[..a], s[a..b]);
  }

  /** Every character lies in the Basic Multilingual Plane, so each is one code unit. */
  predicate Narrow(s: string) { forall i :: 0 <= i < |s| ==> s[i] as int < 0x1_0000 }

  /** A narrow text has as many code units as characters. */
  lemma {:induction false} NarrowUtf16(s: string)
    requires Narrow(s)
    ensures |Utf16(s)| == |s|
  {
    if s != [] {
      assert s[0] as int < 0x1_0000;
      NarrowUtf16(s[1..]);
    }
  }

  /** A slice of a narrow text is narrow. */
  lemma NarrowSlice(s: string, a: nat, b: nat)
    requires a <= b <= |s| && Narrow(s)
    ensures Narrow(s[a..b])
  {
    forall i | 0 <= i < b - a ensures s[a..b][i] as int < 0x1_0000 {
      assert s[a..b][i] == s[a + i];
    }
  }

  /** Trimming never lengthens a text in code units, and keeps a narrow text narrow. */
  lemma TrimUtf16(s: string)
    ensures |Utf16(Trim(s))| <= |Utf16(s)|
    ensures Narrow(s) ==> Narrow(Trim(s))
  {
    var t := TrimStart(s);
    var r := TrimEnd(t);
    assert s[|s| - |t|..|s|] == t;
    assert t[0..|r|] == r;
    Utf16Slice(s, |s| - |t|, |s|);
    Utf16Slice(t, 0, |r|);
    if Narrow(s) {
      NarrowSlice(s, |s| - |t|, |s|);
      NarrowSlice(t, 0, |r|);
    }
  }

  /** Cutting a narrow text by code units cuts it by characters. */
  lemma NarrowSliceTo(s: string, end: nat)
    requires Narrow(s)
    ensures SliceTo(Utf16(s), end) == Utf16(SliceTo(s, end))
  {
    if end < |s| {
      assert s == s[..end] + s[end..];
      Utf16Concat(s[..end], s[end..]);
      NarrowUtf16(s[..end]);
      NarrowUtf16(s);
    } else {
      NarrowUtf16(s);
    }
  }

  // ---------------------------------------------------------------- case

  /** `toLowerCase` on the ASCII letters. */
  function LowerChar(c: char): (d: char)
    ensures ('A' <= c <= 'Z') ==> d as int == c as int + 32
    ensures !('A' <= c <= 'Z') ==> d == c
  {
    if 'A' <= c <= 'Z' then (c as int + 32) as char else c
  }

  function ToLower(s: string): (r: string)
    ensures |r| == |s|
    ensures forall i :: 0 <= i < |s| ==> r[i] == LowerChar(s[i])
  {
    seq(|s|, i requires 0 <= i < |s| => LowerChar(s[i]))
  }

  // ---------------------------------------------------------------- numbers to text

  function DigitChar(d: nat): char
    requires d < 10
  {
    "0123456789"[d]
  }

  /** The decimal numeral of a natural number, as template literals print it. */
  function NatToString(n: nat): (r: string)
    ensures |r| >= 1
    ensures forall i :: 0 <= i < |r| ==> IsDigit(r[i])
    decreases n
  {
    if n < 10 then [DigitChar(n)] else NatToString(n / 10) + [DigitChar(n % 10)]
  }

  function IntToString(n: int): (r: string)
    ensures |r| >= 1
    ensures n >= 0 <==> IsDigit(r[0])
  {
    if n >= 0 then NatToString(n) else "-" + NatToString(-n)
  }

  // ---------------------------------------------------------------- text to numbers

  predicate AllDigits(s: string) { forall i :: 0 <= i < |s| ==> IsDigit(s[i]) }

  predicate IsHexDigit(c: char) { IsDigit(c) || ('a' <= c <= 'f') || ('A' <= c <= 'F') }

  /** The exponent part after `e`/`E`: an optional sign and at least one digit. */
  predicate IsExponentBody(s: string) {
    if s != [] && (s[0] == '+' || s[0] == '-') then s[1..] != [] && AllDigits(s[1..])
    else s != [] && AllDigits(s)
  }

  /** `digits`, `digits.`, `digits.digits` or `.digits` */
  predicate IsMantissa(s: string) {
    var dot := IndexOf(s, ".");
    if dot == -1 then s != [] && AllDigits(s)
    else
      AllDigits(s[..dot]) && AllDigits(s[dot + 1..]) && (dot > 0 || |s| > dot + 1)
  }

  /** A text that starts with neither a digit nor `.` is no mantissa. */
  lemma LeadingNonDigitNotMantissa(s: string)
    requires s != [] && !IsDigit(s[0]) && s[0] != '.'
    ensures !IsMantissa(s)
  {
    var dot := IndexOf(s, ".");
    if dot > 0 {
      assert s[..dot][0] == s[0];
    }
  }

  /** StrUnsignedDecimalLiteral of ECMAScript's StringToNumber grammar. */
  predicate IsUnsignedDecimal(s: string) {
    if s == "Infinity" then true
    else
      var e := IndexOf(s, "e");
      var bigE := IndexOf(s, "E");
      var k := if e == -1 then bigE else if bigE == -1 then e else if e < bigE then e else bigE;
      if k == -1 then IsMantissa(s) else IsMantissa(s[..k]) && IsExponentBody(s[k + 1..])
  }

  /** A text that starts with neither a digit, `.` nor `I` is no unsigned decimal. */
  lemma LeadingNonDigitNotUnsigned(t: string)
    requires t != [] && !IsDigit(t[0]) && t[0] != '.' && t[0] != 'I'
    ensures !IsUnsignedDecimal(t)
  {
    LeadingNonDigitNotMantissa(t);
    var e := IndexOf(t, "e");
    var bigE := IndexOf(t, "E");
    var k := if e == -1 then bigE else if bigE == -1 then e else if e < bigE then e else bigE;
    if k == 0 {
      assert t[..k] == [];
      assert IndexOf([], ".") == -1;
    } else if k > 0 {
      assert t[..k][0] == t[0];
      LeadingNonDigitNotMantissa(t[..k]);
    }
  }

  predicate IsRadixLiteral(s: string) {
    && |s| > 2 && s[0] == '0'
    && (|| ((s[1] == 'x' || s[1] == 'X') && forall i :: 2 <= i < |s| ==> IsHexDigit(s[i]))
        || ((s[1] == 'o' || s[1] == 'O') && forall i :: 2 <= i < |s| ==> '0' <= s[i] <= '7')
        || ((s[1] == 'b' || s[1] == 'B') && forall i :: 2 <= i < |s| ==> s[i] == '0' || s[i] == '1'))
  }

  /** `Number.isNaN(Number(s))`: the trimmed text is neither empty nor a numeric literal. */
  predicate NumberIsNaN(s: string) {
    var t := Trim(s);
    if t == [] then false
    else if IsRadixLiteral(t) then false
    else if t[0] == '+' || t[0] == '-' then !IsUnsignedDecimal(t[1..])
    else !IsUnsignedDecimal(t)
  }

  /** A text whose first character can open no numeric literal is `NaN`. */
  lemma LeadingNonNumericNaN(s: string)
    requires s != [] && !IsSpace(s[0]) && !IsDigit(s[0])
    requires s[0] != '.' && s[0] != 'I' && s[0] != '+' && s[0] != '-'
    ensures NumberIsNaN(s)
  {
    assert TrimStart(s) == s;
    var t := TrimEnd(s);
    assert t != [] && t[0] == s[0];
    assert Trim(s) == t;
    LeadingNonDigitNotUnsigned(t);
  }

  function DigitValue(c: char): (d: nat)
    requires IsHexDigit(c)
    ensures d < 16
  {
    if IsDigit(c) then c as int - '0' as int
    else if 'a' <= c <= 'f' then c as int - 'a' as int + 10
    else c as int - 'A' as int + 10
  }

  predicate IsRadixDigit(c: char, radix: nat) {
    IsHexDigit(c) && DigitValue(c) < radix
  }

  /** The number of leading characters of `s` that are digits in `radix`. */
  function DigitRun(s: string, radix: nat): (n: nat)
    ensures n <= |s|
    ensures forall i :: 0 <= i < n ==> IsRadixDigit(s[i], radix)
    ensures n < |s| ==> !IsRadixDigit(s[n], radix)
  {
    if s != [] && IsRadixDigit(s[0], radix) then 1 + DigitRun(s[1..], radix) else 0
  }

  lemma ProductNat(a: nat, b: nat)
    ensures a * b >= 0
  {
  }

  /** The value of a numeral in `radix`, most significant digit first. */
  function NumeralValue(s: string, radix: nat): nat
    requires forall i :: 0 <= i < |s| ==> IsRadixDigit(s[i], radix)
  {
    if s == [] then 0
    else
      var init := s[..|s| - 1];
      assert forall i :: 0 <= i < |init| ==> IsRadixDigit(init[i], radix) by {
        assert forall i :: 0 <= i < |init| ==> init[i] == s[i];
      }
      assert IsRadixDigit(s[|s| - 1], radix);
      var high := NumeralValue(init, radix);
      ProductNat(high, radix);
      high * radix + DigitValue(s[|s| - 1])
  }

  /** The radix `parseInt` picks for an unsigned numeral: 16 after a `0x` prefix, else 10. */
  function RadixOf(u: string): nat {
    if |u| >= 2 && u[0] == '0' && (u[1] == 'x' || u[1] == 'X') then 16 else 10
  }

  function DigitsOf(u: string): string {
    if RadixOf(u) == 16 then u[2..] else u
  }

  /** `parseInt` after the sign: the value of the longest digit run, `None` when it is empty. */
  function ParseUnsigned(u: string): (r: Option<nat>)
    ensures r.None? <==> DigitRun(DigitsOf(u), RadixOf(u)) == 0
  {
    var digits := DigitsOf(u);
    var n := DigitRun(digits, RadixOf(u));
    if n == 0 then None else Some(NumeralValue(digits[..n], RadixOf(u)))
  }

  /**
   * `parseInt(s)` with no radix: leading whitespace, an optional sign, a `0x`
   * prefix selecting base 16, then the longest run of digits; `None` is NaN.
   */
  function ParseInt(s: string): Option<int>
  {
    var t := TrimStart(s);
    var negative := t != [] && t[0] == '-';
    var u := if t != [] && (t[0] == '+' || t[0] == '-') then t[1..] else t;
    match ParseUnsigned(u)
    case None => None
    case Some(v) => Some(if negative then 0 - v else v)
  }

  lemma {:induction false} NumeralOfNatToString(n: nat)
    ensures forall i :: 0 <= i < |NatToString(n)| ==> IsRadixDigit(NatToString(n)[i], 10)
    ensures NumeralValue(NatToString(n), 10) == n
    decreases n
  {
    var r := NatToString(n);
    forall i | 0 <= i < |r|
      ensures IsRadixDigit(r[i], 10)
    {
      assert IsDigit(r[i]);
    }
    if n >= 10 {
      NumeralOfNatToString(n / 10);
      var d := DigitChar(n % 10);
      assert r == NatToString(n / 10) + [d];
      assert r[..|r| - 1] == NatToString(n / 10);
      assert DigitValue(d) == n % 10;
    } else {
      assert r[..0] == [];
    }
  }

  lemma ParseUnsignedOfNatToString(m: nat)
    ensures ParseUnsigned(NatToString(m)) == Some(m)
  {
    var d := NatToString(m);
    NumeralOfNatToString(m);
    assert RadixOf(d) == 10 by {
      if |d| >= 2 {
        assert IsDigit(d[1]);
      }
    }
    assert DigitsOf(d) == d;
    DigitRunOfDigits(d, 10);
    assert d[..|d|] == d;
  }

  lemma {:induction false} DigitRunOfDigits(d: string, radix: nat)
    requires forall i :: 0 <= i < |d| ==> IsRadixDigit(d[i], radix)
    ensures DigitRun(d, radix) == |d|
  {
    if d != [] {
      DigitRunOfDigits(d[1..], radix);
    }
  }

  /** `parseInt` reads back the decimal numeral of any integer. */
  lemma ParseIntOfIntToString(n: int)
    ensures ParseInt(IntToString(n)) == Some(n)
  {
    var negative := n < 0;
    var m: nat := if negative then -n else n;
    ParseIntOfSigned(m, negative);
    assert IntToString(n) == (if negative then "-" else "") + NatToString(m);
  }

  lemma ParseIntOfSigned(m: nat, negative: bool)
    ensures ParseInt((if negative then "-" else "") + NatToString(m)) == Some(if negative then -(m as int) else m)
  {
    if negative {
      ParseIntOfNegative(m);
    } else {
      ParseIntOfPlain(m);
    }
  }

  lemma ParseIntOfPlain(m: nat)
    ensures ParseInt("" + NatToString(m)) == Some(m)
  {
    var d := NatToString(m);
    assert "" + d == d;
    assert IsDigit(d[0]);
    assert TrimStart(d) == d by {
      DigitNotSpace(d[0]);
      TrimStartPadded([], d);
      assert [] + d == d;
    }
    ParseIntUnsigned(d);
    ParseUnsignedOfNatToString(m);
  }

  /** Text that starts with neither white space nor a sign is read by `ParseUnsigned` alone. */
  lemma ParseIntUnsigned(t: string)
    requires TrimStart(t) == t && t != [] && t[0] != '+' && t[0] != '-'
    ensures ParseInt(t) == ParseUnsigned(t)
  {
    var p := ParseUnsigned(t);
    assert ParseInt(t) == match p case None => None case Some(v) => Some(v as int);
  }

  lemma DigitNotSpace(c: char)
    requires IsDigit(c)
    ensures !IsSpace(c)
  {
  }

  lemma ParseIntOfNegative(m: nat)
    ensures ParseInt("-" + NatToString(m)) == Some(-(m as int))
  {
    var d := NatToString(m);
    var s := "-" + d;
    assert TrimStart(s) == s by {
      TrimStartPadded([], s);
      assert [] + s == s;
    }
    assert s[1..] == d;
    ParseUnsignedOfNatToString(m);
  }

}
