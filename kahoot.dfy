// The console client's wire handling (`ClienteKahoot`): JSON escaping, the
// three hand-written JSON field extractors, detection of the server's wire
// mode, reading an HTTP-framed message and writing one.

module Kahoot {
  import opened Wrappers
  import opened Text

  // ------------------------------------------------------------- escaping

  /** `escapeJson`: backslash, then quote, CR and LF, each replaced in turn
      over the whole text. */
  function EscapeJson(s: String): String {
    Replace(Replace(Replace(Replace(s, "\\", "\\\\"), "\"", "\\\""), "\r", "\\r"), "\n", "\\n")
  }

  /** `unescapeJson`: the reverse replacements, LF first and backslash last. */
  function UnescapeJson(s: String): String {
    Replace(Replace(Replace(Replace(s, "\\n", "\n"), "\\r", "\r"), "\\\"", "\""), "\\\\", "\\")
  }

  /** The escape of one character, as a reference for `EscapeJson`. */
  function EscapeChar(c: char): String {
    if c == '\\' then "\\\\"
    else if c == '"' then "\\\""
    else if c == '\r' then "\\r"
    else if c == '\n' then "\\n"
    else [c]
  }

  /** Character-by-character escaping. */
  function EscapeEach(s: String): String {
    if s == [] then [] else EscapeChar(s[0]) + EscapeEach(s[1..])
  }

  /** Replacing a single character in a single character. */
  lemma {:induction false} ReplaceSingle(c: char, t: String, r: String)
    requires |t| == 1
    ensures Replace([c], t, r) == if c == t[0] then r else [c]
  {
    assert [c][1..] == [];
    if c == t[0] {
      assert [c][..1] == t;
    } else {
      assert [c][..1] != t;
    }
  }

  lemma {:induction false} EscapeConcat(a: String, b: String)
    ensures EscapeJson(a + b) == EscapeJson(a) + EscapeJson(b)
  {
    var a1, b1 := Replace(a, "\\", "\\\\"), Replace(b, "\\", "\\\\");
    ReplaceConcat(a, b, "\\", "\\\\");
    var a2, b2 := Replace(a1, "\"", "\\\""), Replace(b1, "\"", "\\\"");
    ReplaceConcat(a1, b1, "\"", "\\\"");
    var a3, b3 := Replace(a2, "\r", "\\r"), Replace(b2, "\r", "\\r");
    ReplaceConcat(a2, b2, "\r", "\\r");
    ReplaceConcat(a3, b3, "\n", "\\n");
  }

  lemma {:induction false} EscapeSingle(c: char)
    ensures EscapeJson([c]) == EscapeChar(c)
  {
    ReplaceSingle(c, "\\", "\\\\");
    var a1 := Replace([c], "\\", "\\\\");
    if c == '\\' {
      ReplaceAbsent(a1, "\"", "\\\"");
      ReplaceAbsent(a1, "\r", "\\r");
      ReplaceAbsent(a1, "\n", "\\n");
    } else {
      ReplaceSingle(c, "\"", "\\\"");
      var a2 := Replace(a1, "\"", "\\\"");
      if c == '"' {
        ReplaceAbsent(a2, "\r", "\\r");
        ReplaceAbsent(a2, "\n", "\\n");
      } else {
        ReplaceSingle(c, "\r", "\\r");
        var a3 := Replace(a2, "\r", "\\r");
        if c == '\r' {
          ReplaceAbsent(a3, "\n", "\\n");
        } else {
          ReplaceSingle(c, "\n", "\\n");
        }
      }
    }
  }

  /** The replace chain escapes each character on its own: no replacement
      creates text that a later one rewrites. */
  lemma {:induction false} EscapeIsEachChar(s: String)
    ensures EscapeJson(s) == EscapeEach(s)
    decreases |s|
  {
    if s == [] {
      assert EscapeJson(s) == [];
    } else {
      assert s == [s[0]] + s[1..];
      EscapeConcat([s[0]], s[1..]);
      EscapeSingle(s[0]);
      EscapeIsEachChar(s[1..]);
    }
  }

  /** The escaped text holds no raw CR or LF, so `println` keeps each JSON
      message on one line. */
  lemma {:induction false} EscapeNoBreak(s: String)
    ensures NoBreak(EscapeJson(s))
  {
    var a2 := Replace(Replace(s, "\\", "\\\\"), "\"", "\\\"");
    var a3 := Replace(a2, "\r", "\\r");
    ReplaceRemoves(a2, '\r', "\\r");
    ReplaceKeepsOut(a3, "\n", "\\n", '\r');
    ReplaceRemoves(a3, '\n', "\\n");
    var e := EscapeJson(s);
    assert forall i :: 0 <= i < |e| ==> e[i] != '\r' && e[i] != '\n';
  }

  /** A two-character target never matches inside a text of one character. */
  lemma {:induction false} ReplaceShortText(c: char, t: String, r: String)
    requires |t| == 2
    ensures Replace([c], t, r) == [c]
  {
  }

  /** Unescaping the escape of a character other than backslash gives the
      character back, and the text after it is unescaped on its own. */
  lemma {:induction false} UnescapeEscaped(c: char, y: String)
    requires c != '\\'
    ensures UnescapeJson(EscapeChar(c) + y) == [c] + UnescapeJson(y)
  {
    var e := EscapeChar(c);
    var a1, b1 := Replace(e, "\\n", "\n"), Replace(y, "\\n", "\n");
    ReplaceConcat(e, y, "\\n", "\n");
    var a2, b2 := Replace(a1, "\\r", "\r"), Replace(b1, "\\r", "\r");
    var a3, b3 := Replace(a2, "\\\"", "\""), Replace(b2, "\\\"", "\"");
    if c == '"' {
      assert e[..2] != "\\n" && e[1..] == "\"";
      assert a1 == e;
      assert a1[..2] != "\\r";
      assert a2 == e;
      assert a2[..2] == "\\\"" && a2[2..] == [];
      assert a3 == "\"";
    } else if c == '\r' {
      assert e[..2] != "\\n" && e[1..] == "r";
      assert a1 == e;
      assert a1[..2] == "\\r" && a1[2..] == [];
      assert a2 == "\r";
      ReplaceShortText('\r', "\\\"", "\"");
    } else if c == '\n' {
      assert e[..2] == "\\n" && e[2..] == [];
      assert a1 == "\n";
      ReplaceShortText('\n', "\\r", "\r");
      ReplaceShortText('\n', "\\\"", "\"");
    } else {
      ReplaceShortText(c, "\\n", "\n");
      ReplaceShortText(c, "\\r", "\r");
      ReplaceShortText(c, "\\\"", "\"");
    }
    ReplaceConcat(a1, b1, "\\r", "\r");
    ReplaceConcat(a2, b2, "\\\"", "\"");
    ReplaceConcat(a3, b3, "\\\\", "\\");
    ReplaceShortText(c, "\\\\", "\\");
  }

  lemma {:induction false} UnescapeEach(s: String)
    requires '\\' !in s
    ensures UnescapeJson(EscapeEach(s)) == s
    decreases |s|
  {
    if s == [] {
      assert UnescapeJson([]) == [];
    } else {
      UnescapeEscaped(s[0], EscapeEach(s[1..]));
      assert '\\' !in s[1..];
      UnescapeEach(s[1..]);
    }
  }

  /** Without backslashes in the input, unescaping undoes escaping. */
  lemma {:induction false} EscapeRoundTrip(s: String)
    requires '\\' !in s
    ensures UnescapeJson(EscapeJson(s)) == s
  {
    EscapeIsEachChar(s);
    UnescapeEach(s);
  }

  /** With a backslash it does not: `\n` (backslash, letter n) escapes to
      `\\n`, and unescaping turns its last two characters into a line feed
      before the doubled backslash is looked at. */
  lemma {:induction false} BackslashBreaksRoundTrip()
    ensures UnescapeJson(EscapeJson("\\n")) == "\\\n"
    ensures UnescapeJson(EscapeJson("\\n")) != "\\n"
  {
    BackslashEscaped();
    LineFeedFirst();
    OthersUntouched();
    assert "\\\n"[1] != "\\n"[1];
  }

  /** Backslash, letter n escapes to two backslashes and the letter n. */
  lemma {:induction false} BackslashEscaped()
    ensures EscapeJson("\\n") == "\\\\n"
  {
    var s: String := "\\n";
    EscapeIsEachChar(s);
    assert s[1..] == "n";
    assert EscapeEach("n") == "n" by {
      assert "n"[1..] == [];
    }
  }

  /** The first replacement of `unescapeJson` reads the last two of them as
      an escaped line feed. */
  lemma {:induction false} LineFeedFirst()
    ensures Replace("\\\\n", "\\n", "\n") == "\\\n"
  {
    var e: String := "\\\\n";
    assert e[..2] != "\\n" && e[1..] == "\\n";
    assert Replace("\\n", "\\n", "\n") == "\n" by {
      assert "\\n"[..2] == "\\n" && "\\n"[2..] == [];
    }
  }

  /** The other three replacements leave a backslash and a line feed alone. */
  lemma {:induction false} OthersUntouched()
    ensures Replace(Replace(Replace("\\\n", "\\r", "\r"), "\\\"", "\""), "\\\\", "\\") == "\\\n"
  {
    BackslashLineFeedKept("\\r", "\r");
    BackslashLineFeedKept("\\\"", "\"");
    BackslashLineFeedKept("\\\\", "\\");
  }

  /** A two-character target that does not end in a line feed leaves a
      backslash and a line feed alone. */
  lemma {:induction false} BackslashLineFeedKept(t: String, r: String)
    requires |t| == 2 && t[1] != '\n'
    ensures Replace("\\\n", t, r) == "\\\n"
  {
    var a: String := "\\\n";
    assert a[..2][1] == '\n';
    ReplaceSkip(a, [], t, r);
    assert a[1..] == ['\n'];
    ReplaceShortText('\n', t, r);
  }

  // -------------------------------------------------------- locating a key

  /** The quoted key the extractors search for. */
  function Pattern(key: String): String {
    "\"" + key + "\""
  }

  /** The colon after the first occurrence of the quoted key, or -1 when the
      key or the colon is missing. */
  function KeyColon(json: String, key: String): (k: int)
    ensures -1 <= k < |json|
    ensures k >= 0 ==> json[k] == ':'
  {
    var p := IndexOfSeq(json, Pattern(key));
    if p < 0 then -1 else IndexOfFrom(json, ':', p + |Pattern(key)|)
  }

  /** A message that starts with the quoted key and a colon. */
  lemma {:induction false} KeyColonAtStart(key: String, rest: String)
    ensures KeyColon(Pattern(key) + ":" + rest, key) == |Pattern(key)|
  {
    var pat := Pattern(key);
    var s := pat + ":" + rest;
    assert s[..|pat|] == pat;
    assert OccursAt(s, pat, 0);
    assert IndexOfSeq(s, pat) == 0;
    assert s[|pat|] == ':';
  }

  /** The quoted key and a colon after a prefix with no quote in it. */
  lemma {:induction false} KeyColonAfter(pre: String, key: String, rest: String)
    requires '"' !in pre
    ensures KeyColon(pre + (Pattern(key) + ":" + rest), key) == |pre| + |Pattern(key)|
  {
    var pat := Pattern(key);
    var s := pre + (pat + ":" + rest);
    forall j | 0 <= j < |pre|
      ensures !OccursAt(s, pat, j)
    {
      assert s[j] == pre[j];
      if j + |pat| <= |s| {
        assert s[j..j + |pat|][0] == s[j];
      }
    }
    assert s[|pre|..][..|pat|] == pat;
    assert s[|pre|..|pre| + |pat|] == pat;
    IndexOfSeqAt(s, pat, 0, |pre|);
    assert s[|pre| + |pat|] == ':';
  }

  // ------------------------------------------------------ string extractor

  /** The scan of `extraerJsonString` from position `i` on: the index of the
      first quote not escaped by a backslash, or `|s|` when there is none. A
      backslash escapes the next character unless it is itself escaped. */
  function QuoteEnd(s: String, i: nat, escape: bool): (k: nat)
    requires i <= |s|
    ensures i <= k <= |s|
    ensures k < |s| ==> s[k] == '"'
    ensures !escape && i < |s| && s[i] == '"' ==> k == i
    decreases |s| - i
  {
    if i == |s| then i
    else if s[i] == '"' && !escape then i
    else QuoteEnd(s, i + 1, s[i] == '\\' && !escape)
  }

  /** `extraerJsonString` as a value. */
  function StringValue(json: String, key: String): Option<String> {
    var colon := KeyColon(json, key);
    if colon < 0 then None
    else
      var open := IndexOfFrom(json, '"', colon + 1);
      if open < 0 then None
      else
        var end := QuoteEnd(json, open + 1, false);
        if end == |json| then None else Some(UnescapeJson(json[open + 1..end]))
  }

  /** The position of the quote that opens the string value, or -1. */
  function OpenQuote(json: String, key: String): (k: int)
    ensures -1 <= k < |json|
  {
    var colon := KeyColon(json, key);
    if colon < 0 then -1 else IndexOfFrom(json, '"', colon + 1)
  }

  /** None exactly when the key, the colon or the opening quote is missing
      or no unescaped quote closes the string; otherwise the unescaped text
      between the opening quote and that closing quote. */
  lemma {:induction false} StringCases(json: String, key: String)
    ensures var open := OpenQuote(json, key);
      StringValue(json, key).None? <==> open < 0 || QuoteEnd(json, open + 1, false) == |json|
    ensures var open := OpenQuote(json, key);
      StringValue(json, key).Some? ==>
        var end := QuoteEnd(json, open + 1, false);
        json[open] == '"' && json[end] == '"' &&
        StringValue(json, key).value == UnescapeJson(json[open + 1..end])
  {
  }

  /** `extraerJsonString`: the scan for the closing quote with its `escape` flag. */
  method ExtractString(json: String, key: String) returns (r: Option<String>)
    ensures r == StringValue(json, key)
  {
    var colon := KeyColon(json, key);
    if colon < 0 {
      return None;
    }
    var open := IndexOfFrom(json, '"', colon + 1);
    if open < 0 {
      return None;
    }
    var end := open + 1;
    var escape := false;
    while end < |json|
      invariant open + 1 <= end <= |json|
      invariant QuoteEnd(json, end, escape) == QuoteEnd(json, open + 1, false)
      decreases |json| - end
    {
      var c := json[end];
      if c == '"' && !escape {
        break;
      }
      escape := c == '\\' && !escape;
      end := end + 1;
    }
    if end >= |json| {
      return None;
    }
    r := Some(UnescapeJson(json[open + 1..end]));
  }

  /** The scan steps over the escape of a character other than backslash. */
  lemma {:induction false} QuoteEndSkips(s: String, i: nat, c: char, rest: String)
    requires c != '\\' && i <= |s| && s[i..] == EscapeChar(c) + rest
    ensures i + |EscapeChar(c)| <= |s| && s[i + |EscapeChar(c)|..] == rest
    ensures QuoteEnd(s, i, false) == QuoteEnd(s, i + |EscapeChar(c)|, false)
  {
    var e := EscapeChar(c);
    assert s[i] == s[i..][0] == e[0];
    if |e| == 2 {
      assert s[i + 1] == s[i..][1] == e[1];
    }
    assert s[i + |e|..] == s[i..][|e|..];
  }

  /** Scanning an escaped text stops at the quote that follows it. */
  lemma {:induction false} QuoteEndEscaped(s: String, i: nat, v: String, tail: String)
    requires '\\' !in v && i <= |s| && s[i..] == EscapeEach(v) + "\"" + tail
    ensures QuoteEnd(s, i, false) == i + |EscapeEach(v)|
    decreases |v|
  {
    if v == [] {
      assert s[i] == s[i..][0] == '"';
    } else {
      var c, more := v[0], v[1..];
      var rest := EscapeEach(more) + "\"" + tail;
      AppendAssoc(EscapeChar(c) + EscapeEach(more), "\"", tail);
      AppendAssoc(EscapeChar(c), EscapeEach(more), "\"" + tail);
      AppendAssoc(EscapeEach(more), "\"", tail);
      QuoteEndSkips(s, i, c, rest);
      assert '\\' !in more;
      QuoteEndEscaped(s, i + |EscapeChar(c)|, more, tail);
    }
  }

  /** The quoted key, a colon and a quote after a prefix with no quote. */
  lemma {:induction false} OpenQuoteAfter(pre: String, key: String, body: String)
    requires '"' !in pre
    ensures OpenQuote(pre + (Pattern(key) + ":" + ("\"" + body)), key) == |pre| + |Pattern(key)| + 1
    ensures (pre + (Pattern(key) + ":" + ("\"" + body)))[|pre| + |Pattern(key)| + 2..] == body
  {
    var after := "\"" + body;
    var json := pre + (Pattern(key) + ":" + after);
    KeyColonAfter(pre, key, after);
    var colon := |pre| + |Pattern(key)|;
    assert json[colon + 1] == '"';
    assert json[colon + 2..] == body;
  }

  /** The value read when the text between the quotes is an escape. */
  lemma {:induction false} StringAfterOpen(json: String, key: String, v: String, open: nat, end: nat)
    requires '\\' !in v
    requires OpenQuote(json, key) == open && QuoteEnd(json, open + 1, false) == end
    requires open < end < |json| && json[open + 1..end] == EscapeEach(v)
    ensures StringValue(json, key) == Some(v)
  {
    UnescapeEach(v);
  }

  /** A suffix that is a concatenation starts with its first part. */
  lemma {:induction false} SuffixSplit<T>(s: seq<T>, i: nat, a: seq<T>, b: seq<T>)
    requires i <= |s| && s[i..] == a + b
    ensures i + |a| <= |s| && s[i..i + |a|] == a
    ensures b != [] ==> i + |a| < |s| && s[i + |a|] == b[0]
  {
    assert s[i..i + |a|] == s[i..][..|a|];
    if b != [] {
      assert s[i + |a|] == s[i..][|a|];
    }
  }

  /** A string field written with `escapeJson` reads back unchanged when the
      value holds no backslash, whatever follows the closing quote and
      whatever quote-free text comes before the key. */
  lemma {:induction false} StringRoundTrip(pre: String, key: String, v: String, tail: String)
    requires '\\' !in v && '"' !in pre
    ensures StringValue(pre + (Pattern(key) + ":" + ("\"" + EscapeJson(v) + "\"" + tail)), key) == Some(v)
  {
    EscapeIsEachChar(v);
    EscapedFieldRead(pre, key, v, tail);
  }

  /** The same with the escape taken character by character. */
  lemma {:induction false} EscapedFieldRead(pre: String, key: String, v: String, tail: String)
    requires '\\' !in v && '"' !in pre
    ensures StringValue(pre + (Pattern(key) + ":" + ("\"" + EscapeEach(v) + "\"" + tail)), key) == Some(v)
  {
    var e := EscapeEach(v);
    var body := e + ("\"" + tail);
    assert "\"" + e + "\"" + tail == "\"" + body;
    OpenQuoteAfter(pre, key, body);
    FieldAfterOpen(pre + (Pattern(key) + ":" + ("\"" + body)), key, v, |pre| + |Pattern(key)| + 1, tail);
  }

  /** Once the opening quote is found, an escaped value and a quote after
      it read back as the value. */
  lemma {:induction false} FieldAfterOpen(json: String, key: String, v: String, open: nat, tail: String)
    requires '\\' !in v && OpenQuote(json, key) == open
    requires open + 1 <= |json| && json[open + 1..] == EscapeEach(v) + ("\"" + tail)
    ensures StringValue(json, key) == Some(v)
  {
    var e := EscapeEach(v);
    AppendAssoc(e, "\"", tail);
    QuoteEndEscaped(json, open + 1, v, tail);
    SuffixSplit(json, open + 1, e, "\"" + tail);
    StringAfterOpen(json, key, v, open, open + 1 + |e|);
  }

  // ------------------------------------------------------ number extractor

  /** The first position at or after `i` that does not hold whitespace. */
  function SkipSpace(s: String, i: nat): (k: nat)
    requires i <= |s|
    ensures i <= k <= |s|
    decreases |s| - i
  {
    if i < |s| && IsWhitespace(s[i]) then SkipSpace(s, i + 1) else i
  }

  lemma {:induction false} SpaceSkipped(s: String, i: nat)
    requires i <= |s|
    ensures var k := SkipSpace(s, i);
      (forall j :: i <= j < k ==> IsWhitespace(s[j])) && (k < |s| ==> !IsWhitespace(s[k]))
    decreases |s| - i
  {
    if i < |s| && IsWhitespace(s[i]) {
      SpaceSkipped(s, i + 1);
    }
  }

  /** The first position at or after `i` that does not hold a digit. */
  function SkipDigits(s: String, i: nat): (k: nat)
    requires i <= |s|
    ensures i <= k <= |s|
    decreases |s| - i
  {
    if i < |s| && IsDigit(s[i]) then SkipDigits(s, i + 1) else i
  }

  lemma {:induction false} DigitsSkipped(s: String, i: nat)
    requires i <= |s|
    ensures var k := SkipDigits(s, i);
      (forall j :: i <= j < k ==> IsDigit(s[j])) && (k < |s| ==> !IsDigit(s[k]))
    decreases |s| - i
  {
    if i < |s| && IsDigit(s[i]) {
      DigitsSkipped(s, i + 1);
    }
  }

  /** `extraerJsonNumber` as a value: the run of digits after the colon and
      any whitespace, as text; None when the key or colon is missing or the
      run is empty. */
  function NumberValue(json: String, key: String): (r: Option<String>)
    ensures KeyColon(json, key) < 0 ==> r.None?
    ensures r.Some? ==> r.value != [] && AllDigits(r.value)
  {
    var colon := KeyColon(json, key);
    if colon < 0 then None
    else
      var start := SkipSpace(json, colon + 1);
      var end := SkipDigits(json, start);
      if start == end then None
      else
        DigitsSkipped(json, start);
        assert forall j :: 0 <= j < end - start ==> json[start..end][j] == json[start + j];
        Some(json[start..end])
  }

  /** Where the number comes from: None exactly when no digit follows the
      colon and the whitespace after it; otherwise the whole run of digits
      there. */
  lemma {:induction false} NumberPlace(json: String, key: String)
    requires KeyColon(json, key) >= 0
    ensures var colon := KeyColon(json, key);
      var start := SkipSpace(json, colon + 1);
      var end := SkipDigits(json, start);
      (forall j :: colon < j < start ==> IsWhitespace(json[j])) &&
      (start < |json| ==> !IsWhitespace(json[start])) &&
      (forall j :: start <= j < end ==> IsDigit(json[j])) &&
      (end < |json| ==> !IsDigit(json[end])) &&
      NumberValue(json, key) == if start == end then None else Some(json[start..end])
  {
    var colon := KeyColon(json, key);
    var start := SkipSpace(json, colon + 1);
    SpaceSkipped(json, colon + 1);
    DigitsSkipped(json, start);
  }

  /** `extraerJsonNumber`: a whitespace loop, then a digit loop. */
  method ExtractNumber(json: String, key: String) returns (r: Option<String>)
    ensures r == NumberValue(json, key)
  {
    var colon := KeyColon(json, key);
    if colon < 0 {
      return None;
    }
    var i := colon + 1;
    while i < |json| && IsWhitespace(json[i])
      invariant colon + 1 <= i <= |json|
      invariant SkipSpace(json, i) == SkipSpace(json, colon + 1)
      decreases |json| - i
    {
      i := i + 1;
    }
    var start := i;
    assert start == SkipSpace(json, colon + 1);
    while i < |json| && IsDigit(json[i])
      invariant start <= i <= |json|
      invariant SkipDigits(json, i) == SkipDigits(json, start)
      decreases |json| - i
    {
      i := i + 1;
    }
    assert i == SkipDigits(json, start);
    if start == i {
      return None;
    }
    r := Some(json[start..i]);
  }

  /** The run of digits ends where the digits stop. */
  lemma {:induction false} SkipDigitsTo(s: String, i: nat, k: nat)
    requires i <= k <= |s|
    requires forall j :: i <= j < k ==> IsDigit(s[j])
    requires k == |s| || !IsDigit(s[k])
    ensures SkipDigits(s, i) == k
    decreases k - i
  {
    if i < k {
      SkipDigitsTo(s, i + 1, k);
    }
  }

  /** A number written with `Integer.toString` reads back as its digits,
      and `Integer.parseInt` of those gives the number. */
  lemma {:induction false} NumberRoundTrip(key: String, n: nat, tail: String)
    requires tail == [] || !IsDigit(tail[0])
    ensures NumberValue(Pattern(key) + ":" + (NatToString(n) + tail), key) == Some(NatToString(n))
    ensures n <= MaxInt ==> ParseInt(NatToString(n)) == Some(n)
  {
    var pat := Pattern(key);
    var digits := NatToString(n);
    var after := digits + tail;
    var json := pat + ":" + after;
    KeyColonAtStart(key, after);
    var start := |pat| + 1;
    assert json[start..] == after;
    assert json[start] == digits[0];
    assert SkipSpace(json, start) == start;
    var end := start + |digits|;
    assert forall j :: start <= j < end ==> json[j] == digits[j - start];
    assert end < |json| ==> json[end] == tail[0];
    SkipDigitsTo(json, start, end);
    assert json[start..end] == digits;
    if n <= MaxInt {
      IntRoundTrip(n);
    }
  }

  // ------------------------------------------------------- array extractor

  /** The strings the `extraerJsonArray` loop collects from `s`, given
      whether it is inside a string, whether the previous character was an
      escaping backslash, and the text of the current string so far. A
      backslash drops itself and keeps the next character as it is; each
      string is passed through `unescapeJson` when its quote closes;
      characters between strings are skipped; an unclosed string is lost. */
  function Items(s: String, inString: bool, escape: bool, current: String): seq<String>
  {
    if s == [] then []
    else
      var c := s[0];
      if c == '"' && !escape then
        if inString then [UnescapeJson(current)] + Items(s[1..], false, escape, [])
        else Items(s[1..], true, escape, current)
      else if inString then
        if c == '\\' && !escape then Items(s[1..], true, true, current)
        else Items(s[1..], true, false, current + [c])
      else Items(s[1..], false, escape, current)
  }

  /** `extraerJsonArray` as a value: the strings inside the first `[`…`]`
      after the key's colon; empty when the key, the colon or a bracket is
      missing or the brackets hold only trimmable characters. */
  function ArrayValue(json: String, key: String): (r: seq<String>)
    ensures KeyColon(json, key) < 0 ==> r == []
    ensures KeyColon(json, key) >= 0 && IndexOfFrom(json, '[', KeyColon(json, key) + 1) < 0 ==> r == []
    ensures var open := IndexOfFrom(json, '[', KeyColon(json, key) + 1);
      var close := IndexOfFrom(json, ']', open + 1);
      (KeyColon(json, key) >= 0 && open >= 0 &&
       (close < 0 || forall j :: open < j < close ==> IsTrimmable(json[j]))) ==> r == []
  {
    var colon := KeyColon(json, key);
    var open := IndexOfFrom(json, '[', colon + 1);
    var close := IndexOfFrom(json, ']', open + 1);
    if colon < 0 || open < 0 || close < 0 then []
    else
      var content := Trim(json[open + 1..close]);
      BlankSlice(json, open + 1, close);
      if content == [] then [] else Items(content, false, false, [])
  }

  /** A stretch of trimmable characters trims to nothing. */
  lemma {:induction false} BlankSlice(s: String, lo: nat, hi: nat)
    requires lo <= hi <= |s|
    ensures (forall j :: lo <= j < hi ==> IsTrimmable(s[j])) ==> Trim(s[lo..hi]) == []
  {
    var inside := s[lo..hi];
    assert forall j :: 0 <= j < |inside| ==> inside[j] == s[lo + j];
    TrimEmpty(inside);
  }

  /** `extraerJsonArray`: the key and bracket lookups, then the scan. */
  method ExtractArray(json: String, key: String) returns (values: seq<String>)
    ensures values == ArrayValue(json, key)
  {
    var colon := KeyColon(json, key);
    var open := IndexOfFrom(json, '[', colon + 1);
    var close := IndexOfFrom(json, ']', open + 1);
    if colon < 0 || open < 0 || close < 0 {
      return [];
    }
    var content := Trim(json[open + 1..close]);
    if content == [] {
      return [];
    }
    values := ScanItems(content);
  }

  /** The character loop of `extraerJsonArray` with `enCadena`, `escape`
      and the `actual` buffer. */
  method ScanItems(content: String) returns (values: seq<String>)
    ensures values == Items(content, false, false, [])
  {
    values := [];
    var inString, escape, current := false, false, [];
    for i := 0 to |content|
      invariant values + Items(content[i..], inString, escape, current) == Items(content, false, false, [])
    {
      var c := content[i];
      assert content[i..][1..] == content[i + 1..];
      if c == '"' && !escape {
        inString := !inString;
        if !inString {
          AppendAssoc(values, [UnescapeJson(current)], Items(content[i + 1..], false, escape, []));
          values := values + [UnescapeJson(current)];
          current := [];
        }
        continue;
      }
      if inString {
        if c == '\\' && !escape {
          escape := true;
        } else {
          current := current + [c];
          escape := false;
        }
      }
    }
    assert content[|content|..] == [];
    AppendEmpty(values);
  }

  /** An element as a JSON writer puts it in an array. */
  function Quoted(x: String): String {
    "\"" + x + "\""
  }

  /** An array of strings written as `["a","b",…]`. */
  function ArrayText(xs: seq<String>): String {
    "[" + Join(Map(Quoted, xs), ',') + "]"
  }

  /** An element needs no escaping and cannot end the array early. */
  predicate PlainItem(x: String) {
    '"' !in x && '\\' !in x && ']' !in x
  }

  lemma {:induction false} ItemsInside(x: String, tail: String, current: String)
    requires '"' !in x && '\\' !in x
    ensures Items(x + "\"" + tail, true, false, current) ==
      [UnescapeJson(current + x)] + Items(tail, false, false, [])
    decreases |x|
  {
    if x == [] {
      assert x + "\"" + tail == "\"" + tail;
      assert current + x == current;
    } else {
      var s := x + "\"" + tail;
      assert s[0] == x[0] && s[1..] == x[1..] + "\"" + tail;
      assert '"' !in x[1..] && '\\' !in x[1..];
      ItemsInside(x[1..], tail, current + [x[0]]);
      assert current + [x[0]] + x[1..] == current + x;
    }
  }

  /** Unescaping leaves text without backslashes alone. */
  lemma {:induction false} UnescapePlain(x: String)
    requires '\\' !in x
    ensures UnescapeJson(x) == x
  {
    ReplaceAbsent(x, "\\n", "\n");
    ReplaceAbsent(x, "\\r", "\r");
    ReplaceAbsent(x, "\\\"", "\"");
    ReplaceAbsent(x, "\\\\", "\\");
  }

  lemma {:induction false} ItemsQuoted(x: String, tail: String)
    requires '"' !in x && '\\' !in x
    ensures Items(Quoted(x) + tail, false, false, []) == [x] + Items(tail, false, false, [])
  {
    var s := Quoted(x) + tail;
    assert s[1..] == x + "\"" + tail;
    ItemsInside(x, tail, []);
    assert [] + x == x;
    UnescapePlain(x);
  }

  /** The loop gives back the elements of a written array, in order. */
  lemma {:induction false} ItemsJoined(xs: seq<String>)
    requires forall i :: 0 <= i < |xs| ==> '"' !in xs[i] && '\\' !in xs[i]
    ensures Items(Join(Map(Quoted, xs), ','), false, false, []) == xs
    decreases |xs|
  {
    var qs := Map(Quoted, xs);
    if |xs| == 0 {
    } else if |xs| == 1 {
      MapIndex(Quoted, xs, 0);
      assert Join(qs, ',') == Quoted(xs[0]) + [];
      ItemsQuoted(xs[0], []);
    } else {
      MapIndex(Quoted, xs, 0);
      MapTail(xs);
      var rest := Join(qs[1..], ',');
      assert Join(qs, ',') == Quoted(xs[0]) + ([','] + rest);
      ItemsQuoted(xs[0], [','] + rest);
      assert ([','] + rest)[1..] == rest;
      ItemsJoined(xs[1..]);
      ConsTail(xs);
    }
  }

  lemma {:induction false} MapTail(xs: seq<String>)
    requires xs != []
    ensures Map(Quoted, xs)[1..] == Map(Quoted, xs[1..])
  {
    var ys := Map(Quoted, xs);
    var zs := Map(Quoted, xs[1..]);
    forall i | 0 <= i < |zs|
      ensures ys[1..][i] == zs[i]
    {
      MapIndex(Quoted, xs, i + 1);
      MapIndex(Quoted, xs[1..], i);
    }
  }

  /** An array written after the key reads back as its elements, in order,
      whatever follows the closing bracket. */
  lemma {:induction false} ArrayRoundTrip(key: String, xs: seq<String>, tail: String)
    requires forall i :: 0 <= i < |xs| ==> PlainItem(xs[i])
    ensures ArrayValue(Pattern(key) + ":" + (ArrayText(xs) + tail), key) == xs
  {
    var pat := Pattern(key);
    var inner := Join(Map(Quoted, xs), ',');
    var after := ArrayText(xs) + tail;
    var json := pat + ":" + after;
    KeyColonAtStart(key, after);
    var colon := |pat|;
    var open := colon + 1;
    assert after == "[" + (inner + ("]" + tail));
    assert json[open] == '[';
    IndexOfFromAt(json, '[', open, open);
    var close := open + 1 + |inner|;
    ItemsFree(xs);
    assert json[open + 1..close] == inner;
    assert json[close] == ']';
    assert forall i :: open + 1 <= i < close ==> json[i] == inner[i - open - 1];
    IndexOfFromAt(json, ']', open + 1, close);
    if xs == [] {
      assert inner == [];
    } else {
      JoinEnds(xs);
      TrimIdentity(inner);
      ItemsJoined(xs);
    }
  }

  /** No closing bracket inside the written elements. */
  lemma {:induction false} ItemsFree(xs: seq<String>)
    requires forall i :: 0 <= i < |xs| ==> PlainItem(xs[i])
    ensures ']' !in Join(Map(Quoted, xs), ',')
  {
    var qs := Map(Quoted, xs);
    forall i | 0 <= i < |qs|
      ensures ']' !in qs[i]
    {
      MapIndex(Quoted, xs, i);
    }
    JoinFree(qs, ',', ']');
  }

  /** A written non-empty array body starts and ends with a quote, so `trim`
      leaves it alone. */
  lemma {:induction false} JoinEnds(xs: seq<String>)
    requires xs != []
    ensures IsTrimmed(Join(Map(Quoted, xs), ','))
  {
    var qs := Map(Quoted, xs);
    var inner := Join(qs, ',');
    forall i | 0 <= i < |qs|
      ensures |qs[i]| >= 2 && qs[i][0] == '"' && qs[i][|qs[i]| - 1] == '"'
    {
      MapIndex(Quoted, xs, i);
    }
    JoinBounds(qs);
    assert inner[0] == '"' && inner[|inner| - 1] == '"';
  }

  lemma {:induction false} JoinBounds(qs: seq<String>)
    requires qs != []
    requires forall i :: 0 <= i < |qs| ==> |qs[i]| >= 2 && qs[i][0] == '"' && qs[i][|qs[i]| - 1] == '"'
    ensures var j := Join(qs, ','); |j| >= 2 && j[0] == '"' && j[|j| - 1] == '"'
    decreases |qs|
  {
    if |qs| > 1 {
      JoinBounds(qs[1..]);
    }
  }

  // ------------------------------------------------------------ wire mode

  /** How the server talks to this client, as `leerEntrada` detects it. */
  datatype WireMode = Unknown | Http | Json | Legacy

  /** A message read: the mode it is tagged with and its text (the body of
      an HTTP frame, or the whole line otherwise). */
  datatype Incoming = Incoming(mode: WireMode, payload: String)

  predicate IsHttpStart(line: String) {
    StartsWith(line, "POST ") || StartsWith(line, "GET ")
  }

  /** The mode after a message whose first line is `first`: a request line
      always switches to HTTP; otherwise JSON or legacy is chosen only while
      the mode is still unknown, and an established mode is kept. */
  function NextMode(mode: WireMode, first: String): (r: WireMode)
    ensures r != Unknown
    ensures IsHttpStart(first) ==> r == Http
    ensures !IsHttpStart(first) && mode != Unknown ==> r == mode
    ensures !IsHttpStart(first) && mode == Unknown ==> r == if StartsWith(first, "{") then Json else Legacy
  {
    if IsHttpStart(first) then Http
    else if StartsWith(first, "{") then (if mode == Unknown then Json else mode)
    else if mode == Unknown then Legacy else mode
  }

  /** The mode after a run of messages with the given first lines. */
  function ModeAfter(mode: WireMode, firsts: seq<String>): WireMode
    decreases |firsts|
  {
    if firsts == [] then mode else ModeAfter(NextMode(mode, firsts[0]), firsts[1..])
  }

  /** After any message the mode is known for good, and without request
      lines it never changes again. */
  lemma {:induction false} ModeSettles(mode: WireMode, firsts: seq<String>)
    ensures firsts != [] || mode != Unknown ==> ModeAfter(mode, firsts) != Unknown
    ensures mode != Unknown && (forall i :: 0 <= i < |firsts| ==> !IsHttpStart(firsts[i])) ==>
      ModeAfter(mode, firsts) == mode
    decreases |firsts|
  {
    if firsts != [] {
      ModeSettles(NextMode(mode, firsts[0]), firsts[1..]);
    }
  }

  /** The first line of an unknown-mode conversation decides between JSON
      and legacy for good, unless a request line comes later. */
  lemma {:induction false} FirstLineDecides(first: String, later: seq<String>)
    requires !IsHttpStart(first) && forall i :: 0 <= i < |later| ==> !IsHttpStart(later[i])
    ensures ModeAfter(Unknown, [first] + later) == if StartsWith(first, "{") then Json else Legacy
  {
    assert ([first] + later)[0] == first && ([first] + later)[1..] == later;
    ModeSettles(NextMode(Unknown, first), later);
  }

  // ----------------------------------------------------------- reading

  /** `leerLineaNoVacia`: the first line whose trimmed text is not empty,
      and the input after it; None when the input runs out first. */
  function NonBlankLine(s: String): (r: Option<(String, String)>)
    ensures r.Some? ==> Trim(r.value.0) != [] && NoBreak(r.value.0) && |r.value.1| < |s|
    decreases |s|
  {
    match ReadLine(s)
    case None => None
    case Some((line, rest)) => if Trim(line) != [] then Some((line, rest)) else NonBlankLine(rest)
  }

  /** The `leerLineaNoVacia` loop. */
  method ReadNonBlank(s: String) returns (r: Option<(String, String)>)
    ensures r == NonBlankLine(s)
  {
    var input := s;
    while true
      invariant NonBlankLine(input) == NonBlankLine(s)
      decreases |input|
    {
      var next := ReadLine(input);
      if next.None? {
        return None;
      }
      var (line, rest) := next.value;
      if Trim(line) != [] {
        return Some((line, rest));
      }
      input := rest;
    }
  }

  /** `parseIntSeguro`: `Integer.parseInt`, with 0 for text it refuses. */
  function ParseIntOr0(v: String): (r: int)
    ensures MinInt <= r <= MaxInt
    ensures ParseInt(v).None? ==> r == 0
  {
    match ParseInt(v)
    case Some(n) => n
    case None => 0
  }

  const LengthPrefix: String := "content-length:"

  /** One header line of `leerHttp`: a line whose lower-case form starts
      with `content-length:` sets the length to its trimmed rest, taken by
      `parseIntSeguro`; any other line leaves the length alone. */
  function LengthLine(line: String, length: int): int {
    if StartsWith(ToLower(line), LengthPrefix) then ParseIntOr0(Trim(line[|LengthPrefix|..])) else length
  }

  /** The header loop of `leerHttp`: lines until an empty one or the end of
      input; the last Content-Length line counts. */
  function HeaderLength(s: String, length: int): (r: (int, String))
    ensures |r.1| <= |s|
    decreases |s|
  {
    match ReadLine(s)
    case None => (length, s)
    case Some((line, rest)) => if line == [] then (length, rest) else HeaderLength(rest, LengthLine(line, length))
  }

  /** The `mark`/`read`/`reset` step after the body: CR LF is consumed; a
      lone LF is consumed together with the character after it (the second
      `read` is not undone); anything else is left unread. */
  function SkipLineEnd(s: String): String {
    if |s| >= 2 && s[0] == '\r' && s[1] == '\n' then s[2..]
    else if s != [] && s[0] == '\n' then (if |s| >= 2 then s[2..] else [])
    else s
  }

  /** `leerHttp` after the start line: the body and the unread input. The
      body is never longer than the declared length, a length of zero or
      less gives an empty body, and the body is shorter only when the input
      runs out. */
  function ReadHttp(s: String): (r: (String, String))
    ensures var (length, after) := HeaderLength(s, 0);
      |r.0| <= |after| && r.0 == after[..|r.0|] &&
      (length <= 0 ==> r.0 == []) &&
      (length > 0 ==> |r.0| <= length && (|r.0| < length ==> |r.0| == |after|))
  {
    var (length, after) := HeaderLength(s, 0);
    var n := if length <= 0 then 0 else if length < |after| then length else |after|;
    (after[..n], SkipLineEnd(after[n..]))
  }

  /** The header loop of `leerHttp`. */
  method ReadHeaders(s: String) returns (length: int, input: String)
    ensures (length, input) == HeaderLength(s, 0)
  {
    length := 0;
    input := s;
    while true
      invariant HeaderLength(input, length) == HeaderLength(s, 0)
      decreases |input|
    {
      var next := ReadLine(input);
      if next.None? {
        return;
      }
      var (line, after) := next.value;
      input := after;
      if line == [] {
        return;
      }
      var lower := ToLower(line);
      if StartsWith(lower, LengthPrefix) {
        length := ParseIntOr0(Trim(line[|LengthPrefix|..]));
      }
    }
  }

  /** The body loop of `leerHttp`: a `char[]` of the declared length filled
      by `read` calls, each delivering at least one of the characters still
      wanted, until it is full or the input runs out. */
  method ReadBody(input: String, length: int) returns (body: String, unread: String)
    ensures var n := if length <= 0 then 0 else if length < |input| then length else |input|;
      body == input[..n] && unread == input[n..]
  {
    var buffer := new char[if length < 0 then 0 else length];
    var count := 0;
    unread := input;
    while count < length
      invariant 0 <= count <= buffer.Length || (length <= 0 && count == 0)
      invariant count <= |input| && unread == input[count..]
      invariant count < length ==> count <= buffer.Length
      invariant forall i :: 0 <= i < count ==> buffer[i] == input[i]
      decreases length - count
    {
      if unread == [] {
        break;
      }
      var got :| 1 <= got <= length - count && got <= |unread|;
      forall j | 0 <= j < got {
        buffer[count + j] := unread[j];
      }
      count := count + got;
      unread := unread[got..];
    }
    body := buffer[..count];
    assert body == input[..count];
  }

  /** `leerHttp`: the headers, the body and the line-end step. */
  method ReceiveHttp(s: String) returns (body: String, rest: String)
    ensures (body, rest) == ReadHttp(s)
  {
    var length, input := ReadHeaders(s);
    var unread;
    body, unread := ReadBody(input, length);
    rest := SkipLineEnd(unread);
  }

  /** What `leerEntrada` returns and leaves behind. */
  datatype Reception = Reception(message: Option<Incoming>, mode: WireMode, rest: String)

  /** `leerEntrada` over the unread input, from mode `mode`: nothing when only
      blank lines are left; a request line starts an HTTP frame; a `{` line
      is a message tagged with the new mode; any other line is a legacy
      message. */
  function Receive(mode: WireMode, s: String): (r: Reception)
    ensures r.message.None? ==> r.mode == mode
    ensures r.message.Some? ==>
      (r.mode != Unknown && NonBlankLine(s).Some? && r.mode == NextMode(mode, NonBlankLine(s).value.0))
  {
    match NonBlankLine(s)
    case None => Reception(None, mode, [])
    case Some((first, after)) =>
      var next := NextMode(mode, first);
      if IsHttpStart(first) then
        var (body, rest) := ReadHttp(after);
        Reception(Some(Incoming(Http, body)), next, rest)
      else if StartsWith(first, "{") then Reception(Some(Incoming(next, first)), next, after)
      else Reception(Some(Incoming(Legacy, first)), next, after)
  }

  /** Once the mode is known, a line that is not a request line leaves it
      unchanged; a `{` line is tagged with that mode and any other line as
      legacy, so a JSON line read in legacy mode is a legacy message and a
      plain line read in JSON mode is too. */
  lemma {:induction false} EstablishedModeTags(mode: WireMode, line: String, more: String)
    requires mode != Unknown && !IsHttpStart(line) && NoBreak(line) && Trim(line) != []
    ensures Receive(mode, line + "\r\n" + more) ==
      Reception(Some(Incoming(if StartsWith(line, "{") then mode else Legacy, line)), mode, more)
  {
    ReadLineCrLf(line, more);
  }

  /** The client's connection state. */
  class Client {
    var wireMode: WireMode

    constructor ()
      ensures wireMode == Unknown
    {
      wireMode := Unknown;
    }

    /** `leerEntrada`: reads one message from the unread input and updates
        the wire mode. */
    method ReadEntry(input: String) returns (m: Option<Incoming>, rest: String)
      modifies this
      ensures Reception(m, wireMode, rest) == Receive(old(wireMode), input)
      ensures old(wireMode) != Unknown ==> wireMode != Unknown
    {
      var first := ReadNonBlank(input);
      if first.None? {
        return None, [];
      }
      var (line, after) := first.value;
      if StartsWith(line, "POST ") || StartsWith(line, "GET ") {
        wireMode := Http;
        var body;
        body, rest := ReceiveHttp(after);
        return Some(Incoming(Http, body)), rest;
      }
      if StartsWith(line, "{") {
        if wireMode == Unknown {
          wireMode := Json;
        }
        return Some(Incoming(wireMode, line)), after;
      }
      if wireMode == Unknown {
        wireMode := Legacy;
      }
      return Some(Incoming(Legacy, line)), after;
    }
  }

  // ----------------------------------------------------------- writing

  const ContentTypeLine: String := "Content-Type: application/json"

  function LengthHeader(n: nat): String {
    "Content-Length: " + NatToString(n)
  }

  /** `enviarHttp`: start line, the two headers, a blank line, the body and
      a final CR LF. The declared length counts characters, not bytes. */
  function HttpFrame(startLine: String, body: String): String {
    startLine + "\r\n" + ContentTypeLine + "\r\n" + LengthHeader(|body|) + "\r\n" + "\r\n" + body + "\r\n"
  }

  /** What a sender writes: a `println` line, or raw text. */
  datatype Output = Line(text: String) | Raw(text: String)

  /** The JSON bodies of the name and answer frames. */
  function NameBody(name: String): String {
    "{" + (Pattern("playerName") + ":" + ("\"" + EscapeJson(name) + "\"" + "}"))
  }

  function AnswerBody(answer: String): String {
    "{" + (Pattern("answer") + ":" + ("\"" + EscapeJson(answer) + "\"" + "}"))
  }

  /** `enviarNombre`. */
  function SendName(mode: WireMode, name: String): Output {
    if mode == Http then Raw(HttpFrame("POST /player/name HTTP/1.1", NameBody(name)))
    else if mode == Json then Line("{\"type\":\"NAME\",\"playerName\":\"" + EscapeJson(name) + "\"}")
    else Line(name)
  }

  /** `enviarRespuesta`. */
  function SendAnswer(mode: WireMode, answer: String): Output {
    if mode == Http then Raw(HttpFrame("POST /quiz/answer HTTP/1.1", AnswerBody(answer)))
    else if mode == Json then Line("{\"type\":\"ANSWER\",\"answer\":\"" + EscapeJson(answer) + "\"}")
    else Line(answer)
  }

  /** `enviarExit`. */
  function SendExit(mode: WireMode): Output {
    if mode == Http then Raw(HttpFrame("POST /player/exit HTTP/1.1", "{}"))
    else if mode == Json then Line("{\"type\":\"EXIT\"}")
    else Line("/salir")
  }

  /** The Content-Type header does not set the length. */
  lemma {:induction false} ContentTypeIgnored(length: int)
    ensures LengthLine(ContentTypeLine, length) == length
  {
    DifferentAt(ToLower(ContentTypeLine), LengthPrefix, 8);
  }

  /** Any capitalisation of the header name is matched; here the one
      `enviarHttp` writes. */
  lemma {:induction false} LengthPrefixMatches(v: String)
    ensures StartsWith(ToLower("Content-Length:" + v), LengthPrefix)
    ensures ("Content-Length:" + v)[|LengthPrefix|..] == v
  {
    ToLowerAppend("Content-Length:", v);
    assert ToLower("Content-Length:") == LengthPrefix;
    StartsWithConcat(LengthPrefix, ToLower(v));
  }

  /** The Content-Length header reads back as the count it declares. */
  lemma {:induction false} LengthHeaderRead(n: nat, length: int)
    requires n <= MaxInt
    ensures LengthLine(LengthHeader(n), length) == n
  {
    assert LengthHeader(n) == "Content-Length:" + (" " + NatToString(n));
    LengthPrefixMatches(" " + NatToString(n));
    TrimLeadingSpace(NatToString(n));
    NatTrimmed(n);
    IntRoundTrip(n);
  }

  /** One header line ended by CR LF. */
  lemma {:induction false} HeaderStep(line: String, rest: String, length: int)
    requires line != [] && NoBreak(line)
    ensures HeaderLength(line + "\r\n" + rest, length) == HeaderLength(rest, LengthLine(line, length))
  {
    ReadLineCrLf(line, rest);
  }

  /** The blank line that ends the headers. */
  lemma {:induction false} HeaderEnd(rest: String, length: int)
    ensures HeaderLength("\r\n" + rest, length) == (length, rest)
  {
    assert "\r\n" + rest == [] + "\r\n" + rest;
    ReadLineCrLf([], rest);
  }

  /** A frame's headers: the declared length and the text after the blank
      line. */
  lemma {:induction false} FrameHeaders(body: String, rest: String)
    requires |body| <= MaxInt
    ensures HeaderLength(ContentTypeLine + "\r\n" + (LengthHeader(|body|) + "\r\n" + ("\r\n" + rest)), 0) == (|body|, rest)
  {
    var h := LengthHeader(|body|);
    DigitsNoBreak(NatToString(|body|));
    assert NoBreak("Content-Length: ");
    NoBreakConcat("Content-Length: ", NatToString(|body|));
    assert NoBreak(ContentTypeLine);
    HeaderStep(ContentTypeLine, h + "\r\n" + ("\r\n" + rest), 0);
    ContentTypeIgnored(0);
    HeaderStep(h, "\r\n" + rest, 0);
    LengthHeaderRead(|body|, 0);
    HeaderEnd(rest, |body|);
  }

  /** The frame regrouped line by line. */
  lemma {:induction false} FrameSplit(start: String, body: String, more: String)
    ensures HttpFrame(start, body) + more ==
      start + "\r\n" + (ContentTypeLine + "\r\n" + (LengthHeader(|body|) + "\r\n" + ("\r\n" + (body + "\r\n" + more))))
  {
  }

  /** A request line is not blank. */
  lemma {:induction false} StartNotBlank(start: String)
    requires IsHttpStart(start)
    ensures Trim(start) != []
  {
    TrimEmpty(start);
    assert !IsTrimmable(start[0]);
  }

  /** A request line starts an HTTP read of what follows it. */
  lemma {:induction false} RequestLine(mode: WireMode, start: String, after: String)
    requires IsHttpStart(start) && NoBreak(start)
    ensures Receive(mode, start + "\r\n" + after) == Reception(Some(Incoming(Http, ReadHttp(after).0)), Http, ReadHttp(after).1)
  {
    ReadLineCrLf(start, after);
    StartNotBlank(start);
  }

  /** Headers declaring exactly the body that follows them. */
  lemma {:induction false} DeclaredBody(s: String, body: String, more: String)
    requires HeaderLength(s, 0) == (|body|, body + "\r\n" + more)
    ensures ReadHttp(s) == (body, more)
  {
    var tail := body + "\r\n" + more;
    assert tail[..|body|] == body;
    assert tail[|body|..] == "\r\n" + more;
  }

  /** The part of a frame after its start line reads as its body. */
  lemma {:induction false} FrameBody(body: String, more: String)
    requires |body| <= MaxInt
    ensures ReadHttp(ContentTypeLine + "\r\n" + (LengthHeader(|body|) + "\r\n" + ("\r\n" + (body + "\r\n" + more))))
      == (body, more)
  {
    FrameHeaders(body, body + "\r\n" + more);
    DeclaredBody(ContentTypeLine + "\r\n" + (LengthHeader(|body|) + "\r\n" + ("\r\n" + (body + "\r\n" + more))), body, more);
  }

  /** A frame written by `enviarHttp` is read back by `leerEntrada` as its
      body, whatever the mode was, and the input after it is left unread. */
  lemma {:induction false} FrameRoundTrip(mode: WireMode, start: String, body: String, more: String)
    requires IsHttpStart(start) && NoBreak(start) && |body| <= MaxInt
    ensures Receive(mode, HttpFrame(start, body) + more) == Reception(Some(Incoming(Http, body)), Http, more)
  {
    FrameSplit(start, body, more);
    RequestLine(mode, start, ContentTypeLine + "\r\n" + (LengthHeader(|body|) + "\r\n" + ("\r\n" + (body + "\r\n" + more))));
    FrameBody(body, more);
  }

  /** A frame whose body is followed by a lone LF loses the character after
      it: the second `read` of the line-end step is not undone. */
  lemma {:induction false} LoneLineFeedSwallows(s: String, body: String, next: String)
    requires HeaderLength(s, 0) == (|body|, body + "\n" + next) && next != []
    ensures ReadHttp(s) == (body, next[1..])
  {
    var tail := body + "\n" + next;
    var t := "\n" + next;
    AppendAssoc(body, "\n", next);
    assert tail[..|body|] == body && tail[|body|..] == t;
    assert t[0] == '\n' && |t| >= 2 && t[2..] == next[1..];
  }

  /** A Content-Length that `Integer.parseInt` refuses counts as zero: the
      body is empty and the input after the headers is left to the line-end
      step. */
  lemma {:induction false} NonNumericLength(v: String, rest: String)
    requires NoBreak(v) && ParseInt(Trim(v)).None?
    ensures HeaderLength("Content-Length:" + v + "\r\n" + ("\r\n" + rest), 0) == (0, rest)
    ensures ReadHttp("Content-Length:" + v + "\r\n" + ("\r\n" + rest)) == ([], SkipLineEnd(rest))
  {
    var line := "Content-Length:" + v;
    assert NoBreak("Content-Length:");
    NoBreakConcat("Content-Length:", v);
    HeaderStep(line, "\r\n" + rest, 0);
    LengthPrefixMatches(v);
    HeaderEnd(rest, 0);
  }

  /** The declared length is the character count; it equals the UTF-8 size
      of the body exactly when the body is ASCII. */
  lemma {:induction false} FrameDeclaresChars(body: String)
    requires |body| <= MaxInt
    ensures LengthLine(LengthHeader(|body|), 0) == |body|
    ensures Utf8Length(body) == |body| <==> IsAscii(body)
  {
    LengthHeaderRead(|body|, 0);
    Utf8LengthVsChars(body);
  }

  /** An object line closed after an escaped value cannot break the line. */
  lemma {:induction false} EscapedLine(head: String, x: String)
    requires NoBreak(head)
    ensures NoBreak(head + EscapeJson(x) + "\"}")
  {
    EscapeNoBreak(x);
    assert NoBreak("\"}");
    NoBreakConcat(head, EscapeJson(x));
    NoBreakConcat(head + EscapeJson(x), "\"}");
  }

  /** Outside HTTP mode the senders write one line each: in JSON mode an
      escaped object that cannot break the line, in the other modes the
      text itself. */
  lemma {:induction false} SendLines(mode: WireMode, x: String)
    requires mode != Http
    ensures SendName(mode, x).Line? && SendAnswer(mode, x).Line? && SendExit(mode).Line?
    ensures mode == Json ==> NoBreak(SendName(mode, x).text) && NoBreak(SendAnswer(mode, x).text)
    ensures mode != Json ==> SendName(mode, x).text == x && SendAnswer(mode, x).text == x
  {
    if mode == Json {
      var nameHead: String := "{\"type\":\"NAME\",\"playerName\":\"";
      var answerHead: String := "{\"type\":\"ANSWER\",\"answer\":\"";
      assert NoBreak(nameHead);
      assert NoBreak(answerHead);
      EscapedLine(nameHead, x);
      EscapedLine(answerHead, x);
    }
  }

  /** An HTTP answer frame is read back by `leerEntrada` as its body, and
      `extraerJsonString` finds the answer in that body again. */
  lemma {:induction false} AnswerRoundTrip(mode: WireMode, answer: String, more: String)
    requires '\\' !in answer && |AnswerBody(answer)| <= MaxInt
    ensures Receive(mode, SendAnswer(Http, answer).text + more) == Reception(Some(Incoming(Http, AnswerBody(answer))), Http, more)
    ensures StringValue(AnswerBody(answer), "answer") == Some(answer)
  {
    var start: String := "POST /quiz/answer HTTP/1.1";
    assert StartsWith(start, "POST ") && NoBreak(start);
    FrameRoundTrip(mode, start, AnswerBody(answer), more);
    StringRoundTrip("{", "answer", answer, "}");
  }

  /** The same for the HTTP name frame. */
  lemma {:induction false} NameRoundTrip(mode: WireMode, name: String, more: String)
    requires '\\' !in name && |NameBody(name)| <= MaxInt
    ensures Receive(mode, SendName(Http, name).text + more) == Reception(Some(Incoming(Http, NameBody(name))), Http, more)
    ensures StringValue(NameBody(name), "playerName") == Some(name)
  {
    var start: String := "POST /player/name HTTP/1.1";
    assert StartsWith(start, "POST ") && NoBreak(start);
    FrameRoundTrip(mode, start, NameBody(name), more);
    StringRoundTrip("{", "playerName", name, "}");
  }

  /** The HTTP exit frame reads back as the empty object. */
  lemma {:induction false} ExitRoundTrip(mode: WireMode, more: String)
    ensures Receive(mode, SendExit(Http).text + more) == Reception(Some(Incoming(Http, "{}")), Http, more)
  {
    var start: String := "POST /player/exit HTTP/1.1";
    assert StartsWith(start, "POST ") && NoBreak(start);
    FrameRoundTrip(mode, start, "{}", more);
  }
}
