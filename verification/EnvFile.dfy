/**
 The `.env` printer and parser of the first setup: values are escaped and quoted, a key's line is
 replaced in place or appended, and the parser reads the file back line by line.
 */
module EnvFile {
  import opened Options
  import opened Text

  // ---------- Escaping ----------

  /** Puts a backslash before every occurrence of the character. */
  function EscapeChar(s: string, c: char): string {
    if s == "" then "" else (if s[0] == c then ['\\', c] else [s[0]]) + EscapeChar(s[1..], c)
  }

  /** Two passes: backslashes first, then quotes. */
  function Escape(s: string): string {
    EscapeChar(EscapeChar(s, '\\'), '\"')
  }

  predicate IsEscapable(c: char) {
    c == '\\' || c == '\"'
  }

  /** Scans from the left and drops the backslash of every escaped backslash or quote. */
  function Unescape(s: string): string {
    if s == "" then ""
    else if s[0] == '\\' && |s| > 1 && IsEscapable(s[1]) then [s[1]] + Unescape(s[2..])
    else [s[0]] + Unescape(s[1..])
  }

  function EscapedChar(c: char): string {
    if IsEscapable(c) then ['\\', c] else [c]
  }

  lemma {:induction false} EscapeCharAppends(a: string, b: string, c: char)
    ensures EscapeChar(a + b, c) == EscapeChar(a, c) + EscapeChar(b, c)
  {
    if a == "" {
      assert a + b == b;
    } else {
      assert (a + b)[1..] == a[1..] + b;
      EscapeCharAppends(a[1..], b, c);
    }
  }

  /** The two passes do not disturb each other: each character is escaped once. */
  lemma EscapeIsOnePass(s: string)
    requires s != ""
    ensures Escape(s) == EscapedChar(s[0]) + Escape(s[1..])
  {
    var head := if s[0] == '\\' then ['\\', s[0]] else [s[0]];
    EscapeCharAppends(head, EscapeChar(s[1..], '\\'), '\"');
    assert head[1..] == if s[0] == '\\' then [s[0]] else "";
    assert EscapeChar(head, '\"') == EscapedChar(s[0]);
  }

  /** Unescaping undoes escaping, for every string. */
  lemma {:induction false} UnescapeUndoesEscape(s: string)
    ensures Unescape(Escape(s)) == s
  {
    if s != "" {
      EscapeIsOnePass(s);
      UnescapeUndoesEscape(s[1..]);
      var rest := Escape(s[1..]);
      var escaped := EscapedChar(s[0]) + rest;
      if IsEscapable(s[0]) {
        assert escaped[2..] == rest;
      } else {
        assert escaped[1..] == rest;
      }
    }
  }

  // ---------- Lines ----------

  /** The pieces between line feeds. */
  function SplitLines(s: string): (lines: seq<string>)
    ensures lines != []
  {
    if s == "" then [""]
    else
      var rest := SplitLines(s[1..]);
      if s[0] == '\n' then [""] + rest else [[s[0]] + rest[0]] + rest[1..]
  }

  function JoinLines(lines: seq<string>): string
    requires lines != []
  {
    if |lines| == 1 then lines[0] else lines[0] + "\n" + JoinLines(lines[1..])
  }

  predicate NoLineFeed(s: string) {
    forall i :: 0 <= i < |s| ==> s[i] != '\n'
  }

  lemma {:induction false} JoinUndoesSplit(s: string)
    ensures JoinLines(SplitLines(s)) == s
  {
    if s != "" {
      JoinUndoesSplit(s[1..]);
      var rest := SplitLines(s[1..]);
      if s[0] == '\n' {
        assert ([""] + rest)[1..] == rest;
      } else {
        assert ([[s[0]] + rest[0]] + rest[1..])[1..] == rest[1..];
      }
    }
  }

  lemma {:induction false} SplitLine(line: string)
    requires NoLineFeed(line)
    ensures SplitLines(line) == [line]
  {
    if line != "" {
      SplitLine(line[1..]);
      assert [line[0]] + line[1..] == line;
    }
  }

  lemma {:induction false} SplitHasNoLineFeeds(s: string)
    ensures forall i :: 0 <= i < |SplitLines(s)| ==> NoLineFeed(SplitLines(s)[i])
  {
    if s != "" {
      SplitHasNoLineFeeds(s[1..]);
    }
  }

  /** A line feed separates lines wherever it stands. */
  lemma {:induction false} SplitAtLineFeed(a: string, b: string)
    ensures SplitLines(a + "\n" + b) == SplitLines(a) + SplitLines(b)
  {
    var whole := a + "\n" + b;
    if a == "" {
      assert whole == "\n" + b && whole[1..] == b;
    } else {
      assert whole[1..] == a[1..] + "\n" + b;
      SplitAtLineFeed(a[1..], b);
    }
  }

  // ---------- The parser ----------

  /** The index of the first occurrence, or the length when there is none. */
  function Find(s: string, c: char): (i: nat)
    ensures i <= |s| && (i < |s| ==> s[i] == c) && forall j :: 0 <= j < i ==> s[j] != c
  {
    if s == "" || s[0] == c then 0 else 1 + Find(s[1..], c)
  }

  predicate IsQuotedBy(s: string, quote: char) {
    s != "" && s[0] == quote && s[|s| - 1] == quote
  }

  /** Drops the first and the last character; a single quote character is both. */
  function Inner(s: string): string {
    if |s| < 2 then "" else s[1..|s| - 1]
  }

  function ReadValue(text: string): string {
    if IsQuotedBy(text, '\"') || IsQuotedBy(text, '\'') then Unescape(Inner(text)) else text
  }

  function ParseLine(raw: string): Option<(string, string)> {
    var line := Trim(raw);
    var eq := Find(line, '=');
    if line == "" || line[0] == '#' || eq == |line| || eq == 0 then None
    else Some((Trim(line[..eq]), ReadValue(Trim(line[eq + 1..]))))
  }

  predicate Sets(raw: string, key: string) {
    ParseLine(raw).Some? && ParseLine(raw).value.0 == key
  }

  /** The value of the last line that sets the key. */
  function LastValue(lines: seq<string>, key: string): Option<string> {
    if lines == [] then None
    else
      var n := |lines| - 1;
      if Sets(lines[n], key) then Some(ParseLine(lines[n]).value.1) else LastValue(lines[..n], key)
  }

  ghost predicate IsParsed(out: map<string, string>, lines: seq<string>) {
    forall key: string ::
      (key in out <==> LastValue(lines, key).Some?) && (key in out ==> LastValue(lines, key) == Some(out[key]))
  }

  /** The parsed file maps exactly the keys that some line sets, each to its last value. */
  method ParseEnvFile(content: string) returns (out: map<string, string>)
    ensures IsParsed(out, SplitLines(content))
  {
    out := map[];
    var lines := SplitLines(content);
    for i := 0 to |lines|
      invariant IsParsed(out, lines[..i])
    {
      ghost var before := out;
      assert lines[..i + 1][..i] == lines[..i];
      match ParseLine(lines[i])
      case None =>
      case Some((key, value)) => out := out[key := value];
    }
    assert lines[..|lines|] == lines;
  }

  // ---------- One assignment ----------

  predicate IsKeyChar(c: char) {
    'A' <= c <= 'Z' || 'a' <= c <= 'z' || '0' <= c <= '9' || c == '_'
  }

  predicate IsKey(key: string) {
    key != "" && forall i :: 0 <= i < |key| ==> IsKeyChar(key[i])
  }

  function Assignment(key: string, value: string): string {
    key + "=\"" + Escape(value) + "\""
  }

  /** The pattern that the printer looks for at the start of a line. */
  predicate Assigns(line: string, key: string) {
    key + "=" <= line
  }

  lemma FirstEquals(key: string, rest: string)
    requires IsKey(key)
    ensures Find(key + "=" + rest, '=') == |key|
  {
    var line := key + "=" + rest;
    assert line[|key|] == '=';
    forall j | 0 <= j < |key| ensures line[j] != '=' {
      assert line[j] == key[j];
    }
  }

  lemma KeyIsTrimmed(key: string)
    requires IsKey(key)
    ensures Trim(key) == key
  {
    TrimKeepsVisible(key);
  }

  /** Every line that the printer would replace is read as a setting of that key. */
  lemma AssigningLineSetsKey(line: string, key: string)
    requires IsKey(key) && Assigns(line, key)
    ensures Sets(line, key)
  {
    var head := key + "=";
    var tail := line[|head|..];
    assert line == head + tail;
    assert line[0] == key[0];
    TrimRightStopsAt(head, tail);
    var k :| 0 <= k <= |tail| && TrimRight(head + tail) == head + tail[..k];
    TrimmedLineIsSplit(line, key, tail[..k]);
  }

  lemma TrimmedLineIsSplit(raw: string, key: string, text: string)
    requires IsKey(key) && Trim(raw) == key + "=" + text
    ensures ParseLine(raw) == Some((key, ReadValue(Trim(text))))
  {
    var line := key + "=" + text;
    FirstEquals(key, text);
    KeyIsTrimmed(key);
    assert line[..|key|] == key && line[|key| + 1..] == text;
    assert IsKeyChar(line[0]);
  }

  lemma QuotedTextIsRead(escaped: string)
    ensures var text := "\"" + escaped + "\""; Trim(text) == text && ReadValue(text) == Unescape(escaped)
  {
    var text := "\"" + escaped + "\"";
    TrimKeepsVisible(text);
    assert Inner(text) == escaped;
  }

  /** A printed assignment is read back, with or without a carriage return after it. */
  lemma PrintedLineIsReadBack(key: string, escaped: string)
    requires IsKey(key)
    ensures var line := key + "=\"" + escaped + "\"";
            ParseLine(line) == ParseLine(line + "\r") == Some((key, Unescape(escaped)))
  {
    var text := "\"" + escaped + "\"";
    var line := key + "=" + text;
    assert line == key + "=\"" + escaped + "\"";
    assert IsKeyChar(line[0]) && line[|line| - 1] == '\"';
    TrimKeepsVisible(line);
    QuotedTextIsRead(escaped);
    TrimmedLineIsSplit(line, key, text);
    TrimmedLineIsSplit(line + "\r", key, text);
  }

  // ---------- Replacement patterns ----------

  predicate IsPattern(c: char) {
    c == '$' || c == '&' || c == '`' || c == '\''
  }

  /** The replacement text stands for itself: no dollar sign is followed by a pattern character. */
  predicate IsInert(s: string) {
    forall i :: 0 <= i < |s| - 1 && s[i] == '$' ==> !IsPattern(s[i + 1])
  }

  /** How a replacement text is expanded, given the match and the text before and after it. */
  function Expand(s: string, matched: string, before: string, after: string): string {
    if s == "" then ""
    else if s[0] == '$' && |s| > 1 && IsPattern(s[1]) then
      (match s[1]
       case '$' => "$"
       case '&' => matched
       case '`' => before
       case _ => after) + Expand(s[2..], matched, before, after)
    else [s[0]] + Expand(s[1..], matched, before, after)
  }

  lemma {:induction false} InertTextIsKept(s: string, matched: string, before: string, after: string)
    requires IsInert(s)
    ensures Expand(s, matched, before, after) == s
  {
    if s != "" {
      InertTextIsKept(s[1..], matched, before, after);
    }
  }

  lemma {:induction false} EscapedTextIsInert(s: string)
    requires IsInert(s)
    ensures IsInert(Escape(s))
    ensures s != "" ==> Escape(s) != "" && Escape(s)[0] == EscapedChar(s[0])[0]
    ensures s == "" ==> Escape(s) == ""
  {
    if s != "" {
      EscapeIsOnePass(s);
      EscapedTextIsInert(s[1..]);
    }
  }

  lemma AssignmentIsInert(key: string, value: string)
    requires IsKey(key) && IsInert(value)
    ensures IsInert(Assignment(key, value))
  {
    EscapedTextIsInert(value);
    var line := Assignment(key, value);
    forall i | 0 <= i < |key| ensures line[i] == key[i] {}
    forall i | 0 <= i < |Escape(value)| ensures line[i + |key| + 2] == Escape(value)[i] {}
  }

  // ---------- The printer ----------

  /** Where the pattern first matches: at the start of a line, which any line break begins; the length if nowhere. */
  function FirstMatch(s: string, key: string, lineStart: bool): (p: nat)
    ensures p <= |s|
  {
    if s == "" || (lineStart && Assigns(s, key)) then 0
    else 1 + FirstMatch(s[1..], key, IsLineBreak(s[0]))
  }

  /** Where the match ends: at the next line break. */
  function LineLength(s: string): (n: nat)
    ensures n <= |s|
  {
    if s == "" || IsLineBreak(s[0]) then 0 else 1 + LineLength(s[1..])
  }

  predicate EndsInLineFeed(content: string) {
    content != "" && content[|content| - 1] == '\n'
  }

  function Appended(content: string, line: string): string {
    content + (if EndsInLineFeed(content) then "" else "\n") + line + "\n"
  }

  function UpsertOne(content: string, key: string, value: string): string {
    var line := Assignment(key, value);
    var start := FirstMatch(content, key, true);
    if start < |content| then
      var end := start + LineLength(content[start..]);
      var before, after := content[..start], content[end..];
      before + Expand(line, content[start..end], before, after) + after
    else Appended(content, line)
  }

  function Upserted(content: string, updates: seq<(string, string)>): string
    decreases |updates|
  {
    if updates == [] then content
    else Upserted(UpsertOne(content, updates[0].0, updates[0].1), updates[1..])
  }

  method UpsertEnvVars(content: string, updates: seq<(string, string)>) returns (next: string)
    ensures next == Upserted(content, updates)
  {
    next := content;
    for i := 0 to |updates|
      invariant Upserted(next, updates[i..]) == Upserted(content, updates)
    {
      next := UpsertOne(next, updates[i].0, updates[i].1);
    }
  }
}
