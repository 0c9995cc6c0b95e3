/**
 What an update of the `.env` file does to what the parser reads: the exact values that survive
 the round trip, and the keys that it leaves alone.
 */
module EnvFileTheorems {
  import opened Options
  import opened Text
  import opened EnvFile

  // ---------- Plain files ----------

  predicate HasReturn(line: string) {
    line != "" && line[|line| - 1] == '\r'
  }

  function Body(line: string): string {
    if HasReturn(line) then line[..|line| - 1] else line
  }

  function Ending(line: string): string {
    if HasReturn(line) then "\r" else ""
  }

  /** A line that may end in a carriage return and has no other line break in it. */
  predicate IsPlainLine(line: string) {
    NoLineBreak(Body(line))
  }

  /** A file whose lines end in a line feed, with or without a carriage return before it. */
  predicate IsPlainFile(content: string) {
    AllPlain(SplitLines(content))
  }

  predicate AllPlain(lines: seq<string>) {
    forall j :: 0 <= j < |lines| ==> IsPlainLine(lines[j])
  }

  predicate ArePlain(lines: seq<string>) {
    forall i :: 0 <= i < |lines| ==> IsPlainLine(lines[i]) && NoLineFeed(lines[i])
  }

  // ---------- The match is a line ----------

  /** The first line that starts with the assignment, or the number of lines. */
  function FirstAssigning(lines: seq<string>, key: string): (i: nat)
    ensures i <= |lines| && (i < |lines| ==> Assigns(lines[i], key)) && forall j :: 0 <= j < i ==> !Assigns(lines[j], key)
  {
    if lines == [] || Assigns(lines[0], key) then 0 else 1 + FirstAssigning(lines[1..], key)
  }

  function TextBefore(lines: seq<string>, i: nat): string
    requires i <= |lines|
  {
    if i == 0 then "" else JoinLines(lines[..i]) + "\n"
  }

  function TextPast(lines: seq<string>, i: nat): string
    requires i < |lines|
  {
    if i + 1 == |lines| then "" else "\n" + JoinLines(lines[i + 1..])
  }

  lemma NoAssignmentInBreak(rest: string, key: string)
    requires IsKey(key) && (rest == "" || IsLineBreak(rest[0]))
    ensures !Assigns(rest, key)
  {
    assert IsKeyChar((key + "=")[0]);
  }

  lemma {:induction false} NoMatchInsideLine(tail: string, rest: string, key: string)
    requires IsKey(key) && IsPlainLine(tail) && NoLineFeed(tail)
    requires rest == "" || rest[0] == '\n'
    ensures FirstMatch(tail + rest, key, false) == |tail| + FirstMatch(rest, key, false)
  {
    if tail == "" {
      assert tail + rest == rest;
    } else {
      var s := tail + rest;
      assert s[1..] == tail[1..] + rest;
      if IsLineBreak(tail[0]) {
        assert tail == "\r";
        assert s[1..] == rest;
        NoAssignmentInBreak(rest, key);
      } else {
        assert tail[1..] != "" ==> Body(tail[1..]) == Body(tail)[1..];
        NoMatchInsideLine(tail[1..], rest, key);
      }
    }
  }

  lemma AssignmentStaysInLine(line: string, rest: string, key: string)
    requires IsKey(key) && (rest == "" || rest[0] == '\n')
    ensures Assigns(line + rest, key) <==> Assigns(line, key)
  {
    var head := key + "=";
    forall j | 0 <= j < |key| ensures head[j] != '\n' {
      assert IsKeyChar(key[j]);
    }
    if |line| < |head| && rest != "" {
      assert (line + rest)[|line|] == '\n' != head[|line|];
    }
  }

  lemma SkippedLine(line: string, rest: string, key: string)
    requires IsKey(key) && IsPlainLine(line) && NoLineFeed(line) && !Assigns(line + rest, key)
    requires rest == "" || rest[0] == '\n'
    ensures FirstMatch(line + rest, key, true) == |line| + if rest == "" then 0 else 1 + FirstMatch(rest[1..], key, true)
  {
    assert FirstMatch(line + rest, key, true) == FirstMatch(line + rest, key, false);
    NoMatchInsideLine(line, rest, key);
  }

  lemma TextBeforeShifts(lines: seq<string>, i: nat)
    requires i + 1 < |lines|
    ensures |TextBefore(lines, i + 1)| == |lines[0]| + 1 + |TextBefore(lines[1..], i)|
  {
    if i == 0 {
      assert lines[..1] == [lines[0]];
    } else {
      assert lines[..i + 1][1..] == lines[1..][..i];
    }
  }

  /** Where the first assigning line begins, or the length of the text. */
  function AssigningPosition(lines: seq<string>, key: string): nat
    requires lines != []
  {
    var i := FirstAssigning(lines, key);
    if i < |lines| then |TextBefore(lines, i)| else |JoinLines(lines)|
  }

  lemma AssigningPositionShifts(lines: seq<string>, key: string)
    requires |lines| > 1 && !Assigns(lines[0], key)
    ensures AssigningPosition(lines, key) == |lines[0]| + 1 + AssigningPosition(lines[1..], key)
  {
    var i := FirstAssigning(lines[1..], key);
    if i < |lines[1..]| { TextBeforeShifts(lines, i); }
  }

  /** Over a plain file the pattern matches where the first assigning line begins. */
  lemma {:induction false} MatchIsFirstAssigning(lines: seq<string>, key: string)
    requires IsKey(key) && lines != [] && ArePlain(lines)
    ensures FirstMatch(JoinLines(lines), key, true) == AssigningPosition(lines, key)
  {
    var line, rest := lines[0], TextPast(lines, 0);
    assert JoinLines(lines) == line + rest;
    AssignmentStaysInLine(line, rest, key);
    if !Assigns(line, key) {
      SkippedLine(line, rest, key);
      if |lines| > 1 {
        AssigningPositionShifts(lines, key);
        MatchIsFirstAssigning(lines[1..], key);
        assert rest[1..] == JoinLines(lines[1..]);
      } else {
        assert FirstAssigning(lines[1..], key) == 0;
      }
    }
  }

  lemma {:induction false} JoinSplitAt(lines: seq<string>, i: nat)
    requires 0 < i < |lines|
    ensures JoinLines(lines) == JoinLines(lines[..i]) + "\n" + JoinLines(lines[i..])
  {
    if i == 1 {
      assert lines[..1] == [lines[0]];
    } else {
      JoinSplitAt(lines[1..], i - 1);
      assert lines[..i][1..] == lines[1..][..i - 1] && lines[..i][0] == lines[0];
      assert lines[1..][i - 1..] == lines[i..];
    }
  }

  lemma JoinAround(lines: seq<string>, i: nat)
    requires i < |lines|
    ensures JoinLines(lines) == TextBefore(lines, i) + (lines[i] + TextPast(lines, i))
  {
    assert JoinLines(lines[i..]) == lines[i] + TextPast(lines, i);
    if i == 0 {
      assert lines[0..] == lines;
    } else {
      JoinSplitAt(lines, i);
    }
  }

  lemma {:induction false} LineEndsAtBreak(body: string, rest: string)
    requires NoLineBreak(body) && (rest == "" || IsLineBreak(rest[0]))
    ensures LineLength(body + rest) == |body|
  {
    if body == "" {
      assert body + rest == rest;
    } else {
      assert (body + rest)[1..] == body[1..] + rest;
      LineEndsAtBreak(body[1..], rest);
    }
  }

  lemma UpsertAtMatch(content: string, key: string, value: string, before: string, body: string, after: string)
    requires content == before + (body + after) && body != ""
    requires FirstMatch(content, key, true) == |before| && LineLength(body + after) == |body|
    ensures UpsertOne(content, key, value) == before + Expand(Assignment(key, value), body, before, after) + after
  {
    var end := |before| + |body|;
    assert content[..|before|] == before && content[|before|..] == body + after;
    assert content[|before|..end] == body;
    assert content[end..] == after;
  }

  lemma LineHasEnding(line: string, past: string)
    ensures line + past == Body(line) + (Ending(line) + past)
  {
  }

  lemma UpsertAtLine(content: string, key: string, value: string, before: string, line: string, past: string)
    requires content == before + (line + past) && IsPlainLine(line) && Body(line) != ""
    requires (past == "" || past[0] == '\n') && FirstMatch(content, key, true) == |before|
    ensures var after := Ending(line) + past;
            UpsertOne(content, key, value) == before + Expand(Assignment(key, value), Body(line), before, after) + after
  {
    var after := Ending(line) + past;
    LineHasEnding(line, past);
    LineEndsAtBreak(Body(line), after);
    UpsertAtMatch(content, key, value, before, Body(line), after);
  }

  /** What the update replaces: the body of the first assigning line, and nothing around it. */
  lemma UpsertReplacesBody(content: string, key: string, value: string)
    requires IsKey(key) && IsPlainFile(content)
    requires FirstAssigning(SplitLines(content), key) < |SplitLines(content)|
    ensures var lines := SplitLines(content);
            var i := FirstAssigning(lines, key);
            var before, after := TextBefore(lines, i), Ending(lines[i]) + TextPast(lines, i);
            UpsertOne(content, key, value) == before + Expand(Assignment(key, value), Body(lines[i]), before, after) + after
  {
    var lines := SplitLines(content);
    var i := FirstAssigning(lines, key);
    SplitHasNoLineFeeds(content);
    JoinUndoesSplit(content);
    MatchIsFirstAssigning(lines, key);
    JoinAround(lines, i);
    AssigningLineIsNotEmpty(lines[i], key);
    UpsertAtLine(content, key, value, TextBefore(lines, i), lines[i], TextPast(lines, i));
  }

  lemma AssigningLineIsNotEmpty(line: string, key: string)
    requires IsKey(key) && Assigns(line, key)
    ensures Body(line) != ""
  {
    assert IsKeyChar(line[0]);
  }

  lemma {:induction false} AssignmentHasNoLineFeed(key: string, value: string)
    requires IsKey(key) && NoLineFeed(value)
    ensures NoLineFeed(Assignment(key, value))
  {
    EscapedTextHasNoLineFeed(value);
    forall j | 0 <= j < |key| ensures key[j] != '\n' {
      assert IsKeyChar(key[j]);
    }
  }

  lemma {:induction false} EscapedTextHasNoLineFeed(s: string)
    requires NoLineFeed(s)
    ensures NoLineFeed(Escape(s))
  {
    if s != "" {
      EscapeIsOnePass(s);
      EscapedTextHasNoLineFeed(s[1..]);
    }
  }

  lemma SplitFromLine(lines: seq<string>, i: nat, line: string)
    requires i < |lines| && NoLineFeed(line) && forall j :: 0 <= j < |lines| ==> NoLineFeed(lines[j])
    ensures SplitLines(line + TextPast(lines, i)) == [line] + lines[i + 1..]
  {
    SplitLine(line);
    if i + 1 == |lines| {
      assert line + TextPast(lines, i) == line;
    } else {
      var rest := JoinLines(lines[i + 1..]);
      SplitJoined(lines[i + 1..]);
      SplitAtLineFeed(line, rest);
      assert line + TextPast(lines, i) == line + "\n" + rest;
    }
  }

  lemma SplitAfterLines(head: seq<string>, tail: string)
    requires head != [] && forall j :: 0 <= j < |head| ==> NoLineFeed(head[j])
    ensures SplitLines(JoinLines(head) + "\n" + tail) == head + SplitLines(tail)
  {
    SplitJoined(head);
    SplitAtLineFeed(JoinLines(head), tail);
  }

  /** Splitting text that has this line in its middle. */
  lemma SplitAroundLine(lines: seq<string>, i: nat, line: string)
    requires i < |lines| && NoLineFeed(line) && forall j :: 0 <= j < |lines| ==> NoLineFeed(lines[j])
    ensures SplitLines(TextBefore(lines, i) + (line + TextPast(lines, i))) == lines[..i] + ([line] + lines[i + 1..])
  {
    var tail := line + TextPast(lines, i);
    SplitFromLine(lines, i, line);
    if i == 0 {
      assert TextBefore(lines, i) + tail == tail;
    } else {
      SplitAfterLines(lines[..i], tail);
    }
  }

  lemma {:induction false} SplitJoined(lines: seq<string>)
    requires lines != [] && forall j :: 0 <= j < |lines| ==> NoLineFeed(lines[j])
    ensures SplitLines(JoinLines(lines)) == lines
  {
    SplitLine(lines[0]);
    if |lines| > 1 {
      SplitJoined(lines[1..]);
      SplitAtLineFeed(lines[0], JoinLines(lines[1..]));
    }
  }

  // ---------- The update on lines ----------

  /** The lines of the updated file: one line replaced, or one added at the end. */
  function UpdatedLines(lines: seq<string>, key: string, line: string): seq<string>
    requires lines != []
  {
    var i := FirstAssigning(lines, key);
    if i < |lines| then lines[i := line + Ending(lines[i])]
    else KeptLines(lines) + [line, ""]
  }

  /** The value can be printed over an existing line, or into a new one. */
  predicate CanPrint(lines: seq<string>, key: string, value: string) {
    NoLineFeed(value) && (FirstAssigning(lines, key) < |lines| ==> IsInert(value))
  }

  lemma SplitEndedLine(line: string)
    requires NoLineFeed(line)
    ensures SplitLines(line + "\n") == [line, ""]
  {
    SplitAtLineFeed(line, "");
    SplitLine(line);
    assert line + "\n" + "" == line + "\n";
  }

  lemma AppendedAfterLineFeed(shorter: string, line: string)
    requires NoLineFeed(line)
    ensures SplitLines(shorter + "\n") == SplitLines(shorter) + [""]
    ensures SplitLines(shorter + "\n" + line + "\n") == SplitLines(shorter) + [line, ""]
  {
    assert shorter + "\n" + "" == shorter + "\n";
    SplitAtLineFeed(shorter, "");
    SplitEndedLine(line);
    SplitAtLineFeed(shorter, line + "\n");
    assert shorter + "\n" + line + "\n" == shorter + "\n" + (line + "\n");
  }

  /** The lines that an added line comes after: the empty one behind the last line feed is not among them. */
  function KeptLines(lines: seq<string>): seq<string> {
    if |lines| > 1 && lines[|lines| - 1] == "" then lines[..|lines| - 1] else lines
  }

  lemma AppendedToEnded(content: string, line: string)
    requires NoLineFeed(line) && EndsInLineFeed(content)
    ensures SplitLines(content + line + "\n") == KeptLines(SplitLines(content)) + [line, ""]
  {
    var shorter := content[..|content| - 1];
    assert content == shorter + "\n";
    AppendedAfterLineFeed(shorter, line);
  }

  lemma AppendedToOpen(content: string, line: string)
    requires NoLineFeed(line) && !EndsInLineFeed(content)
    ensures SplitLines(content + "\n" + line + "\n") == KeptLines(SplitLines(content)) + [line, ""]
  {
    LastLineIsEmptyIff(content);
    AppendedAfterLineFeed(content, line);
  }

  lemma {:induction false} LastLineIsEmptyIff(content: string)
    ensures var lines := SplitLines(content);
            EndsInLineFeed(content) <==> (|lines| > 1 && lines[|lines| - 1] == "")
  {
    if content != "" {
      LastLineIsEmptyIff(content[1..]);
    }
  }

  lemma ReplacedLine(lines: seq<string>, i: nat, line: string)
    requires i < |lines| && NoLineFeed(line) && forall j :: 0 <= j < |lines| ==> NoLineFeed(lines[j])
    ensures var ended := line + Ending(lines[i]);
            SplitLines(TextBefore(lines, i) + line + (Ending(lines[i]) + TextPast(lines, i))) == lines[i := ended]
  {
    var before, ending, past := TextBefore(lines, i), Ending(lines[i]), TextPast(lines, i);
    SplitAroundLine(lines, i, line + ending);
    assert before + line + (ending + past) == before + ((line + ending) + past);
    assert lines[..i] + ([line + ending] + lines[i + 1..]) == lines[i := line + ending];
  }

  lemma AppendedLine(content: string, line: string)
    requires NoLineFeed(line)
    ensures SplitLines(Appended(content, line)) == KeptLines(SplitLines(content)) + [line, ""]
  {
    if EndsInLineFeed(content) {
      AppendedToEnded(content, line);
      assert content + "" == content;
    } else {
      AppendedToOpen(content, line);
    }
  }

  lemma ReplacingUpsert(content: string, key: string, value: string)
    requires IsKey(key) && IsPlainFile(content) && NoLineFeed(value) && IsInert(value)
    requires FirstAssigning(SplitLines(content), key) < |SplitLines(content)|
    ensures SplitLines(UpsertOne(content, key, value)) == UpdatedLines(SplitLines(content), key, Assignment(key, value))
  {
    var lines := SplitLines(content);
    var i := FirstAssigning(lines, key);
    SplitHasNoLineFeeds(content);
    AssignmentHasNoLineFeed(key, value);
    UpsertReplacesBody(content, key, value);
    AssignmentIsInert(key, value);
    InertTextIsKept(Assignment(key, value), Body(lines[i]), TextBefore(lines, i), Ending(lines[i]) + TextPast(lines, i));
    ReplacedLine(lines, i, Assignment(key, value));
  }

  lemma AppendingUpsert(content: string, key: string, value: string)
    requires IsKey(key) && IsPlainFile(content) && NoLineFeed(value)
    requires FirstAssigning(SplitLines(content), key) == |SplitLines(content)|
    ensures SplitLines(UpsertOne(content, key, value)) == UpdatedLines(SplitLines(content), key, Assignment(key, value))
  {
    var line := Assignment(key, value);
    SplitHasNoLineFeeds(content);
    AssignmentHasNoLineFeed(key, value);
    JoinUndoesSplit(content);
    MatchIsFirstAssigning(SplitLines(content), key);
    AppendedLine(content, line);
  }

  lemma UpsertUpdatesLines(content: string, key: string, value: string)
    requires IsKey(key) && IsPlainFile(content) && CanPrint(SplitLines(content), key, value)
    ensures SplitLines(UpsertOne(content, key, value)) == UpdatedLines(SplitLines(content), key, Assignment(key, value))
  {
    if FirstAssigning(SplitLines(content), key) < |SplitLines(content)| {
      ReplacingUpsert(content, key, value);
    } else {
      AppendingUpsert(content, key, value);
    }
  }

  // ---------- What the parser reads afterwards ----------

  predicate Reads(content: string, key: string, value: string) {
    LastValue(SplitLines(content), key) == Some(value)
  }

  lemma {:induction false} LaterLinesWin(a: seq<string>, b: seq<string>, key: string)
    ensures LastValue(a + b, key) == if LastValue(b, key).Some? then LastValue(b, key) else LastValue(a, key)
  {
    if b == [] {
      assert a + b == a;
    } else {
      assert (a + b)[..|a + b| - 1] == a + b[..|b| - 1];
      LaterLinesWin(a, b[..|b| - 1], key);
    }
  }

  lemma SettingLineWins(a: seq<string>, line: string, b: seq<string>, key: string, value: string)
    requires ParseLine(line) == Some((key, value))
    ensures LastValue(a + ([line] + b), key) == if LastValue(b, key).Some? then LastValue(b, key) else Some(value)
  {
    LaterLinesWin([line], b, key);
    LaterLinesWin(a, [line] + b, key);
    assert [line][0] == line;
  }

  /** The line sets the key to the value, with or without a carriage return after it. */
  predicate Prints(line: string, key: string, value: string) {
    ParseLine(line) == Some((key, value)) && ParseLine(line + "\r") == Some((key, value))
  }

  lemma AssignmentPrints(key: string, value: string)
    requires IsKey(key)
    ensures Prints(Assignment(key, value), key, value)
  {
    PrintedLineIsReadBack(key, Escape(value));
    UnescapeUndoesEscape(value);
  }

  lemma EndedLinePrints(line: string, other: string, key: string, value: string)
    requires Prints(line, key, value)
    ensures ParseLine(line + Ending(other)) == Some((key, value))
  {
    assert line + "" == line;
  }

  /** The new value, or the value that a line after the replaced one sets. */
  function ShadowedBy(lines: seq<string>, key: string, value: string): string {
    var i := FirstAssigning(lines, key);
    if i < |lines| && LastValue(lines[i + 1..], key).Some? then LastValue(lines[i + 1..], key).value else value
  }

  lemma ReplacedLineIsRead(lines: seq<string>, i: nat, line: string, key: string, value: string)
    requires i < |lines| && ParseLine(line) == Some((key, value))
    ensures LastValue(lines[i := line], key) == if LastValue(lines[i + 1..], key).Some? then LastValue(lines[i + 1..], key) else Some(value)
  {
    assert lines[i := line] == lines[..i] + ([line] + lines[i + 1..]);
    SettingLineWins(lines[..i], line, lines[i + 1..], key, value);
  }

  lemma AddedLineIsRead(kept: seq<string>, line: string, key: string, value: string)
    requires ParseLine(line) == Some((key, value))
    ensures LastValue(kept + [line, ""], key) == Some(value)
  {
    assert [line] + [""] == [line, ""];
    SettingLineWins(kept, line, [""], key, value);
    NothingSet([""], key);
  }

  lemma UpdatedLinesRead(lines: seq<string>, line: string, key: string, value: string)
    requires Prints(line, key, value) && lines != []
    ensures LastValue(UpdatedLines(lines, key, line), key) == Some(ShadowedBy(lines, key, value))
  {
    var i := FirstAssigning(lines, key);
    if i < |lines| {
      EndedLinePrints(line, lines[i], key, value);
      ReplacedLineIsRead(lines, i, line + Ending(lines[i]), key, value);
    } else {
      AddedLineIsRead(KeptLines(lines), line, key, value);
    }
  }

  /** After an update the parser reads the new value, unless a line after the replaced one sets the key again. */
  lemma UpdateIsReadUnlessShadowed(content: string, key: string, value: string)
    requires IsKey(key) && IsPlainFile(content) && CanPrint(SplitLines(content), key, value)
    ensures Reads(UpsertOne(content, key, value), key, ShadowedBy(SplitLines(content), key, value))
  {
    UpsertUpdatesLines(content, key, value);
    AssignmentPrints(key, value);
    UpdatedLinesRead(SplitLines(content), Assignment(key, value), key, value);
  }

  /** As far as the key is concerned, `b` has the settings of `a` at the same places. */
  predicate SameSettings(a: seq<string>, b: seq<string>, key: string) {
    && |a| <= |b|
    && forall j :: 0 <= j < |b| ==>
         (j < |a| && b[j] == a[j]) || (!Sets(b[j], key) && (j < |a| ==> !Sets(a[j], key)))
  }

  lemma {:induction false} SameSettingsReadTheSame(a: seq<string>, b: seq<string>, key: string)
    requires SameSettings(a, b, key)
    ensures LastValue(a, key) == LastValue(b, key)
  {
    if |b| > 0 {
      var shorter := b[..|b| - 1];
      SameSettingsReadTheSame(if |a| == |b| then a[..|a| - 1] else a, shorter, key);
    }
  }

  lemma ReplacementKeepsSettings(lines: seq<string>, i: nat, line: string, key: string)
    requires i < |lines| && !Sets(lines[i], key) && !Sets(line, key)
    ensures SameSettings(lines, lines[i := line], key)
  {
  }

  lemma AdditionKeepsSettings(lines: seq<string>, line: string, key: string)
    requires lines != [] && !Sets(line, key) && !Sets("", key)
    ensures SameSettings(lines, KeptLines(lines) + [line, ""], key)
  {
    var kept, after := KeptLines(lines), KeptLines(lines) + [line, ""];
    assert |lines| <= |after|;
    forall j | 0 <= j < |after|
      ensures (j < |lines| && after[j] == lines[j]) || (!Sets(after[j], key) && (j < |lines| ==> !Sets(lines[j], key)))
    {
      if j < |kept| {
        assert after[j] == kept[j] == lines[j];
      } else {
        assert after[j] == if j == |kept| then line else "";
      }
    }
  }

  lemma UpdateKeepsOtherSettings(lines: seq<string>, line: string, key: string, value: string, other: string)
    requires IsKey(key) && Prints(line, key, value) && lines != [] && other != key
    ensures SameSettings(lines, UpdatedLines(lines, key, line), other)
  {
    var i := FirstAssigning(lines, key);
    if i < |lines| {
      AssigningLineSetsKey(lines[i], key);
      EndedLinePrints(line, lines[i], key, value);
      ReplacementKeepsSettings(lines, i, line + Ending(lines[i]), other);
    } else {
      AdditionKeepsSettings(lines, line, other);
    }
  }

  /** An update leaves what the parser reads for every other key as it was, and adds none. */
  lemma OtherKeysAreKept(content: string, key: string, value: string, other: string)
    requires IsKey(key) && IsPlainFile(content) && CanPrint(SplitLines(content), key, value) && other != key
    ensures LastValue(SplitLines(UpsertOne(content, key, value)), other) == LastValue(SplitLines(content), other)
  {
    UpsertUpdatesLines(content, key, value);
    AssignmentPrints(key, value);
    UpdateKeepsOtherSettings(SplitLines(content), Assignment(key, value), key, value, other);
    SameSettingsReadTheSame(SplitLines(content), UpdatedLines(SplitLines(content), key, Assignment(key, value)), other);
  }

  // ---------- Exactly which values survive ----------

  /** No line after one that assigns the key sets it again. */
  predicate Unshadowed(lines: seq<string>, key: string) {
    forall a, b :: 0 <= a < b < |lines| && Assigns(lines[a], key) ==> !Sets(lines[b], key)
  }

  lemma {:induction false} NothingSet(lines: seq<string>, key: string)
    requires forall j :: 0 <= j < |lines| ==> !Sets(lines[j], key)
    ensures LastValue(lines, key) == None
  {
    if lines != [] { NothingSet(lines[..|lines| - 1], key); }
  }

  /** The value is read back after an update of any plain file in which the key is not shadowed. */
  ghost predicate AlwaysSurvives(key: string, value: string) {
    forall content :: IsPlainFile(content) && Unshadowed(SplitLines(content), key) ==>
      Reads(UpsertOne(content, key, value), key, value)
  }

  lemma UnshadowedIsNew(lines: seq<string>, key: string, value: string)
    requires Unshadowed(lines, key)
    ensures ShadowedBy(lines, key, value) == value
  {
    var i := FirstAssigning(lines, key);
    if i < |lines| { NothingSet(lines[i + 1..], key); }
  }

  lemma UnshadowedUpdateIsRead(content: string, key: string, value: string)
    requires IsKey(key) && IsPlainFile(content) && CanPrint(SplitLines(content), key, value) && Unshadowed(SplitLines(content), key)
    ensures Reads(UpsertOne(content, key, value), key, value)
  {
    UpdateIsReadUnlessShadowed(content, key, value);
    UnshadowedIsNew(SplitLines(content), key, value);
  }

  lemma {:induction false} UnescapedTextHasNoLineFeed(s: string)
    requires NoLineFeed(s)
    ensures NoLineFeed(Unescape(s))
  {
    if s != "" {
      if s[0] == '\\' && |s| > 1 && IsEscapable(s[1]) { UnescapedTextHasNoLineFeed(s[2..]); }
      else { UnescapedTextHasNoLineFeed(s[1..]); }
    }
  }

  lemma TrimmedTextHasNoLineFeed(s: string)
    requires NoLineFeed(s)
    ensures NoLineFeed(Trim(s))
  {
    TrimLeftIsSuffix(s);
    TrimRightIsPrefix(TrimLeft(s));
  }

  lemma ParsedValueHasNoLineFeed(line: string)
    requires NoLineFeed(line) && ParseLine(line).Some?
    ensures NoLineFeed(ParseLine(line).value.1)
  {
    TrimmedTextHasNoLineFeed(line);
    var text := Trim(line)[Find(Trim(line), '=') + 1..];
    TrimmedTextHasNoLineFeed(text);
    UnescapedTextHasNoLineFeed(Inner(Trim(text)));
  }

  lemma {:induction false} ReadValueHasNoLineFeed(lines: seq<string>, key: string)
    requires LastValue(lines, key).Some? && forall j :: 0 <= j < |lines| ==> NoLineFeed(lines[j])
    ensures NoLineFeed(LastValue(lines, key).value)
  {
    var n := |lines| - 1;
    if Sets(lines[n], key) { ParsedValueHasNoLineFeed(lines[n]); } else { ReadValueHasNoLineFeed(lines[..n], key); }
  }

  lemma {:induction false} EscapeAppends(a: string, b: string)
    ensures Escape(a + b) == Escape(a) + Escape(b)
  {
    EscapeCharAppends(a, b, '\\');
    EscapeCharAppends(EscapeChar(a, '\\'), EscapeChar(b, '\\'), '\"');
  }

  lemma {:induction false} NothingToEscape(s: string)
    requires forall i :: 0 <= i < |s| ==> !IsEscapable(s[i])
    ensures Escape(s) == s
  {
    if s != "" {
      EscapeIsOnePass(s);
      NothingToEscape(s[1..]);
    }
  }

  /** The only assignment of a file without line breaks. */
  function Only(s: string, matched: string): string {
    Expand(s, matched, "", "")
  }

  lemma EscapedHead(s: string)
    requires s != ""
    ensures Escape(s) != "" && Escape(s)[0] == EscapedChar(s[0])[0]
  {
    EscapeIsOnePass(s);
  }

  lemma EscapedPattern(s: string)
    requires |s| > 1 && s[0] == '$' && IsPattern(s[1])
    ensures Escape(s) == s[..2] + Escape(s[2..])
  {
    NothingToEscape(s[..2]);
    EscapeAppends(s[..2], s[2..]);
    assert s[..2] + s[2..] == s;
  }

  lemma ExpandedChar(c: char, rest: string, matched: string)
    requires !(c == '$' && rest != "" && IsPattern(rest[0]))
    ensures Only([c] + rest, matched) == [c] + Only(rest, matched)
  {
    assert ([c] + rest)[1..] == rest;
  }

  lemma ExpandedEscape(c: char, rest: string, matched: string)
    requires IsEscapable(c)
    ensures Only(['\\', c] + rest, matched) == ['\\', c] + Only(rest, matched)
  {
    ExpandedChar(c, rest, matched);
    ExpandedChar('\\', [c] + rest, matched);
    assert ['\\', c] + rest == ['\\'] + ([c] + rest);
  }

  lemma ExpandedHead(s: string, matched: string)
    requires s != "" && !(s[0] == '$' && |s| > 1 && IsPattern(s[1]))
    ensures Only(Escape(s), matched) == EscapedChar(s[0]) + Only(Escape(s[1..]), matched)
  {
    EscapeIsOnePass(s);
    if IsEscapable(s[0]) {
      ExpandedEscape(s[0], Escape(s[1..]), matched);
    } else {
      if s[1..] != "" { EscapedHead(s[1..]); }
      ExpandedChar(s[0], Escape(s[1..]), matched);
    }
  }

  /** Expanding the escaped text is escaping the expanded text, when the match needs no escaping. */
  lemma {:induction false} ExpansionCommutesWithEscape(s: string, matched: string)
    requires Escape(matched) == matched
    ensures Only(Escape(s), matched) == Escape(Only(s, matched))
    decreases |s|
  {
    if s == "" {
    } else if s[0] == '$' && |s| > 1 && IsPattern(s[1]) {
      var out := if s[1] == '$' then "$" else if s[1] == '&' then matched else "";
      EscapedPattern(s);
      ExpansionCommutesWithEscape(s[2..], matched);
      assert (s[..2] + Escape(s[2..]))[2..] == Escape(s[2..]);
      NothingToEscape("$");
      EscapeAppends(out, Only(s[2..], matched));
    } else {
      ExpandedHead(s, matched);
      ExpansionCommutesWithEscape(s[1..], matched);
      var t := [s[0]] + Only(s[1..], matched);
      EscapeIsOnePass(t);
      assert t[1..] == Only(s[1..], matched);
    }
  }

  /** Expansion with a long match never gives back a text that has a pattern in it. */
  lemma {:induction false} ExpansionChangesLength(s: string, matched: string)
    requires |matched| > |s|
    ensures IsInert(s) || |Only(s, matched)| < |s| || |Only(s, matched)| >= |matched|
    ensures |Only(s, matched)| <= |s| || |Only(s, matched)| >= |matched|
    decreases |s|
  {
    if s == "" {
    } else if s[0] == '$' && |s| > 1 && IsPattern(s[1]) {
      ExpansionChangesLength(s[2..], matched);
    } else {
      ExpansionChangesLength(s[1..], matched);
      if IsInert(s[1..]) {
        forall i | 0 <= i < |s| - 1 && s[i] == '$' ensures !IsPattern(s[i + 1]) {
          assert i > 0 ==> s[1..][i - 1] == '$' && s[1..][i] == s[i + 1];
        }
      }
    }
  }

  lemma {:induction false} ExpansionKeepsHead(head: string, s: string, matched: string)
    requires forall i :: 0 <= i < |head| ==> head[i] != '$'
    ensures Only(head + s, matched) == head + Only(s, matched)
  {
    if head == "" {
      assert head + s == s;
    } else {
      assert (head + s)[1..] == head[1..] + s;
      ExpansionKeepsHead(head[1..], s, matched);
    }
  }

  lemma {:induction false} ExpansionKeepsQuote(s: string, matched: string)
    ensures Only(s + "\"", matched) == Only(s, matched) + "\""
    decreases |s|
  {
    var t := s + "\"";
    if s == "" {
      assert t == "\"";
    } else if s[0] == '$' && |s| > 1 && IsPattern(s[1]) {
      assert t[2..] == s[2..] + "\"";
      ExpansionKeepsQuote(s[2..], matched);
    } else {
      assert t[1..] == s[1..] + "\"";
      ExpansionKeepsQuote(s[1..], matched);
    }
  }

  lemma {:induction false} ExpansionHasNoLineFeed(s: string, matched: string)
    requires NoLineFeed(s) && NoLineFeed(matched)
    ensures NoLineFeed(Only(s, matched))
    decreases |s|
  {
    if s == "" {
    } else if s[0] == '$' && |s| > 1 && IsPattern(s[1]) {
      ExpansionHasNoLineFeed(s[2..], matched);
    } else {
      ExpansionHasNoLineFeed(s[1..], matched);
    }
  }

  lemma ExpandedAssignment(key: string, value: string, matched: string)
    requires IsKey(key) && Escape(matched) == matched
    ensures Only(Assignment(key, value), matched) == Assignment(key, Only(value, matched))
  {
    var head := key + "=\"";
    forall i | 0 <= i < |head| ensures head[i] != '$' {
      if i < |key| { assert IsKeyChar(key[i]); }
    }
    assert Assignment(key, value) == head + (Escape(value) + "\"");
    ExpansionKeepsHead(head, Escape(value) + "\"", matched);
    ExpansionKeepsQuote(Escape(value), matched);
    ExpansionCommutesWithEscape(value, matched);
    assert Assignment(key, Only(value, matched)) == head + (Escape(Only(value, matched)) + "\"");
  }

  /** A one-line file in which the key has a value of this many characters. */
  function LongLine(key: string, n: nat): string {
    key + "=" + seq(n, _ => 'x')
  }

  lemma LongLineIsPlain(key: string, n: nat)
    requires IsKey(key)
    ensures var line := LongLine(key, n);
            NoLineBreak(line) && NoLineFeed(line) && Body(line) == line && Assigns(line, key) && Escape(line) == line
  {
    var line := LongLine(key, n);
    forall i | 0 <= i < |line| ensures !IsLineBreak(line[i]) && !IsEscapable(line[i]) {
      if i < |key| { assert IsKeyChar(line[i]) by { assert line[i] == key[i]; } }
    }
    NothingToEscape(line);
  }

  lemma UpdateOfOneLine(key: string, value: string, line: string)
    requires IsKey(key) && NoLineBreak(line) && NoLineFeed(line) && Body(line) == line && Assigns(line, key)
    ensures SplitLines(line) == [line] && IsPlainFile(line)
    ensures UpsertOne(line, key, value) == Only(Assignment(key, value), line)
  {
    SplitLine(line);
    assert Ending(line) == "";
    UpsertReplacesBody(line, key, value);
    assert TextPast([line], 0) == "";
  }

  lemma ValueWithPatternIsLost(key: string, value: string)
    requires IsKey(key) && NoLineFeed(value) && !IsInert(value)
    ensures !AlwaysSurvives(key, value)
  {
    var line := LongLine(key, |value|);
    var stored := Only(value, line);
    LongLineIsPlain(key, |value|);
    UpdateOfOneLine(key, value, line);
    ExpandedAssignment(key, value, line);
    ExpansionChangesLength(value, line);
    ExpansionHasNoLineFeed(value, line);
    AssignmentHasNoLineFeed(key, stored);
    SplitLine(Assignment(key, stored));
    AssignmentPrints(key, stored);
    assert SplitLines(UpsertOne(line, key, value)) == [Assignment(key, stored)];
    assert LastValue([Assignment(key, stored)], key) == Some(stored);
    assert !Reads(UpsertOne(line, key, value), key, value);
  }

  lemma ValueWithLineFeedIsLost(key: string, value: string)
    requires IsKey(key) && !NoLineFeed(value)
    ensures !AlwaysSurvives(key, value)
  {
    var line := LongLine(key, 0);
    LongLineIsPlain(key, 0);
    SplitLine(line);
    var lines := SplitLines(UpsertOne(line, key, value));
    SplitHasNoLineFeeds(UpsertOne(line, key, value));
    if LastValue(lines, key).Some? { ReadValueHasNoLineFeed(lines, key); }
    assert !Reads(UpsertOne(line, key, value), key, value);
  }

  /** A value survives in every plain file exactly when it has no line feed and no replacement pattern. */
  lemma SurvivesIff(key: string, value: string)
    requires IsKey(key)
    ensures AlwaysSurvives(key, value) <==> NoLineFeed(value) && IsInert(value)
  {
    if NoLineFeed(value) && IsInert(value) {
      forall content | IsPlainFile(content) && Unshadowed(SplitLines(content), key)
        ensures Reads(UpsertOne(content, key, value), key, value)
      {
        UnshadowedUpdateIsRead(content, key, value);
      }
    } else if NoLineFeed(value) {
      ValueWithPatternIsLost(key, value);
    } else {
      ValueWithLineFeedIsLost(key, value);
    }
  }

  // ---------- Several updates ----------

  predicate DistinctKeys(updates: seq<(string, string)>) {
    forall i, j :: 0 <= i < j < |updates| ==> updates[i].0 != updates[j].0
  }

  predicate GoodUpdate(u: (string, string)) {
    IsKey(u.0) && NoLineBreak(u.1) && IsInert(u.1)
  }

  predicate GoodUpdates(updates: seq<(string, string)>) {
    forall i :: 0 <= i < |updates| ==> GoodUpdate(updates[i])
  }

  lemma {:induction false} EscapedTextHasNoLineBreak(s: string)
    requires NoLineBreak(s)
    ensures NoLineBreak(Escape(s))
  {
    if s != "" {
      EscapeIsOnePass(s);
      EscapedTextHasNoLineBreak(s[1..]);
    }
  }

  lemma AssignmentIsPlain(key: string, value: string, ending: string)
    requires IsKey(key) && NoLineBreak(value) && (ending == "" || ending == "\r")
    ensures IsPlainLine(Assignment(key, value) + ending)
  {
    EscapedTextHasNoLineBreak(value);
    var line := Assignment(key, value);
    forall i | 0 <= i < |line| ensures !IsLineBreak(line[i]) {
      if i < |key| { assert IsKeyChar(key[i]) && line[i] == key[i]; }
    }
    assert line + "" == line && (line + "\r")[..|line|] == line;
  }

  lemma AddedLinesArePlain(lines: seq<string>, line: string)
    requires AllPlain(lines) && IsPlainLine(line)
    ensures AllPlain(lines + [line, ""])
  {
  }

  lemma ReplacedLinesArePlain(lines: seq<string>, i: nat, line: string)
    requires AllPlain(lines) && IsPlainLine(line) && i < |lines|
    ensures AllPlain(lines[i := line])
  {
  }

  lemma UpdatedLinesArePlain(lines: seq<string>, key: string, line: string)
    requires lines != [] && AllPlain(lines) && IsPlainLine(line) && IsPlainLine(line + "\r")
    ensures AllPlain(UpdatedLines(lines, key, line))
  {
    var i := FirstAssigning(lines, key);
    if i < |lines| {
      assert line + "" == line;
      ReplacedLinesArePlain(lines, i, line + Ending(lines[i]));
    } else {
      AddedLinesArePlain(KeptLines(lines), line);
    }
  }

  lemma UpdateKeepsPlain(content: string, u: (string, string))
    requires IsPlainFile(content) && GoodUpdate(u)
    ensures IsPlainFile(UpsertOne(content, u.0, u.1))
  {
    UpsertUpdatesLines(content, u.0, u.1);
    AssignmentIsPlain(u.0, u.1, "");
    AssignmentIsPlain(u.0, u.1, "\r");
    assert Assignment(u.0, u.1) + "" == Assignment(u.0, u.1);
    UpdatedLinesArePlain(SplitLines(content), u.0, Assignment(u.0, u.1));
  }

  lemma SameSettingsKeepUnshadowed(a: seq<string>, b: seq<string>, key: string)
    requires IsKey(key) && SameSettings(a, b, key) && Unshadowed(a, key)
    ensures Unshadowed(b, key)
  {
    forall j, k | 0 <= j < k < |b| && Assigns(b[j], key) ensures !Sets(b[k], key) {
      AssigningLineSetsKey(b[j], key);
    }
  }

  /** The keys of the updates are not shadowed in the file. */
  predicate AllUnshadowed(content: string, updates: seq<(string, string)>) {
    forall i :: 0 <= i < |updates| ==> Unshadowed(SplitLines(content), updates[i].0)
  }

  lemma UpdateKeepsUnshadowed(content: string, u: (string, string), other: string)
    requires IsPlainFile(content) && GoodUpdate(u) && IsKey(other) && other != u.0 && Unshadowed(SplitLines(content), other)
    ensures Unshadowed(SplitLines(UpsertOne(content, u.0, u.1)), other)
  {
    UpsertUpdatesLines(content, u.0, u.1);
    AssignmentPrints(u.0, u.1);
    UpdateKeepsOtherSettings(SplitLines(content), Assignment(u.0, u.1), u.0, u.1, other);
    SameSettingsKeepUnshadowed(SplitLines(content), UpdatedLines(SplitLines(content), u.0, Assignment(u.0, u.1)), other);
  }

  lemma NextUpdatesAreUnshadowed(content: string, updates: seq<(string, string)>)
    requires IsPlainFile(content) && updates != [] && GoodUpdates(updates) && DistinctKeys(updates) && AllUnshadowed(content, updates)
    ensures AllUnshadowed(UpsertOne(content, updates[0].0, updates[0].1), updates[1..])
  {
    forall j | 0 <= j < |updates[1..]|
      ensures Unshadowed(SplitLines(UpsertOne(content, updates[0].0, updates[0].1)), updates[1..][j].0)
    {
      UpdateKeepsUnshadowed(content, updates[0], updates[j + 1].0);
    }
  }

  lemma {:induction false} UpdatesKeepOtherKeys(content: string, updates: seq<(string, string)>, key: string)
    requires IsPlainFile(content) && GoodUpdates(updates)
    requires forall i :: 0 <= i < |updates| ==> updates[i].0 != key
    ensures LastValue(SplitLines(Upserted(content, updates)), key) == LastValue(SplitLines(content), key)
    decreases |updates|
  {
    if updates != [] {
      var u := updates[0];
      UpdateKeepsPlain(content, u);
      OtherKeysAreKept(content, u.0, u.1, key);
      UpdatesKeepOtherKeys(UpsertOne(content, u.0, u.1), updates[1..], key);
    }
  }

  lemma FirstUpdateIsRead(content: string, updates: seq<(string, string)>)
    requires IsPlainFile(content) && updates != [] && GoodUpdates(updates) && DistinctKeys(updates)
    requires Unshadowed(SplitLines(content), updates[0].0)
    ensures Reads(Upserted(content, updates), updates[0].0, updates[0].1)
  {
    UpdateKeepsPlain(content, updates[0]);
    UnshadowedUpdateIsRead(content, updates[0].0, updates[0].1);
    UpdatesKeepOtherKeys(UpsertOne(content, updates[0].0, updates[0].1), updates[1..], updates[0].0);
  }

  /** After a batch of updates with distinct keys, every one of them is read back. */
  lemma {:induction false} AllUpdatesAreRead(content: string, updates: seq<(string, string)>, i: nat)
    requires IsPlainFile(content) && GoodUpdates(updates) && DistinctKeys(updates) && AllUnshadowed(content, updates)
    requires i < |updates|
    ensures Reads(Upserted(content, updates), updates[i].0, updates[i].1)
    decreases |updates|
  {
    if i == 0 {
      FirstUpdateIsRead(content, updates);
    } else {
      UpdateKeepsPlain(content, updates[0]);
      NextUpdatesAreUnshadowed(content, updates);
      AllUpdatesAreRead(UpsertOne(content, updates[0].0, updates[0].1), updates[1..], i - 1);
    }
  }
}
