/**
 Tool names as the model writes them, and the clean-up that both the agent loop and the tool
 executor apply: cut the first `<` from which no line break follows, then trim white space.
 */
module ToolNames {
  import opened Text

  predicate NoAngle(s: string) {
    forall i :: 0 <= i < |s| ==> s[i] != '<'
  }

  /** The pattern's dot does not match a line break, so a `<` with one after it is kept. */
  function Cut(s: string): string {
    if s == "" then ""
    else if s[0] == '<' && NoLineBreak(s[1..]) then ""
    else [s[0]] + Cut(s[1..])
  }

  /** The name the agent loop looks up in its once-per-session table. */
  function Clean(raw: string): string {
    Trim(Cut(raw))
  }

  /** The name of the handler that runs: the executor cleans the name it is given twice more. */
  function Executed(raw: string): string {
    Clean(Clean(Clean(raw)))
  }

  /** The executor takes the write lock by the name it has cleaned once, and runs the name it cleans again. */
  predicate TakesWriteLock(raw: string, writeTools: set<string>) {
    Clean(Clean(raw)) in writeTools
  }

  /** The lock is decided for the tool that runs. */
  predicate IsLockedAsExecuted(raw: string, writeTools: set<string>) {
    Executed(raw) in writeTools ==> TakesWriteLock(raw, writeTools)
  }

  // ---------- Names on one line are cleaned once and for all ----------

  lemma {:induction false} CutLeavesNoAngle(s: string)
    requires NoLineBreak(s)
    ensures NoAngle(Cut(s)) && NoLineBreak(Cut(s))
  {
    if s != "" && !(s[0] == '<' && NoLineBreak(s[1..])) {
      CutLeavesNoAngle(s[1..]);
    }
  }

  lemma {:induction false} CutKeepsNoAngle(s: string)
    requires NoAngle(s)
    ensures Cut(s) == s
  {
    if s != "" {
      CutKeepsNoAngle(s[1..]);
    }
  }

  lemma TrimKeepsNoAngle(s: string)
    requires NoAngle(s)
    ensures NoAngle(Trim(s))
  {
    TrimLeftIsSuffix(s);
    TrimRightIsPrefix(TrimLeft(s));
  }

  /** On one line, however the name is decorated, the loop and the executor agree on it. */
  lemma OneLineNamesAreCleanedOnce(raw: string)
    requires NoLineBreak(raw)
    ensures Clean(Clean(raw)) == Clean(raw) && Executed(raw) == Clean(raw)
  {
    CutLeavesNoAngle(raw);
    TrimKeepsNoAngle(Cut(raw));
    CutKeepsNoAngle(Clean(raw));
    TrimIsIdempotent(Cut(raw));
  }

  // ---------- Names on two lines ----------

  lemma {:induction false} CutAfterBreak(kept: string, tail: string)
    requires kept == "" || IsLineBreak(kept[|kept| - 1])
    requires tail != "" && tail[0] == '<' && NoLineBreak(tail[1..])
    ensures Cut(kept + tail) == kept
  {
    if kept == "" {
      assert kept + tail == tail;
    } else {
      var rest := (kept + tail)[1..];
      assert rest == kept[1..] + tail;
      if |kept| > 1 {
        assert rest[|kept| - 2] == kept[|kept| - 1];
      }
      CutAfterBreak(kept[1..], tail);
    }
  }

  lemma {:induction false} CutAtAngle(kept: string, tail: string)
    requires NoAngle(kept)
    requires tail != "" && tail[0] == '<' && NoLineBreak(tail[1..])
    ensures Cut(kept + tail) == kept
  {
    if kept == "" {
      assert kept + tail == tail;
    } else {
      assert (kept + tail)[1..] == kept[1..] + tail;
      CutAtAngle(kept[1..], tail);
    }
  }

  /** A plain tool name: no decoration in it and no white space around it. */
  predicate IsPlain(tool: string) {
    tool != "" && NoAngle(tool) && !IsSpace(tool[0]) && !IsSpace(tool[|tool| - 1])
  }

  /** The loop sees a decorated name where the executor finds the plain one. */
  lemma TwoLineDecorationsNeedTwoPasses(tool: string, first: string, second: string)
    requires IsPlain(tool) && NoLineBreak(first) && NoLineBreak(second)
    ensures var raw := tool + ("<" + first + "\n") + ("<" + second);
            Clean(raw) != tool && Clean(Clean(raw)) == tool && Executed(raw) == tool
  {
    var line, tail := "<" + first + "\n", "<" + second;
    assert tail[1..] == second;
    CutAfterBreak(tool + line, tail);
    TrimRightStopsAt(tool + "<", first + "\n");
    assert (tool + "<") + (first + "\n") == tool + line;
    var k :| 0 <= k <= |first + "\n"| && TrimRight(tool + line) == (tool + "<") + (first + "\n")[..k]
             && (k > 0 ==> !IsSpace((first + "\n")[k - 1]));
    SecondPassFindsTool(tool, first, k);
    assert Clean(tool + line + tail) == (tool + "<") + (first + "\n")[..k];
  }

  lemma SecondPassFindsTool(tool: string, first: string, k: nat)
    requires IsPlain(tool) && NoLineBreak(first) && k <= |first + "\n"|
    requires k > 0 ==> !IsSpace((first + "\n")[k - 1])
    ensures Clean((tool + "<") + (first + "\n")[..k]) == tool && Clean(tool) == tool
  {
    var rest := "<" + (first + "\n")[..k];
    assert (tool + "<") + (first + "\n")[..k] == tool + rest;
    assert k <= |first|;
    assert rest[1..] == first[..k];
    CutAtAngle(tool, rest);
    CutKeepsNoAngle(tool);
  }

  // ---------- The write lock ----------

  /** A name that two passes have freed of decorations is the name that runs. */
  lemma FreeAfterTwoPassesIsExecuted(raw: string)
    requires NoAngle(Clean(Clean(raw)))
    ensures Executed(raw) == Clean(Clean(raw))
  {
    CutKeepsNoAngle(Clean(Clean(raw)));
    TrimIsIdempotent(Cut(Clean(raw)));
  }

  /**
   The lock is decided for the tool that runs, except exactly when a write tool runs whose name still
   had a decoration after the two passes that come before the decision.
   */
  lemma LockedIff(raw: string, writeTools: set<string>)
    requires forall w :: w in writeTools ==> NoAngle(w)
    ensures IsLockedAsExecuted(raw, writeTools) <==> !(Executed(raw) in writeTools && !NoAngle(Clean(Clean(raw))))
  {
    if NoAngle(Clean(Clean(raw))) { FreeAfterTwoPassesIsExecuted(raw); }
  }

  /** Written on one line, a write tool runs under the write lock. */
  lemma OneLineNamesAreLocked(raw: string, writeTools: set<string>)
    requires NoLineBreak(raw)
    ensures IsLockedAsExecuted(raw, writeTools)
  {
    CutLeavesNoAngle(raw);
    TrimKeepsNoAngle(Cut(raw));
    OneLineNamesAreCleanedOnce(raw);
    FreeAfterTwoPassesIsExecuted(raw);
  }

  /** Decorations on three lines leave a write tool outside the write lock. */
  lemma ThreeLineDecorationsMissTheLock(tool: string, first: string, second: string, third: string, writeTools: set<string>)
    requires IsPlain(tool) && NoLineBreak(first) && NoLineBreak(second) && NoLineBreak(third)
    requires tool in writeTools && forall w :: w in writeTools ==> NoAngle(w)
    ensures !IsLockedAsExecuted(tool + ("<" + first + "\n") + ("<" + second + "\n") + ("<" + third), writeTools)
  {
    var head, tail := tool + ("<" + first + "\n"), "<" + third;
    var raw := head + ("<" + second + "\n") + tail;
    assert tail[1..] == third;
    CutAfterBreak(head + ("<" + second + "\n"), tail);
    TrimRightStopsAt(head + "<", second + "\n");
    assert (head + "<") + (second + "\n") == head + ("<" + second + "\n");
    var k :| 0 <= k <= |second + "\n"| && TrimRight(head + ("<" + second + "\n")) == (head + "<") + (second + "\n")[..k]
             && (k > 0 ==> !IsSpace((second + "\n")[k - 1]));
    ThirdPassIsNeeded(tool, first, second, k);
    assert Clean(raw) == head + ("<" + second[..k]);
    SecondPassIsDecorated(tool, first, second[..k]);
    LockedIff(raw, writeTools);
  }

  lemma ThirdPassIsNeeded(tool: string, first: string, second: string, k: nat)
    requires IsPlain(tool) && NoLineBreak(second) && k <= |second + "\n"| && (k > 0 ==> !IsSpace((second + "\n")[k - 1]))
    ensures k <= |second|
    ensures (tool + ("<" + first + "\n") + "<") + (second + "\n")[..k] == tool + ("<" + first + "\n") + ("<" + second[..k])
  {
    assert (second + "\n")[..k] == second[..k];
  }

  /** What the loop hands over still has a decoration after one more pass, and none after two. */
  lemma SecondPassIsDecorated(tool: string, first: string, second: string)
    requires IsPlain(tool) && NoLineBreak(first) && NoLineBreak(second)
    ensures var handed := tool + ("<" + first + "\n") + ("<" + second);
            !NoAngle(Clean(handed)) && Clean(Clean(handed)) == tool
  {
    TwoLineDecorationsNeedTwoPasses(tool, first, second);
    var handed := tool + ("<" + first + "\n") + ("<" + second);
    if NoAngle(Clean(handed)) {
      CutKeepsNoAngle(Clean(handed));
      TrimIsIdempotent(Cut(handed));
    }
  }
}
