/**
 Strings as the program treats them: line breaks, white space, and trimming.
 */
module Text {
  predicate IsLineBreak(c: char) {
    c == '\n' || c == '\r' || c == '\U{2028}' || c == '\U{2029}'
  }

  predicate IsSpace(c: char) {
    || IsLineBreak(c) || c == '\t' || c == '\U{000B}' || c == '\U{000C}' || c == ' '
    || c == '\U{00A0}' || c == '\U{1680}' || '\U{2000}' <= c <= '\U{200A}'
    || c == '\U{202F}' || c == '\U{205F}' || c == '\U{3000}' || c == '\U{FEFF}'
  }

  predicate NoLineBreak(s: string) {
    forall i :: 0 <= i < |s| ==> !IsLineBreak(s[i])
  }

  function TrimLeft(s: string): string {
    if s != "" && IsSpace(s[0]) then TrimLeft(s[1..]) else s
  }

  function TrimRight(s: string): string {
    if s != "" && IsSpace(s[|s| - 1]) then TrimRight(s[..|s| - 1]) else s
  }

  function Trim(s: string): string {
    TrimRight(TrimLeft(s))
  }

  lemma {:induction false} TrimLeftIsSuffix(s: string)
    ensures exists k :: 0 <= k <= |s| && TrimLeft(s) == s[k..]
    ensures TrimLeft(s) != "" ==> !IsSpace(TrimLeft(s)[0])
  {
    if s != "" && IsSpace(s[0]) {
      TrimLeftIsSuffix(s[1..]);
      var k :| 0 <= k <= |s[1..]| && TrimLeft(s[1..]) == s[1..][k..];
      assert TrimLeft(s) == s[k + 1..];
    } else {
      assert TrimLeft(s) == s[0..];
    }
  }

  lemma {:induction false} TrimRightIsPrefix(s: string)
    ensures exists k :: 0 <= k <= |s| && TrimRight(s) == s[..k]
    ensures TrimRight(s) != "" ==> !IsSpace(TrimRight(s)[|TrimRight(s)| - 1])
  {
    if s != "" && IsSpace(s[|s| - 1]) {
      TrimRightIsPrefix(s[..|s| - 1]);
      var k :| 0 <= k <= |s| - 1 && TrimRight(s[..|s| - 1]) == s[..|s| - 1][..k];
      assert TrimRight(s) == s[..k];
    } else {
      assert TrimRight(s) == s[..|s|];
    }
  }

  lemma TrimIsIdempotent(s: string)
    ensures Trim(Trim(s)) == Trim(s)
  {
    var left := TrimLeft(s);
    TrimLeftIsSuffix(s);
    TrimRightIsPrefix(left);
    var k :| 0 <= k <= |left| && TrimRight(left) == left[..k];
  }

  /** Text that neither starts nor ends in white space is left alone, and a trailing carriage return goes. */
  lemma TrimKeepsVisible(s: string)
    requires s != "" && !IsSpace(s[0]) && !IsSpace(s[|s| - 1])
    ensures Trim(s) == s && Trim(s + "\r") == s
  {
    assert (s + "\r")[..|s|] == s;
  }

  lemma {:induction false} TrimRightStopsAt(kept: string, tail: string)
    requires kept != "" && !IsSpace(kept[|kept| - 1])
    ensures exists k :: 0 <= k <= |tail| && TrimRight(kept + tail) == kept + tail[..k] && (k > 0 ==> !IsSpace(tail[k - 1]))
  {
    if tail != "" && IsSpace(tail[|tail| - 1]) {
      var shorter := tail[..|tail| - 1];
      assert (kept + tail)[..|kept + tail| - 1] == kept + shorter;
      TrimRightStopsAt(kept, shorter);
      var k :| 0 <= k <= |shorter| && TrimRight(kept + shorter) == kept + shorter[..k] && (k > 0 ==> !IsSpace(shorter[k - 1]));
      assert shorter[..k] == tail[..k];
    } else {
      assert tail == tail[..|tail|];
    }
  }
}
