/**
 Which calls of a message are answered without running and why, what running the others leaves in the
 log, and which tools a session has locked, whatever the order in which the tools of a message ran.
 */
module TurnTheorems {
  import opened ToolNames
  import opened AgentTurn

  const LOCKABLE: set<string> := {"deploy_position", "swap_token", "close_position"}

  /** A deploy call, by its cleaned name, that follows another in the message, or has the id of one that does. */
  ghost predicate FollowsDeploy(calls: seq<ToolCall>, i: nat)
    requires i < |calls|
  {
    exists j, k :: 0 <= j < k < |calls| && calls[k].id == calls[i].id
                   && Clean(calls[j].name) == "deploy_position" && Clean(calls[k].name) == "deploy_position"
  }

  /** The arguments are absent, or a call with this id has arguments beyond repair. */
  ghost predicate CannotBeRead(calls: seq<ToolCall>, i: nat)
    requires i < |calls|
  {
    calls[i].args == Missing || exists j :: 0 <= j < |calls| && calls[j].id == calls[i].id && calls[j].args == Unrepairable
  }

  predicate IsLocked(name: string, fired: set<string>) {
    name in LOCKABLE && name in fired
  }

  /** The call runs: nothing is wrong with it and its tool is not locked. */
  ghost predicate MayRun(calls: seq<ToolCall>, fired: set<string>, i: nat)
    requires i < |calls|
  {
    !FollowsDeploy(calls, i) && !CannotBeRead(calls, i) && !IsLocked(Clean(calls[i].name), fired)
  }

  /** Nothing to run, or why not. */
  ghost predicate IsRightRefusal(p: Phase, calls: seq<ToolCall>, fired: set<string>, i: nat)
    requires i < |calls|
  {
    && (p == Refused(DuplicateInMessage) <==> FollowsDeploy(calls, i))
    && (p == Refused(InvalidArguments) <==> !FollowsDeploy(calls, i) && CannotBeRead(calls, i))
    && (p == Refused(AlreadyAttempted) <==>
          !FollowsDeploy(calls, i) && !CannotBeRead(calls, i) && IsLocked(Clean(calls[i].name), fired))
    && (p.Refused? <==> !MayRun(calls, fired, i))
  }

  lemma DuplicateIdIff(calls: seq<ToolCall>, i: nat)
    requires i < |calls|
    ensures calls[i].id in DuplicateIds(calls) <==> FollowsDeploy(calls, i)
  {
    if calls[i].id in DuplicateIds(calls) {
      var k :| 0 <= k < |calls| && IsLaterDeploy(calls, k) && calls[k].id == calls[i].id;
      var j :| 0 <= j < k && IsDeploy(calls[j]);
    }
    if FollowsDeploy(calls, i) {
      var j, k :| 0 <= j < k < |calls| && calls[k].id == calls[i].id
                  && Clean(calls[j].name) == "deploy_position" && Clean(calls[k].name) == "deploy_position";
      assert IsDeploy(calls[j]) && IsLaterDeploy(calls, k);
    }
  }

  lemma OpensRightly(calls: seq<ToolCall>, fired: set<string>, i: nat)
    requires i < |calls|
    ensures IsRightRefusal(Opening(calls, fired, i), calls, fired, i)
    ensures !Opening(calls, fired, i).Refused? ==> Opening(calls, fired, i) == Cleared
  {
    DuplicateIdIff(calls, i);
  }

  // ---------- What running a call leaves in the log ----------

  ghost predicate BeganSince(log: seq<Event>, from: nat, tool: string) {
    exists p: nat :: from <= p < |log| && log[p] == Began(tool)
  }

  /** The tool began and, later, ended with this result. */
  ghost predicate RanSince(log: seq<Event>, from: nat, tool: string, blocked: bool) {
    exists p: nat, q: nat :: from <= p < q < |log| && log[p] == Began(tool) && log[q] == Ended(tool, blocked)
  }

  /** The log since `from` shows how far the call has come. */
  ghost predicate LogShows(p: Phase, log: seq<Event>, from: nat, tool: string) {
    match p
    case Refused(_) => true
    case Cleared => true
    case Running => BeganSince(log, from, tool)
    case Answered(r) => RanSince(log, from, tool, r.blocked)
    case Settled(r) => RanSince(log, from, tool, r.blocked)
  }

  lemma LogStillShows(p: Phase, log: seq<Event>, more: seq<Event>, from: nat, tool: string)
    requires LogShows(p, log, from, tool)
    ensures LogShows(p, log + more, from, tool)
  {
    match p
    case Running =>
      var q: nat :| from <= q < |log| && log[q] == Began(tool);
      assert (log + more)[q] == Began(tool);
    case Answered(r) => StillRan(log, more, from, tool, r.blocked);
    case Settled(r) => StillRan(log, more, from, tool, r.blocked);
    case _ =>
  }

  lemma StillRan(log: seq<Event>, more: seq<Event>, from: nat, tool: string, blocked: bool)
    requires RanSince(log, from, tool, blocked)
    ensures RanSince(log + more, from, tool, blocked)
  {
    var p: nat, q: nat :| from <= p < q < |log| && log[p] == Began(tool) && log[q] == Ended(tool, blocked);
    assert (log + more)[p] == Began(tool) && (log + more)[q] == Ended(tool, blocked);
  }

  /** Which calls were booked: a deploy that was not blocked, a swap or close that succeeded. */
  predicate Books(call: ToolCall, p: Phase, name: string) {
    && p.Settled? && Clean(call.name) == name
    && (if name == "deploy_position" then !p.result.blocked
        else name in {"swap_token", "close_position"} && p.result.success)
  }

  ghost predicate BookedIn(t: Turn, name: string) {
    exists i :: 0 <= i < |t.calls| && i < |t.phases| && Books(t.calls[i], t.phases[i], name)
  }

  lemma LockingIsBooking(call: ToolCall, r: ToolResult)
    ensures Locks(Clean(call.name), r) <==> Books(call, Settled(r), Clean(call.name))
  {
  }

  /** How a turn that began with these locks and this log stands. */
  ghost predicate IsFair(t: Turn, fired: set<string>, from: nat) {
    && |t.phases| == |t.calls| && from <= |t.log|
    && (forall i :: 0 <= i < |t.calls| ==> IsRightRefusal(t.phases[i], t.calls, fired, i))
    && (forall i :: 0 <= i < |t.calls| ==> LogShows(t.phases[i], t.log, from, Executed(t.calls[i].name)))
    && (forall name :: name in t.fired <==> name in fired || BookedIn(t, name))
  }

  lemma OpenIsFair(calls: seq<ToolCall>, fired: set<string>, log: seq<Event>)
    ensures IsFair(Open(calls, fired, log), fired, |log|)
  {
    forall i | 0 <= i < |calls|
      ensures IsRightRefusal(Opening(calls, fired, i), calls, fired, i) && !Opening(calls, fired, i).Settled?
      ensures LogShows(Opening(calls, fired, i), log, |log|, Executed(calls[i].name))
    {
      OpensRightly(calls, fired, i);
    }
  }

  /** The log after a step shows how far each call has come. */
  lemma StepIsLogged(t: Turn, s: Step, fired: set<string>, from: nat, i: nat)
    requires IsFair(t, fired, from) && Enabled(t, s) && i < |t.calls|
    ensures LogShows(Take(t, s).phases[i], Take(t, s).log, from, Executed(t.calls[i].name))
  {
    var tool := Executed(t.calls[s.i].name);
    LogStillShows(t.phases[i], t.log, [Began(tool)], from, Executed(t.calls[i].name));
    if s.Begin? {
      assert (t.log + [Began(tool)])[|t.log|] == Began(tool);
    } else if s.End? {
      LogStillShows(t.phases[i], t.log, [Ended(tool, s.result.blocked)], from, Executed(t.calls[i].name));
      if i == s.i { EndIsLogged(t.log, from, tool, s.result.blocked); }
    }
  }

  lemma EndIsLogged(log: seq<Event>, from: nat, tool: string, blocked: bool)
    requires BeganSince(log, from, tool)
    ensures RanSince(log + [Ended(tool, blocked)], from, tool, blocked)
  {
    var p: nat :| from <= p < |log| && log[p] == Began(tool);
    var after := log + [Ended(tool, blocked)];
    assert after[p] == Began(tool) && after[|log|] == Ended(tool, blocked);
  }

  /** A step leaves a call's phase alone, or moves it on from one that was no refusal to another. */
  lemma StepKeepsRefusal(t: Turn, s: Step, i: nat)
    requires |t.phases| == |t.calls| && Enabled(t, s) && i < |t.calls|
    ensures |Take(t, s).phases| == |t.phases|
    ensures var p, q := t.phases[i], Take(t, s).phases[i]; q == p || (!p.Refused? && !q.Refused?)
  {
  }

  lemma StillRightRefusal(p: Phase, q: Phase, calls: seq<ToolCall>, fired: set<string>, i: nat)
    requires i < |calls| && IsRightRefusal(p, calls, fired, i) && (q == p || (!p.Refused? && !q.Refused?))
    ensures IsRightRefusal(q, calls, fired, i)
  {
  }

  lemma StepRefusesRightly(t: Turn, s: Step, fired: set<string>, from: nat, i: nat)
    requires IsFair(t, fired, from) && Enabled(t, s) && i < |t.calls|
    ensures IsRightRefusal(Take(t, s).phases[i], t.calls, fired, i)
  {
    StepKeepsRefusal(t, s, i);
    StillRightRefusal(t.phases[i], Take(t, s).phases[i], t.calls, fired, i);
  }

  /** A step books at most its own call. */
  lemma StepBooks(t: Turn, s: Step, name: string)
    requires |t.phases| == |t.calls| && Enabled(t, s)
    ensures BookedIn(Take(t, s), name) <==> BookedIn(t, name) || Books(t.calls[s.i], Take(t, s).phases[s.i], name)
  {
    var u := Take(t, s);
    assert !t.phases[s.i].Settled?;
    forall i | 0 <= i < |t.calls| && i != s.i ensures Books(u.calls[i], u.phases[i], name) == Books(t.calls[i], t.phases[i], name) {}
    if BookedIn(t, name) {
      var i :| 0 <= i < |t.calls| && Books(t.calls[i], t.phases[i], name);
      assert Books(u.calls[i], u.phases[i], name);
    }
  }

  lemma StepLocks(t: Turn, s: Step, fired: set<string>, name: string)
    requires |t.phases| == |t.calls| && Enabled(t, s) && (name in t.fired <==> name in fired || BookedIn(t, name))
    ensures name in Take(t, s).fired <==> name in fired || BookedIn(Take(t, s), name)
  {
    StepBooks(t, s, name);
    if s.Commit? { LockingIsBooking(t.calls[s.i], t.phases[s.i].result); }
  }

  lemma StepIsFair(t: Turn, s: Step, fired: set<string>, from: nat)
    requires IsFair(t, fired, from) && Enabled(t, s)
    ensures IsFair(Take(t, s), fired, from)
  {
    var u := Take(t, s);
    forall i | 0 <= i < |u.calls|
      ensures IsRightRefusal(u.phases[i], u.calls, fired, i) && LogShows(u.phases[i], u.log, from, Executed(u.calls[i].name))
    {
      StepIsLogged(t, s, fired, from, i);
      StepRefusesRightly(t, s, fired, from, i);
    }
    forall name ensures name in u.fired <==> name in fired || BookedIn(u, name) {
      StepLocks(t, s, fired, name);
    }
  }

  lemma {:induction false} PlayIsFair(t: Turn, steps: seq<Step>, fired: set<string>, from: nat)
    requires IsFair(t, fired, from)
    ensures IsFair(Play(t, steps), fired, from) && Play(t, steps).calls == t.calls
    decreases |steps|
  {
    if steps != [] {
      if Enabled(t, steps[0]) {
        StepIsFair(t, steps[0], fired, from);
        PlayIsFair(Take(t, steps[0]), steps[1..], fired, from);
      } else {
        PlayIsFair(t, steps[1..], fired, from);
      }
    }
  }

  /** The answer of a call of a complete turn. */
  ghost predicate IsRightAnswer(p: Phase, calls: seq<ToolCall>, fired: set<string>, i: nat, log: seq<Event>, from: nat)
    requires i < |calls|
  {
    && IsRightRefusal(p, calls, fired, i)
    && (MayRun(calls, fired, i) ==> p.Settled? && RanSince(log, from, Executed(calls[i].name), p.result.blocked))
  }

  /**
   In whatever order the tools of a message run, once each call has its answer: a later deploy of the message
   is refused as a duplicate, one whose arguments cannot be read as invalid, and one of a locked tool as already
   attempted; every other call has begun and ended in the log and has the result of that. Locked afterwards are
   the tools locked before and those that the message booked.
   */
  lemma EveryCallIsAnsweredRightly(calls: seq<ToolCall>, fired: set<string>, log: seq<Event>, steps: seq<Step>)
    requires Complete(Play(Open(calls, fired, log), steps))
    ensures var t := Play(Open(calls, fired, log), steps);
            && t.calls == calls && |t.phases| == |calls|
            && (forall i :: 0 <= i < |calls| ==> IsRightAnswer(t.phases[i], calls, fired, i, t.log, |log|))
            && (forall name :: name in t.fired <==> name in fired || BookedIn(t, name))
  {
    OpenIsFair(calls, fired, log);
    PlayIsFair(Open(calls, fired, log), steps, fired, |log|);
    var t := Play(Open(calls, fired, log), steps);
    forall i | 0 <= i < |calls| ensures IsRightAnswer(t.phases[i], calls, fired, i, t.log, |log|) {
      assert t.phases[i].Refused? || t.phases[i].Settled?;
    }
  }

  // ---------- Over a whole session ----------

  /** Message `k` of a session, played after those before it. */
  function TurnAt(messages: seq<Message>, k: nat): Turn
    requires k < |messages|
  {
    var before := Session(messages[..k], {}, []);
    Play(Open(messages[k].calls, before.fired, before.log), messages[k].steps)
  }

  lemma {:induction false} SessionOfMore(messages: seq<Message>, k: nat, fired: set<string>, log: seq<Event>)
    requires k < |messages|
    ensures var before := Session(messages[..k], fired, log);
            Session(messages[..k + 1], fired, log) == Play(Open(messages[k].calls, before.fired, before.log), messages[k].steps)
  {
    if k > 0 {
      var t := Play(Open(messages[0].calls, fired, log), messages[0].steps);
      assert messages[..k][1..] == messages[1..][..k - 1];
      assert messages[..k + 1][1..] == messages[1..][..k];
      SessionOfMore(messages[1..], k - 1, t.fired, t.log);
    }
  }

  /** An earlier message of the session booked the tool. */
  ghost predicate WasBooked(messages: seq<Message>, k: nat, name: string)
    requires k <= |messages|
  {
    exists j: nat :: j < k && BookedIn(TurnAt(messages, j), name)
  }

  lemma {:induction false} LockedAreBooked(messages: seq<Message>, k: nat, name: string)
    requires k <= |messages|
    ensures name in Session(messages[..k], {}, []).fired <==> WasBooked(messages, k, name)
  {
    if k > 0 {
      var before := Session(messages[..k - 1], {}, []);
      LockedAreBooked(messages, k - 1, name);
      SessionOfMore(messages, k - 1, {}, []);
      OpenIsFair(messages[k - 1].calls, before.fired, before.log);
      PlayIsFair(Open(messages[k - 1].calls, before.fired, before.log), messages[k - 1].steps, before.fired, |before.log|);
      BookedLater(messages, k, name);
    }
  }

  lemma BookedLater(messages: seq<Message>, k: nat, name: string)
    requires 0 < k <= |messages|
    ensures WasBooked(messages, k, name) <==> WasBooked(messages, k - 1, name) || BookedIn(TurnAt(messages, k - 1), name)
  {
    if WasBooked(messages, k - 1, name) {
      var j: nat :| j < k - 1 && BookedIn(TurnAt(messages, j), name);
      assert j < k;
    }
  }

  /**
   Over a session, a call is refused as already attempted exactly when its cleaned name is one of the three
   tools, an earlier message booked that tool, and nothing else was wrong with the call. Every call with
   nothing wrong with it that is not locked in this way began and ended in its message, and has its result.
   */
  lemma AttemptedIff(messages: seq<Message>, k: nat, i: nat)
    requires k < |messages| && i < |messages[k].calls| && Complete(TurnAt(messages, k))
    ensures |TurnAt(messages, k).phases| == |messages[k].calls|
    ensures var calls, p, name := messages[k].calls, TurnAt(messages, k).phases[i], Clean(messages[k].calls[i].name);
            var locked := name in LOCKABLE && WasBooked(messages, k, name);
            && (p == Refused(AlreadyAttempted) <==> !FollowsDeploy(calls, i) && !CannotBeRead(calls, i) && locked)
            && (!FollowsDeploy(calls, i) && !CannotBeRead(calls, i) && !locked ==>
                  && p.Settled?
                  && RanSince(TurnAt(messages, k).log, |Session(messages[..k], {}, []).log|, Executed(calls[i].name), p.result.blocked))
  {
    var before := Session(messages[..k], {}, []);
    EveryCallIsAnsweredRightly(messages[k].calls, before.fired, before.log, messages[k].steps);
    LockedAreBooked(messages, k, Clean(messages[k].calls[i].name));
    assert IsRightAnswer(TurnAt(messages, k).phases[i], messages[k].calls, before.fired, i, TurnAt(messages, k).log, |before.log|);
  }
}
