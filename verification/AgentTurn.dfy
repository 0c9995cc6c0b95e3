/**
 One assistant message with tool calls: which calls are refused before anything runs, how the
 remaining ones interleave, when the once-per-session lock closes, and how the answers are put
 back in call order.
 */
module AgentTurn {
  import opened Text
  import opened ToolNames

  const DEPLOY := "deploy_position"
  const ONCE_PER_SESSION: set<string> := {"deploy_position", "swap_token", "close_position"}
  const NO_RETRY: set<string> := {"deploy_position"}

  /** The arguments parse (perhaps after repair), cannot be repaired, or are absent. */
  datatype Args = Fine | Unrepairable | Missing

  datatype ToolCall = ToolCall(id: string, name: string, args: Args)

  /** What a tool execution returned; an exception counts as neither blocked nor successful. */
  datatype ToolResult = ToolResult(blocked: bool, success: bool)

  datatype Refusal = DuplicateInMessage | InvalidArguments | AlreadyAttempted

  datatype Phase =
    | Refused(why: Refusal)
    | Cleared
    | Running
    | Answered(result: ToolResult)
    | Settled(result: ToolResult)

  datatype Event = Began(tool: string) | Ended(tool: string, blocked: bool)

  // ---------- Which calls may run ----------

  predicate IsDeploy(call: ToolCall) {
    Clean(call.name) == DEPLOY
  }

  /** A deploy call that follows another one in the same message. */
  predicate IsLaterDeploy(calls: seq<ToolCall>, i: nat)
    requires i < |calls|
  {
    IsDeploy(calls[i]) && exists j :: 0 <= j < i && IsDeploy(calls[j])
  }

  function DuplicateIds(calls: seq<ToolCall>): set<string> {
    set i | 0 <= i < |calls| && IsLaterDeploy(calls, i) :: calls[i].id
  }

  function UnrepairableIds(calls: seq<ToolCall>): set<string> {
    set i | 0 <= i < |calls| && calls[i].args.Unrepairable? :: calls[i].id
  }

  function Opening(calls: seq<ToolCall>, fired: set<string>, i: nat): Phase
    requires i < |calls|
  {
    var name := Clean(calls[i].name);
    if calls[i].id in DuplicateIds(calls) then Refused(DuplicateInMessage)
    else if calls[i].id in UnrepairableIds(calls) || calls[i].args.Missing? then Refused(InvalidArguments)
    else if name in ONCE_PER_SESSION && name in fired then Refused(AlreadyAttempted)
    else Cleared
  }

  // ---------- Interleaved execution ----------

  datatype Turn = Turn(calls: seq<ToolCall>, phases: seq<Phase>, fired: set<string>, log: seq<Event>)

  function Open(calls: seq<ToolCall>, fired: set<string>, log: seq<Event>): Turn {
    Turn(calls, seq(|calls|, i requires 0 <= i < |calls| => Opening(calls, fired, i)), fired, log)
  }

  datatype Step = Begin(i: nat) | End(i: nat, result: ToolResult) | Commit(i: nat)

  predicate Enabled(t: Turn, s: Step) {
    && s.i < |t.phases| == |t.calls|
    && match s
       case Begin(i) => t.phases[i].Cleared?
       case End(i, _) => t.phases[i].Running?
       case Commit(i) => t.phases[i].Answered?
  }

  /** The lock: a deploy that got past its safety checks, any other listed tool that succeeded. */
  predicate Locks(name: string, r: ToolResult) {
    if name in NO_RETRY then !r.blocked else name in ONCE_PER_SESSION && r.success
  }

  function Take(t: Turn, s: Step): Turn
    requires Enabled(t, s)
  {
    var tool := Executed(t.calls[s.i].name);
    match s
    case Begin(i) => t.(phases := t.phases[i := Running], log := t.log + [Began(tool)])
    case End(i, r) => t.(phases := t.phases[i := Answered(r)], log := t.log + [Ended(tool, r.blocked)])
    case Commit(i) =>
      var name := Clean(t.calls[i].name);
      var r := t.phases[i].result;
      t.(phases := t.phases[i := Settled(r)], fired := if Locks(name, r) then t.fired + {name} else t.fired)
  }

  /** A step that is not enabled cannot happen; it leaves the turn as it is. */
  function Play(t: Turn, steps: seq<Step>): Turn
    decreases |steps|
  {
    if steps == [] then t
    else Play(if Enabled(t, steps[0]) then Take(t, steps[0]) else t, steps[1..])
  }

  predicate Complete(t: Turn) {
    forall i :: 0 <= i < |t.phases| ==> t.phases[i].Refused? || t.phases[i].Settled?
  }

  /** Distance to completion: three steps for a cleared call, none for a finished one. */
  function StepsLeft(phases: seq<Phase>): nat {
    if phases == [] then 0
    else PhaseSteps(phases[0]) + StepsLeft(phases[1..])
  }

  function PhaseSteps(p: Phase): nat {
    match p
    case Cleared => 3
    case Running => 2
    case Answered(_) => 1
    case _ => 0
  }

  lemma {:induction false} StepsLeftAfter(phases: seq<Phase>, i: nat, p: Phase)
    requires i < |phases|
    ensures StepsLeft(phases[i := p]) == StepsLeft(phases) - PhaseSteps(phases[i]) + PhaseSteps(p)
  {
    if i == 0 {
      assert phases[i := p][1..] == phases[1..];
    } else {
      StepsLeftAfter(phases[1..], i - 1, p);
      assert phases[i := p][1..] == phases[1..][i - 1 := p];
    }
  }

  // ---------- At most one deploy goes through ----------

  predicate IsDeployEvent(e: Event) {
    e.tool == DEPLOY
  }

  predicate WentThrough(e: Event) {
    e == Ended(DEPLOY, false)
  }

  /** Nothing happens to a deploy after one of them ended without being blocked. */
  predicate DeployOnce(log: seq<Event>) {
    forall i, j :: 0 <= i < j < |log| && WentThrough(log[i]) ==> !IsDeployEvent(log[j])
  }

  predicate HasDeployed(log: seq<Event>) {
    exists i :: 0 <= i < |log| && WentThrough(log[i])
  }

  /** The loop's own clean-up already finds every name that the executor would run as a deploy. */
  predicate Recognised(raw: string) {
    Executed(raw) == DEPLOY ==> Clean(raw) == DEPLOY
  }

  predicate AllRecognised(calls: seq<ToolCall>) {
    forall i :: 0 <= i < |calls| ==> Recognised(calls[i].name)
  }

  /** A deploy call that has been started or may still be. */
  predicate DeployIn(t: Turn, i: nat) {
    i < |t.calls| == |t.phases| && IsDeploy(t.calls[i]) && !t.phases[i].Refused?
  }

  predicate MayEnd(p: Phase) {
    p.Cleared? || p.Running?
  }

  /** Before, during and after a turn: a deploy that went through is, or is about to be, locked. */
  ghost predicate Guarded(t: Turn) {
    && |t.phases| == |t.calls|
    && AllRecognised(t.calls)
    && DeployOnce(t.log)
    && (forall i: nat, j: nat :: DeployIn(t, i) && DeployIn(t, j) ==> i == j)
    && (HasDeployed(t.log) ==>
          && (forall i: nat :: DeployIn(t, i) ==> !MayEnd(t.phases[i]))
          && (DEPLOY in t.fired || exists i: nat :: DeployIn(t, i) && t.phases[i].Answered? && !t.phases[i].result.blocked))
  }

  lemma OnlyTheFirstDeployIsCleared(calls: seq<ToolCall>, fired: set<string>, log: seq<Event>, i: nat)
    requires DeployIn(Open(calls, fired, log), i)
    ensures DEPLOY !in fired && forall j :: 0 <= j < i ==> !IsDeploy(calls[j])
  {
    assert calls[i].id !in DuplicateIds(calls);
    assert !IsLaterDeploy(calls, i);
  }

  lemma OpenIsGuarded(calls: seq<ToolCall>, fired: set<string>, log: seq<Event>)
    requires AllRecognised(calls) && DeployOnce(log) && (HasDeployed(log) ==> DEPLOY in fired)
    ensures Guarded(Open(calls, fired, log))
  {
    forall i: nat | DeployIn(Open(calls, fired, log), i)
      ensures DEPLOY !in fired && forall j :: 0 <= j < i ==> !IsDeploy(calls[j])
    {
      OnlyTheFirstDeployIsCleared(calls, fired, log, i);
    }
  }

  lemma LogGrows(log: seq<Event>, e: Event)
    requires DeployOnce(log) && (IsDeployEvent(e) ==> !HasDeployed(log))
    ensures DeployOnce(log + [e])
    ensures HasDeployed(log + [e]) <==> HasDeployed(log) || WentThrough(e)
  {
    assert (log + [e])[|log|] == e;
    forall i | 0 <= i < |log| ensures (log + [e])[i] == log[i] {}
  }

  lemma BeginKeepsGuard(t: Turn, i: nat)
    requires Guarded(t) && Enabled(t, Begin(i))
    ensures Guarded(Take(t, Begin(i)))
  {
    var u := Take(t, Begin(i));
    LogGrows(t.log, Began(Executed(t.calls[i].name)));
    forall k: nat ensures DeployIn(u, k) == DeployIn(t, k) {}
    if HasDeployed(u.log) && DEPLOY !in u.fired {
      var k: nat :| DeployIn(t, k) && t.phases[k].Answered? && !t.phases[k].result.blocked;
      assert DeployIn(u, k) && u.phases[k] == t.phases[k];
    }
  }

  lemma EndKeepsGuard(t: Turn, i: nat, r: ToolResult)
    requires Guarded(t) && Enabled(t, End(i, r))
    ensures Guarded(Take(t, End(i, r)))
  {
    var u := Take(t, End(i, r));
    var e := Ended(Executed(t.calls[i].name), r.blocked);
    LogGrows(t.log, e);
    forall k: nat ensures DeployIn(u, k) == DeployIn(t, k) {}
    if WentThrough(e) {
      assert DeployIn(u, i) && u.phases[i].Answered?;
    } else if HasDeployed(u.log) && DEPLOY !in u.fired {
      var k: nat :| DeployIn(t, k) && t.phases[k].Answered? && !t.phases[k].result.blocked;
      assert DeployIn(u, k) && u.phases[k] == t.phases[k];
    }
  }

  lemma CommitKeepsGuard(t: Turn, i: nat)
    requires Guarded(t) && Enabled(t, Commit(i))
    ensures Guarded(Take(t, Commit(i)))
  {
    var u := Take(t, Commit(i));
    forall k: nat ensures DeployIn(u, k) == DeployIn(t, k) {}
    if HasDeployed(u.log) && DEPLOY !in u.fired {
      var k: nat :| DeployIn(t, k) && t.phases[k].Answered? && !t.phases[k].result.blocked;
      assert k != i;
      assert DeployIn(u, k) && u.phases[k] == t.phases[k];
    }
  }

  lemma TakeKeepsGuard(t: Turn, s: Step)
    requires Guarded(t) && Enabled(t, s)
    ensures Guarded(Take(t, s))
  {
    match s
    case Begin(i) => BeginKeepsGuard(t, i);
    case End(i, r) => EndKeepsGuard(t, i, r);
    case Commit(i) => CommitKeepsGuard(t, i);
  }

  lemma {:induction false} PlayKeepsGuard(t: Turn, steps: seq<Step>)
    requires Guarded(t)
    ensures Guarded(Play(t, steps)) && Play(t, steps).calls == t.calls
    decreases |steps|
  {
    if steps != [] {
      if Enabled(t, steps[0]) {
        TakeKeepsGuard(t, steps[0]);
        PlayKeepsGuard(Take(t, steps[0]), steps[1..]);
      } else {
        PlayKeepsGuard(t, steps[1..]);
      }
    }
  }

  /** Once every call of the message has its answer, a deploy that went through is locked. */
  lemma CompleteTurnIsLocked(t: Turn)
    requires Guarded(t) && Complete(t)
    ensures DeployOnce(t.log) && (HasDeployed(t.log) ==> DEPLOY in t.fired)
  {
  }

  // ---------- Sessions ----------

  /** A message's calls and the order in which the tools began, ended and were booked. */
  datatype Message = Message(calls: seq<ToolCall>, steps: seq<Step>)

  function Session(messages: seq<Message>, fired: set<string>, log: seq<Event>): Turn {
    if messages == [] then Turn([], [], fired, log)
    else
      var t := Play(Open(messages[0].calls, fired, log), messages[0].steps);
      if |messages| == 1 then t else Session(messages[1..], t.fired, t.log)
  }

  /** The next message is only asked for when every call of this one has its answer. */
  predicate Sequential(messages: seq<Message>, fired: set<string>, log: seq<Event>) {
    |messages| > 1 ==>
      var t := Play(Open(messages[0].calls, fired, log), messages[0].steps);
      Complete(t) && Sequential(messages[1..], t.fired, t.log)
  }

  predicate NamesRecognised(messages: seq<Message>) {
    forall k :: 0 <= k < |messages| ==> AllRecognised(messages[k].calls)
  }

  lemma {:induction false} SessionKeepsGuard(messages: seq<Message>, fired: set<string>, log: seq<Event>)
    requires NamesRecognised(messages) && Sequential(messages, fired, log)
    requires DeployOnce(log) && (HasDeployed(log) ==> DEPLOY in fired)
    ensures DeployOnce(Session(messages, fired, log).log)
    decreases |messages|
  {
    if messages != [] {
      var started := Open(messages[0].calls, fired, log);
      OpenIsGuarded(messages[0].calls, fired, log);
      PlayKeepsGuard(started, messages[0].steps);
      if |messages| > 1 {
        var t := Play(started, messages[0].steps);
        CompleteTurnIsLocked(t);
        SessionKeepsGuard(messages[1..], t.fired, t.log);
      }
    }
  }

  // ---------- A locked tool stays out ----------

  /** The loop's clean-up finds every spelling of the tool that the executor would run. */
  predicate SpelledPlainly(calls: seq<ToolCall>, tool: string) {
    forall i :: 0 <= i < |calls| && Executed(calls[i].name) == tool ==> Clean(calls[i].name) == tool
  }

  /** The log only grew, and not by events of the tool. */
  predicate WithoutMore(log: seq<Event>, later: seq<Event>, tool: string) {
    log <= later && forall j :: |log| <= j < |later| ==> later[j].tool != tool
  }

  /** Every call that would run the tool is refused. */
  predicate IsOut(t: Turn, tool: string) {
    && |t.phases| == |t.calls| && tool in t.fired
    && forall i :: 0 <= i < |t.calls| && Executed(t.calls[i].name) == tool ==> t.phases[i].Refused?
  }

  lemma {:induction false} PlayKeepsOut(t: Turn, steps: seq<Step>, tool: string)
    requires IsOut(t, tool)
    ensures IsOut(Play(t, steps), tool) && WithoutMore(t.log, Play(t, steps).log, tool)
    decreases |steps|
  {
    if steps != [] {
      if Enabled(t, steps[0]) {
        var u := Take(t, steps[0]);
        PlayKeepsOut(u, steps[1..], tool);
        assert u.log[..|t.log|] == t.log;
      } else {
        PlayKeepsOut(t, steps[1..], tool);
      }
    }
  }

  /** Once a listed tool is locked, no later message of the session starts or ends it. */
  lemma {:induction false} LockedToolStaysOut(messages: seq<Message>, fired: set<string>, log: seq<Event>, tool: string)
    requires tool in ONCE_PER_SESSION && tool in fired
    requires forall k :: 0 <= k < |messages| ==> SpelledPlainly(messages[k].calls, tool)
    ensures tool in Session(messages, fired, log).fired && WithoutMore(log, Session(messages, fired, log).log, tool)
    decreases |messages|
  {
    if messages != [] {
      var started := Open(messages[0].calls, fired, log);
      PlayKeepsOut(started, messages[0].steps, tool);
      if |messages| > 1 {
        var t := Play(started, messages[0].steps);
        LockedToolStaysOut(messages[1..], t.fired, t.log, tool);
      }
    }
  }

  /** What has been booked is locked: a deploy that was not blocked, a swap or close that succeeded. */
  predicate BookedAreLocked(t: Turn) {
    |t.phases| == |t.calls| &&
    forall i :: 0 <= i < |t.calls| && t.phases[i].Settled? && Locks(Clean(t.calls[i].name), t.phases[i].result) ==>
      Clean(t.calls[i].name) in t.fired
  }

  lemma {:induction false} PlayLocksBooked(t: Turn, steps: seq<Step>)
    requires BookedAreLocked(t)
    ensures BookedAreLocked(Play(t, steps)) && Play(t, steps).calls == t.calls
    decreases |steps|
  {
    if steps != [] {
      PlayLocksBooked(if Enabled(t, steps[0]) then Take(t, steps[0]) else t, steps[1..]);
    }
  }

  lemma {:induction false} NothingIsBookedAtFirst(calls: seq<ToolCall>, fired: set<string>, log: seq<Event>)
    ensures BookedAreLocked(Open(calls, fired, log))
  {
  }

  /** Call `i` of the message succeeded, or was a deploy that was not blocked, and has been booked. */
  predicate IsBooked(t: Turn, i: nat) {
    i < |t.calls| && i < |t.phases| && t.phases[i].Settled? && Locks(Clean(t.calls[i].name), t.phases[i].result)
  }

  /** In whatever order the calls of a message ran, a swap or close that succeeded in it is never started again by a later one. */
  lemma {:induction false} SuccessIsNotRepeated(
    calls: seq<ToolCall>, fired: set<string>, log: seq<Event>, steps: seq<Step>, later: seq<Message>, i: nat)
    requires i < |calls| && IsBooked(Play(Open(calls, fired, log), steps), i)
    requires forall k :: 0 <= k < |later| ==> SpelledPlainly(later[k].calls, Clean(calls[i].name))
    ensures var t := Play(Open(calls, fired, log), steps);
            WithoutMore(t.log, Session(later, t.fired, t.log).log, Clean(calls[i].name))
  {
    var t := Play(Open(calls, fired, log), steps);
    NothingIsBookedAtFirst(calls, fired, log);
    PlayLocksBooked(Open(calls, fired, log), steps);
    LockedToolStaysOut(later, t.fired, t.log, Clean(calls[i].name));
  }

  /** Every call in the session carries this name. */
  predicate OnlyName(messages: seq<Message>, raw: string) {
    forall k, i :: 0 <= k < |messages| && 0 <= i < |messages[k].calls| ==> messages[k].calls[i].name == raw
  }

  /** No session that writes its tool name this way deploys again after a deploy went through. */
  ghost predicate DeploysOnceAs(raw: string) {
    forall messages: seq<Message> ::
      OnlyName(messages, raw) && Sequential(messages, {}, []) ==> DeployOnce(Session(messages, {}, []).log)
  }

  /** A message with one call that runs, fails and is booked. */
  function FailedAttempt(raw: string): Message {
    Message([ToolCall("a", raw, Fine)], [Begin(0), End(0, ToolResult(false, false)), Commit(0)])
  }

  lemma FailedAttemptRuns(raw: string, log: seq<Event>)
    requires Clean(raw) != DEPLOY
    ensures var t := Play(Open(FailedAttempt(raw).calls, {}, log), FailedAttempt(raw).steps);
            Complete(t) && t.fired == {} && t.log == log + [Began(Executed(raw)), Ended(Executed(raw), false)]
  {
    var calls := FailedAttempt(raw).calls;
    var steps := FailedAttempt(raw).steps;
    var r := ToolResult(false, false);
    assert !IsLaterDeploy(calls, 0);
    var t0 := Open(calls, {}, log);
    assert t0.phases == [Cleared];
    var t1 := Take(t0, steps[0]);
    assert t1.phases == [Running];
    var t2 := Take(t1, steps[1]);
    assert t2.phases == [Answered(r)];
    var t3 := Take(t2, steps[2]);
    assert t3.phases == [Settled(r)];
    assert steps[1..][0] == steps[1] && steps[1..][1..][0] == steps[2] && steps[1..][1..][1..] == [];
    assert Play(t0, steps) == Play(t1, steps[1..]) == Play(t2, steps[1..][1..]) == Play(t3, []);
    assert t3.log == log + [Began(Executed(raw)), Ended(Executed(raw), false)];
  }

  lemma UnrecognisedNameDeploysTwice(raw: string)
    requires !Recognised(raw)
    ensures !DeploysOnceAs(raw)
  {
    var messages := [FailedAttempt(raw), FailedAttempt(raw)];
    var first := [Began(DEPLOY), Ended(DEPLOY, false)];
    FailedAttemptRuns(raw, []);
    FailedAttemptRuns(raw, first);
    assert [] + first == first;
    assert messages[1..] == [FailedAttempt(raw)];
    assert OnlyName(messages, raw);
    assert Sequential(messages[1..], {}, first);
    assert Sequential(messages, {}, []);
    var log := Session(messages, {}, []).log;
    assert log == Session(messages[1..], {}, first).log;
    assert log == first + first;
    assert WentThrough(log[1]) && IsDeployEvent(log[2]);
  }

  /** The once-per-session rule holds for a way of writing a tool name exactly when it is recognised. */
  lemma DeploysOnceIff(raw: string)
    ensures DeploysOnceAs(raw) <==> Recognised(raw)
  {
    if Recognised(raw) {
      forall messages: seq<Message> | OnlyName(messages, raw) && Sequential(messages, {}, [])
        ensures DeployOnce(Session(messages, {}, []).log)
      {
        SessionKeepsGuard(messages, {}, []);
      }
    } else {
      UnrecognisedNameDeploysTwice(raw);
    }
  }

  /** For every session over recognised names, however the tools interleave. */
  lemma AtMostOneDeployGoesThrough(messages: seq<Message>)
    requires NamesRecognised(messages) && Sequential(messages, {}, [])
    ensures DeployOnce(Session(messages, {}, []).log)
  {
    SessionKeepsGuard(messages, {}, []);
  }

  /** Names without a line break are always recognised. */
  lemma OneLineNamesDeployOnce(raw: string)
    requires NoLineBreak(raw)
    ensures Recognised(raw) && DeploysOnceAs(raw)
  {
    OneLineNamesAreCleanedOnce(raw);
    DeploysOnceIff(raw);
  }

  /** Two decorations on two lines hide a deploy from the loop but not from the executor. */
  lemma TwoLineDecorationIsNotRecognised(first: string, second: string)
    requires NoLineBreak(first) && NoLineBreak(second)
    ensures var raw := DEPLOY + ("<" + first + "\n") + ("<" + second); !Recognised(raw) && !DeploysOnceAs(raw)
  {
    var tool, raw := DEPLOY, DEPLOY + ("<" + first + "\n") + ("<" + second);
    TwoLineDecorationsNeedTwoPasses(tool, first, second);
    DeploysOnceIff(raw);
  }
}
