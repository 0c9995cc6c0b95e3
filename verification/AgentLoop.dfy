/**
 The reasoning loop around the turns: provider retries and downgrades, the message history that
 every request carries, rejected answers, and the bound on model calls.
 */
module AgentLoop {
  import opened ToolNames
  import opened AgentTurn
  import opened TurnTheorems

  // ---------- The message history ----------

  datatype Payload = Denied(why: Refusal) | Returned(result: ToolResult)

  datatype Entry =
    | SystemNote
    | UserNote
    | Assistant(calls: seq<ToolCall>)
    | ToolReply(id: string, payload: Payload)

  /** The entries answer exactly these calls, one each and in call order. */
  predicate Answers(calls: seq<ToolCall>, entries: seq<Entry>) {
    |entries| == |calls| && forall k :: 0 <= k < |calls| ==> entries[k].ToolReply? && entries[k].id == calls[k].id
  }

  /** What the provider accepts: every assistant message with calls is answered at once and in full. */
  predicate WellFormed(history: seq<Entry>)
    decreases |history|
  {
    history == [] ||
    match history[0]
    case ToolReply(_, _) => false
    case Assistant(calls) =>
      |calls| < |history| && Answers(calls, history[1..1 + |calls|]) && WellFormed(history[1 + |calls|..])
    case _ => WellFormed(history[1..])
  }

  lemma {:induction false} WellFormedAppend(a: seq<Entry>, b: seq<Entry>)
    requires WellFormed(a) && WellFormed(b)
    ensures WellFormed(a + b)
    decreases |a|
  {
    if a == [] {
      assert a + b == b;
    } else {
      var n := if a[0].Assistant? then 1 + |a[0].calls| else 1;
      assert (a + b)[1..n] == a[1..n];
      assert (a + b)[n..] == a[n..] + b;
      WellFormedAppend(a[n..], b);
    }
  }

  lemma AnsweredCallsAreWellFormed(calls: seq<ToolCall>, results: seq<Entry>)
    requires Answers(calls, results)
    ensures WellFormed([Assistant(calls)] + results)
  {
    var turn := [Assistant(calls)] + results;
    assert turn[1..1 + |calls|] == results;
    assert turn[1 + |calls|..] == [];
  }

  lemma TurnIsWellFormed(history: seq<Entry>, calls: seq<ToolCall>, results: seq<Entry>)
    requires WellFormed(history) && Answers(calls, results)
    ensures WellFormed(history + [Assistant(calls)] + results)
  {
    AnsweredCallsAreWellFormed(calls, results);
    WellFormedAppend(history, [Assistant(calls)] + results);
    assert history + [Assistant(calls)] + results == history + ([Assistant(calls)] + results);
  }

  lemma NoteIsWellFormed(history: seq<Entry>, note: Entry)
    requires WellFormed(history) && (note.SystemNote? || note.UserNote?)
    ensures WellFormed(history + [note])
  {
    assert [note][1..] == [];
    WellFormedAppend(history, [note]);
  }

  // ---------- Answers in call order ----------

  function PayloadOf(p: Phase): Payload
    requires p.Refused? || p.Settled?
  {
    match p
    case Refused(why) => Denied(why)
    case Settled(r) => Returned(r)
  }

  predicate DistinctIds(calls: seq<ToolCall>) {
    forall i, j :: 0 <= i < j < |calls| ==> calls[i].id != calls[j].id
  }

  /** Each answer carries the outcome of its own call. */
  predicate Carries(results: seq<Entry>, phases: seq<Phase>)
    requires AllDone(phases)
  {
    && |results| == |phases|
    && forall k :: 0 <= k < |phases| ==> results[k].ToolReply? && results[k].payload == PayloadOf(phases[k])
  }

  predicate AllDone(phases: seq<Phase>) {
    forall i :: 0 <= i < |phases| ==> phases[i].Refused? || phases[i].Settled?
  }

  /** The call is refused for the first reason there is, or else began, ended and returned its result. */
  ghost predicate IsRightPayload(p: Payload, calls: seq<ToolCall>, fired: set<string>, i: nat, log: seq<Event>, from: nat)
    requires i < |calls|
  {
    && (p == Denied(DuplicateInMessage) <==> FollowsDeploy(calls, i))
    && (p == Denied(InvalidArguments) <==> !FollowsDeploy(calls, i) && CannotBeRead(calls, i))
    && (p == Denied(AlreadyAttempted) <==>
          !FollowsDeploy(calls, i) && !CannotBeRead(calls, i) && IsLocked(Clean(calls[i].name), fired))
    && (MayRun(calls, fired, i) ==> p.Returned? && RanSince(log, from, Executed(calls[i].name), p.result.blocked))
  }

  /** Every answer is the right one for its call, given the tools locked before and what the log gained. */
  ghost predicate AnsweredRightly(calls: seq<ToolCall>, results: seq<Entry>, fired: set<string>, log: seq<Event>, from: nat) {
    && |results| == |calls|
    && forall i :: 0 <= i < |calls| ==> results[i].ToolReply? && IsRightPayload(results[i].payload, calls, fired, i, log, from)
  }

  lemma CarriedAnswersAreRight(calls: seq<ToolCall>, results: seq<Entry>, phases: seq<Phase>, fired: set<string>, log: seq<Event>, from: nat)
    requires |phases| == |calls| && AllDone(phases) && Carries(results, phases)
    requires forall i :: 0 <= i < |calls| ==> IsRightAnswer(phases[i], calls, fired, i, log, from)
    ensures AnsweredRightly(calls, results, fired, log, from)
  {
    forall i | 0 <= i < |calls| ensures IsRightPayload(results[i].payload, calls, fired, i, log, from) {
      assert IsRightAnswer(phases[i], calls, fired, i, log, from);
    }
  }

  function DuplicatesBefore(calls: seq<ToolCall>, n: nat): set<string>
    requires n <= |calls|
  {
    set j | 0 <= j < n && IsLaterDeploy(calls, j) :: calls[j].id
  }

  lemma NextDuplicate(calls: seq<ToolCall>, n: nat)
    requires n < |calls|
    ensures DuplicatesBefore(calls, n + 1) == DuplicatesBefore(calls, n) + if IsLaterDeploy(calls, n) then {calls[n].id} else {}
  {
  }

  /** The ids of the deploy calls that another one precedes in the message. */
  method FindDuplicates(calls: seq<ToolCall>) returns (ids: set<string>)
    ensures ids == DuplicateIds(calls)
  {
    var seen := false;
    ids := {};
    for i := 0 to |calls|
      invariant seen <==> exists j :: 0 <= j < i && IsDeploy(calls[j])
      invariant ids == DuplicatesBefore(calls, i)
    {
      NextDuplicate(calls, i);
      if IsDeploy(calls[i]) {
        if seen { ids := ids + {calls[i].id}; }
        seen := true;
      }
    }
  }

  /** The answers come back in the order of the calls, whichever order the tools finished in. */
  method OrderAnswers(calls: seq<ToolCall>, blocked: set<string>, phases: seq<Phase>) returns (results: seq<Entry>)
    requires |phases| == |calls| && AllDone(phases)
    requires forall k :: 0 <= k < |calls| && calls[k].id in blocked ==> phases[k] == Refused(DuplicateInMessage)
    ensures Answers(calls, results)
    ensures DistinctIds(calls) ==> Carries(results, phases)
    ensures forall k :: 0 <= k < |calls| && calls[k].id in blocked ==> results[k].payload == Denied(DuplicateInMessage)
  {
    var byId: map<string, Entry> := map[];
    for i := 0 to |calls|
      invariant forall k :: 0 <= k < i && calls[k].id !in blocked ==> calls[k].id in byId
      invariant forall id :: id in byId ==> byId[id].ToolReply? && byId[id].id == id
      invariant DistinctIds(calls) ==> forall k :: 0 <= k < i && calls[k].id !in blocked ==> byId[calls[k].id].payload == PayloadOf(phases[k])
    {
      if calls[i].id !in blocked {
        byId := byId[calls[i].id := ToolReply(calls[i].id, PayloadOf(phases[i]))];
      }
    }
    results := [];
    for i := 0 to |calls|
      invariant |results| == i
      invariant forall k :: 0 <= k < i ==> results[k].ToolReply? && results[k].id == calls[k].id
      invariant DistinctIds(calls) ==> forall k :: 0 <= k < i ==> results[k].payload == PayloadOf(phases[k])
      invariant forall k :: 0 <= k < i && calls[k].id in blocked ==> results[k].payload == Denied(DuplicateInMessage)
    {
      var id := calls[i].id;
      results := results + [if id in blocked then ToolReply(id, Denied(DuplicateInMessage)) else byId[id]];
    }
  }

  lemma {:induction false} PlayAppends(t: Turn, steps: seq<Step>, s: Step)
    ensures var u := Play(t, steps); Play(t, steps + [s]) == if Enabled(u, s) then Take(u, s) else u
    decreases |steps|
  {
    if steps == [] {
      assert [] + [s] == [s] && [s][1..] == [];
    } else {
      assert (steps + [s])[0] == steps[0] && (steps + [s])[1..] == steps[1..] + [s];
      PlayAppends(if Enabled(t, steps[0]) then Take(t, steps[0]) else t, steps[1..], s);
    }
  }

  lemma TakeNeedsFewerSteps(t: Turn, s: Step)
    requires Enabled(t, s)
    ensures |Take(t, s).phases| == |t.phases| && StepsLeft(Take(t, s).phases) == StepsLeft(t.phases) - 1
  {
    StepsLeftAfter(t.phases, s.i, Take(t, s).phases[s.i]);
  }

  /** A refused call stays refused while the others run. */
  lemma {:induction false} PlayKeepsRefusals(t: Turn, steps: seq<Step>)
    ensures |Play(t, steps).phases| == |t.phases|
    ensures forall i :: 0 <= i < |t.phases| && t.phases[i].Refused? ==> Play(t, steps).phases[i] == t.phases[i]
    decreases |steps|
  {
    if steps != [] {
      PlayKeepsRefusals(if Enabled(t, steps[0]) then Take(t, steps[0]) else t, steps[1..]);
    }
  }

  // ---------- Requests and replies ----------

  datatype Mode = SystemMode | EmbeddedMode

  datatype Choice = Required | Auto

  /** What the provider is sent besides the choice: the history, how instructions travel, and whether a choice is left out. */
  datatype Context = Context(history: seq<Entry>, mode: Mode, omitChoice: bool)

  datatype Request = Request(context: Context, wanted: Choice, step: nat)

  datatype Reply =
    | Thrown(systemRole: bool, choiceRequired: bool, thinking: bool, rateLimited: bool)
    | NoChoices(code: int)
    | Spoke(hasContent: bool, calls: seq<ToolCall>)

  datatype Outcome = Final | ToolRequired | MaxSteps | Failed

  datatype Next = Continue | Stop(outcome: Outcome)

  function Base(mode: Mode, session: seq<Entry>): seq<Entry> {
    match mode
    case SystemMode => [SystemNote] + session + [UserNote]
    case EmbeddedMode => session + [UserNote]
  }

  function Initial(session: seq<Entry>): Context {
    Context(Base(SystemMode, session), SystemMode, false)
  }

  function Reminder(mode: Mode): Entry {
    if mode.SystemMode? then SystemNote else UserNote
  }

  /** The context after an error: at most one feature is given up, and only one still in use. */
  function AfterError(r: Request, systemRole: bool, choiceRequired: bool, thinking: bool, session: seq<Entry>): Context {
    var c := r.context;
    if c.mode.SystemMode? && systemRole then c.(mode := EmbeddedMode, history := Base(EmbeddedMode, session))
    else if r.wanted.Required? && choiceRequired then c
    else if !c.omitChoice && thinking then c.(omitChoice := true)
    else c
  }

  /** The context that a request and its reply lead to, when the loop goes on. */
  ghost predicate Follows(r: Request, reply: Reply, c: Context, session: seq<Entry>) {
    match reply
    case Spoke(hasContent, calls) =>
      if calls != [] then exists results :: Answers(calls, results) && c == Extended(r.context, [Assistant(calls)] + results)
      else c == Extended(r.context, if hasContent then [Reminder(r.context.mode)] else [])
    case Thrown(systemRole, choiceRequired, thinking, _) => c == AfterError(r, systemRole, choiceRequired, thinking, session)
    case NoChoices(_) => c == r.context
  }

  function Extended(c: Context, more: seq<Entry>): Context {
    c.(history := c.history + more)
  }

  /** The context that the replies so far lead to. */
  ghost predicate IsCurrent(requests: seq<Request>, c: Context, session: seq<Entry>, chat: nat -> Reply) {
    if requests == [] then c == Initial(session)
    else Follows(requests[|requests| - 1], chat(|requests| - 1), c, session)
  }

  /** Every request carries exactly what the replies before it led to, and demands a tool only in the first step. */
  ghost predicate Linked(requests: seq<Request>, session: seq<Entry>, chat: nat -> Reply) {
    requests == [] ||
    var n := |requests| - 1;
    && Linked(requests[..n], session, chat)
    && IsCurrent(requests[..n], requests[n].context, session, chat)
    && (requests[n].wanted.Required? ==> requests[n].step == 0)
  }

  lemma LinkGrows(requests: seq<Request>, r: Request, session: seq<Entry>, chat: nat -> Reply)
    requires Linked(requests, session, chat) && IsCurrent(requests, r.context, session, chat)
    requires r.wanted.Required? ==> r.step == 0
    ensures Linked(requests + [r], session, chat)
  {
    assert (requests + [r])[..|requests|] == requests;
  }

  /** A reply that is no message leads to what was given up because of it. */
  lemma ErrorLeadsOn(requests: seq<Request>, c: Context, session: seq<Entry>, chat: nat -> Reply)
    requires requests != []
    requires var r, reply := requests[|requests| - 1], chat(|requests| - 1);
             match reply
             case Spoke(_, _) => false
             case NoChoices(_) => c == r.context
             case Thrown(systemRole, choiceRequired, thinking, _) => c == AfterError(r, systemRole, choiceRequired, thinking, session)
    ensures IsCurrent(requests, c, session, chat)
  {
  }

  // ---------- Linked requests are valid ----------

  /** What the run itself adds: turns and reminders, never an answer it rejected. */
  predicate Added(mode: Mode, e: Entry) {
    !(e.Assistant? && e.calls == []) && (e.SystemNote? ==> mode.SystemMode?) && (e.UserNote? ==> mode.EmbeddedMode?)
  }

  /** A history the provider accepts, that starts with the instructions and the session. */
  predicate IsGood(c: Context, session: seq<Entry>) {
    && WellFormed(c.history)
    && Base(c.mode, session) <= c.history
    && forall i :: |Base(c.mode, session)| <= i < |c.history| ==> Added(c.mode, c.history[i])
  }

  /** The instructions, if they may be a message of their own, the session and the goal come first. */
  predicate StartsWith(history: seq<Entry>, mode: Mode, session: seq<Entry>) {
    var n := if mode.SystemMode? then 1 else 0;
    && |history| > n + |session| && (mode.SystemMode? ==> history[0] == SystemNote)
    && history[n..n + |session|] == session && history[n + |session|] == UserNote
  }

  lemma GoodStartsWith(c: Context, session: seq<Entry>)
    requires IsGood(c, session)
    ensures StartsWith(c.history, c.mode, session)
  {
    var n := if c.mode.SystemMode? then 1 else 0;
    var base := Base(c.mode, session);
    assert base[n..n + |session|] == session && base[n + |session|] == UserNote;
    assert c.history[..|base|] == base;
    assert c.history[n..n + |session|] == base[n..n + |session|];
  }

  lemma BaseIsWellFormed(mode: Mode, session: seq<Entry>)
    requires WellFormed(session)
    ensures WellFormed(Base(mode, session))
  {
    NoteIsWellFormed(session, UserNote);
    if mode.SystemMode? {
      assert [SystemNote] + session + [UserNote] == [SystemNote] + (session + [UserNote]);
      NoteBeforeIsWellFormed(SystemNote, session + [UserNote]);
    }
  }

  lemma NoteBeforeIsWellFormed(note: Entry, history: seq<Entry>)
    requires WellFormed(history) && (note.SystemNote? || note.UserNote?)
    ensures WellFormed([note] + history)
  {
    assert ([note] + history)[1..] == history;
  }

  lemma BaseIsGood(mode: Mode, session: seq<Entry>, omitChoice: bool)
    requires WellFormed(session)
    ensures IsGood(Context(Base(mode, session), mode, omitChoice), session)
  {
    BaseIsWellFormed(mode, session);
  }

  lemma ExtendedIsGood(c: Context, more: seq<Entry>, session: seq<Entry>)
    requires IsGood(c, session) && WellFormed(c.history + more) && forall i :: 0 <= i < |more| ==> Added(c.mode, more[i])
    ensures IsGood(Extended(c, more), session)
  {
  }

  lemma TurnIsGood(c: Context, calls: seq<ToolCall>, results: seq<Entry>, session: seq<Entry>)
    requires IsGood(c, session) && calls != [] && Answers(calls, results)
    ensures IsGood(Extended(c, [Assistant(calls)] + results), session)
  {
    TurnIsWellFormed(c.history, calls, results);
    assert c.history + [Assistant(calls)] + results == c.history + ([Assistant(calls)] + results);
    ExtendedIsGood(c, [Assistant(calls)] + results, session);
  }

  lemma FollowingIsGood(r: Request, reply: Reply, c: Context, session: seq<Entry>)
    requires WellFormed(session) && IsGood(r.context, session) && Follows(r, reply, c, session)
    ensures IsGood(c, session)
  {
    match reply
    case Spoke(hasContent, calls) =>
      if calls != [] {
        var results :| Answers(calls, results) && c == Extended(r.context, [Assistant(calls)] + results);
        TurnIsGood(r.context, calls, results, session);
      } else if hasContent {
        NoteIsWellFormed(r.context.history, Reminder(r.context.mode));
        ExtendedIsGood(r.context, [Reminder(r.context.mode)], session);
      } else {
        assert r.context.history + [] == r.context.history;
      }
    case Thrown(_, _, _, _) => BaseIsGood(EmbeddedMode, session, r.context.omitChoice);
    case NoChoices(_) =>
  }

  lemma {:induction false} CurrentIsGood(requests: seq<Request>, c: Context, session: seq<Entry>, chat: nat -> Reply)
    requires WellFormed(session) && Linked(requests, session, chat) && IsCurrent(requests, c, session, chat)
    ensures IsGood(c, session)
    decreases |requests|
  {
    if requests == [] {
      BaseIsGood(SystemMode, session, false);
    } else {
      var n := |requests| - 1;
      CurrentIsGood(requests[..n], requests[n].context, session, chat);
      FollowingIsGood(requests[n], chat(n), c, session);
    }
  }

  predicate RejectsSystem(r: Reply) {
    r.Thrown? && r.systemRole
  }

  predicate RejectsThinking(r: Reply) {
    r.Thrown? && r.thinking && !r.systemRole && !r.choiceRequired
  }

  /** What the provider rejected so far has been given up. */
  ghost predicate GaveUpBy(n: nat, c: Context, chat: nat -> Reply) {
    forall i: nat :: i < n ==> (RejectsSystem(chat(i)) ==> c.mode.EmbeddedMode?) && (RejectsThinking(chat(i)) ==> c.omitChoice)
  }

  lemma {:induction false} CurrentGaveUp(requests: seq<Request>, c: Context, session: seq<Entry>, chat: nat -> Reply)
    requires Linked(requests, session, chat) && IsCurrent(requests, c, session, chat)
    ensures GaveUpBy(|requests|, c, chat)
    decreases |requests|
  {
    if requests != [] {
      var n := |requests| - 1;
      CurrentGaveUp(requests[..n], requests[n].context, session, chat);
    }
  }

  /** Every request has a history the provider accepts, and repeats nothing it rejected before. */
  lemma {:induction false} RequestsAreValid(requests: seq<Request>, session: seq<Entry>, chat: nat -> Reply, k: nat)
    requires WellFormed(session) && Linked(requests, session, chat) && k < |requests|
    ensures IsGood(requests[k].context, session) && GaveUpBy(k, requests[k].context, chat)
    ensures StartsWith(requests[k].context.history, requests[k].context.mode, session)
    ensures requests[k].wanted.Required? ==> requests[k].step == 0
  {
    var n := |requests| - 1;
    if k == n {
      CurrentIsGood(requests[..n], requests[n].context, session, chat);
      CurrentGaveUp(requests[..n], requests[n].context, session, chat);
      GoodStartsWith(requests[n].context, session);
    } else {
      RequestsAreValid(requests[..n], session, chat, k);
    }
  }

  // ---------- What the loop may conclude ----------

  ghost predicate RepliesRecognised(chat: nat -> Reply) {
    forall k: nat :: chat(k).Spoke? ==> AllRecognised(chat(k).calls)
  }

  predicate CalledTool(r: Reply) {
    r.Spoke? && r.calls != []
  }

  predicate IsAnswer(r: Reply) {
    r.Spoke? && r.hasContent && r.calls == []
  }

  /** How many of the first replies were text without any tool call. */
  function AnswersAmong(chat: nat -> Reply, n: nat): nat {
    if n == 0 then 0 else AnswersAmong(chat, n - 1) + if IsAnswer(chat(n - 1)) then 1 else 0
  }

  /** No reply in this range reached the loop: they were errors or carried no choices. */
  predicate Silent(chat: nat -> Reply, from: nat, to: nat) {
    from >= to || (!chat(to - 1).Spoke? && Silent(chat, from, to - 1))
  }

  /** Some reply so far called a tool. */
  predicate UsedTool(chat: nat -> Reply, n: nat) {
    n > 0 && (CalledTool(chat(n - 1)) || UsedTool(chat, n - 1))
  }

  lemma {:induction false} SilentRepliesAddNothing(chat: nat -> Reply, n: nat, m: nat)
    requires n <= m && Silent(chat, n, m)
    ensures AnswersAmong(chat, m) == AnswersAmong(chat, n) && UsedTool(chat, m) == UsedTool(chat, n)
  {
    if n < m {
      SilentRepliesAddNothing(chat, n, m - 1);
    }
  }

  /** Of the replies to one step only the last one counts. */
  lemma OnlyLastReplyCounts(chat: nat -> Reply, n: nat, m: nat)
    requires n < m && Silent(chat, n, m - 1)
    ensures UsedTool(chat, m) <==> UsedTool(chat, n) || CalledTool(chat(m - 1))
    ensures AnswersAmong(chat, m) == AnswersAmong(chat, n) + if IsAnswer(chat(m - 1)) then 1 else 0
  {
    SilentRepliesAddNothing(chat, n, m - 1);
  }

  /** A tool was used exactly when some reply called one. */
  /** One of the first replies called a tool. */
  ghost predicate SomeCalledTool(chat: nat -> Reply, n: nat) {
    exists k: nat :: k < n && CalledTool(chat(k))
  }

  lemma {:induction false} UsedToolMeans(chat: nat -> Reply, n: nat)
    ensures UsedTool(chat, n) <==> SomeCalledTool(chat, n)
  {
    if n > 0 {
      UsedToolMeans(chat, n - 1);
    }
  }

  function Spared(c: Choice): nat {
    if c.Required? then 0 else 1
  }

  function Transient(): set<int> {
    {502, 503, 529}
  }

  /** A reply after which the model is asked again at once: a passing failure, or a feature rejected. */
  predicate MayBeRetried(r: Reply) {
    (r.NoChoices? && IsPassing(r.code)) || (r.Thrown? && (r.systemRole || r.choiceRequired || r.thinking))
  }

  predicate IsPassing(code: int) {
    code == 502 || code == 503 || code == 529
  }

  /** Every reply in this range may be retried. */
  predicate AllRetried(chat: nat -> Reply, from: nat, to: nat) {
    from >= to || (MayBeRetried(chat(to - 1)) && AllRetried(chat, from, to - 1))
  }

  // ---------- What was executed ----------

  /** The calls of one message ran in some order, and their events and locks were added. */
  ghost predicate Ran(calls: seq<ToolCall>, fired: set<string>, log: seq<Event>, firedAfter: set<string>, logAfter: seq<Event>) {
    exists phases, steps ::
      AllDone(phases) && Turn(calls, phases, firedAfter, logAfter) == Play(Open(calls, fired, log), steps)
  }

  /** The tools that the first replies called ran, message by message, and nothing else did. */
  ghost predicate RanAll(chat: nat -> Reply, n: nat, fired: set<string>, log: seq<Event>) {
    if n == 0 then fired == {} && log == []
    else if CalledTool(chat(n - 1)) then
      var calls := chat(n - 1).calls;
      exists f: set<string>, l: seq<Event> :: Ran(calls, f, l, fired, log) && RanAll(chat, n - 1, f, l)
    else RanAll(chat, n - 1, fired, log)
  }

  lemma {:induction false} SilentRepliesRunNothing(chat: nat -> Reply, n: nat, m: nat, fired: set<string>, log: seq<Event>)
    requires n <= m && Silent(chat, n, m)
    ensures RanAll(chat, m, fired, log) <==> RanAll(chat, n, fired, log)
  {
    if n < m {
      SilentRepliesRunNothing(chat, n, m - 1, fired, log);
    }
  }

  /** Over a whole run, after a deploy that was not blocked ended, no deploy starts or ends. */
  lemma {:induction false} RunsDeployOnce(chat: nat -> Reply, n: nat, fired: set<string>, log: seq<Event>)
    requires RepliesRecognised(chat) && RanAll(chat, n, fired, log)
    ensures DeployOnce(log) && (HasDeployed(log) ==> DEPLOY in fired)
  {
    if n > 0 {
      if CalledTool(chat(n - 1)) {
        var calls := chat(n - 1).calls;
        var f: set<string>, l: seq<Event> :| Ran(calls, f, l, fired, log) && RanAll(chat, n - 1, f, l);
        RunsDeployOnce(chat, n - 1, f, l);
        var phases, steps :| AllDone(phases) && Turn(calls, phases, fired, log) == Play(Open(calls, f, l), steps);
        TurnKeepsLock(calls, f, l, steps);
      } else {
        RunsDeployOnce(chat, n - 1, fired, log);
      }
    }
  }

  lemma TurnKeepsLock(calls: seq<ToolCall>, fired: set<string>, log: seq<Event>, steps: seq<Step>)
    requires AllRecognised(calls) && DeployOnce(log) && (HasDeployed(log) ==> DEPLOY in fired)
    requires Complete(Play(Open(calls, fired, log), steps))
    ensures var t := Play(Open(calls, fired, log), steps); DeployOnce(t.log) && (HasDeployed(t.log) ==> DEPLOY in t.fired)
  {
    OpenIsGuarded(calls, fired, log);
    PlayKeepsGuard(Open(calls, fired, log), steps);
    CompleteTurnIsLocked(Play(Open(calls, fired, log), steps));
  }

  /** The variables that live as long as one run of the loop. */
  class AgentRun {
    var messages: seq<Entry>
    var fired: set<string>
    var mode: Mode
    var omitToolChoice: bool
    var requests: seq<Request>
    ghost var log: seq<Event>

    function Current(): Context
      reads this`messages, this`mode, this`omitToolChoice
    {
      Context(messages, mode, omitToolChoice)
    }

    /** The requests are linked, and the variables are what the replies led to. */
    ghost predicate InStep(session: seq<Entry>, chat: nat -> Reply)
      reads this`requests, this`messages, this`mode, this`omitToolChoice
    {
      Linked(requests, session, chat) && IsCurrent(requests, Current(), session, chat)
    }

    /** The last reply has not been taken in yet. */
    ghost predicate Unheard(session: seq<Entry>, chat: nat -> Reply)
      reads this`requests, this`messages, this`mode, this`omitToolChoice
    {
      Linked(requests, session, chat) && requests != [] && Current() == requests[|requests| - 1].context
    }

    /** The tools that the replies called have run. */
    ghost predicate Done(chat: nat -> Reply, n: nat)
      reads this`log, this`fired
    {
      RanAll(chat, n, fired, log)
    }

    constructor (session: seq<Entry>, chat: nat -> Reply)
      ensures InStep(session, chat) && Done(chat, 0)
      ensures Current() == Initial(session) && requests == [] && log == []
    {
      messages, mode, omitToolChoice := Base(SystemMode, session), SystemMode, false;
      fired, requests, log := {}, [], [];
    }

    /** One call moves on: its tool starts, its tool ends, or its result is booked. */
    method Advance(calls: seq<ToolCall>, phases: seq<Phase>, i: nat) returns (next: seq<Phase>, ghost s: Step)
      requires i < |phases| == |calls| && PhaseSteps(phases[i]) > 0
      modifies this`fired, this`log
      ensures Enabled(Turn(calls, phases, old(fired), old(log)), s)
      ensures Turn(calls, next, fired, log) == Take(Turn(calls, phases, old(fired), old(log)), s)
      ensures s.i == i
    {
      var name, tool := Clean(calls[i].name), Executed(calls[i].name);
      match phases[i]
      case Cleared =>
        next, s, log := phases[i := Running], Begin(i), log + [Began(tool)];
      case Running =>
        var r: ToolResult := *;
        next, s, log := phases[i := Answered(r)], End(i, r), log + [Ended(tool, r.blocked)];
      case Answered(r) =>
        next, s := phases[i := Settled(r)], Commit(i);
        if Locks(name, r) { fired := fired + {name}; }
    }

    /** Starts the calls that may run; tools begin, end and are booked in any order. */
    method RunCalls(calls: seq<ToolCall>) returns (phases: seq<Phase>, ghost steps: seq<Step>)
      modifies this`fired, this`log
      ensures Turn(calls, phases, fired, log) == Play(Open(calls, old(fired), old(log)), steps)
      ensures Complete(Turn(calls, phases, fired, log))
    {
      phases := Open(calls, fired, []).phases;
      steps := [];
      ghost var start := Open(calls, fired, log);
      while exists i :: 0 <= i < |phases| && PhaseSteps(phases[i]) > 0
        invariant |phases| == |calls|
        invariant Turn(calls, phases, fired, log) == Play(start, steps)
        decreases StepsLeft(phases)
      {
        var i :| 0 <= i < |phases| && PhaseSteps(phases[i]) > 0;
        ghost var before := Turn(calls, phases, fired, log);
        ghost var s;
        phases, s := Advance(calls, phases, i);
        PlayAppends(start, steps, s);
        TakeNeedsFewerSteps(before, s);
        steps := steps + [s];
      }
    }

    /** Runs the calls of a message and lines their answers up with them. */
    method RunTurn(calls: seq<ToolCall>) returns (results: seq<Entry>, ghost phases: seq<Phase>, ghost steps: seq<Step>)
      modifies this`fired, this`log
      ensures Turn(calls, phases, fired, log) == Play(Open(calls, old(fired), old(log)), steps) && AllDone(phases)
      ensures Answers(calls, results)
      ensures DistinctIds(calls) ==> Carries(results, phases) && AnsweredRightly(calls, results, old(fired), log, |old(log)|)
      ensures forall name :: name in fired <==> name in old(fired) || BookedIn(Turn(calls, phases, fired, log), name)
    {
      var blocked := FindDuplicates(calls);
      ghost var firedBefore, logBefore := fired, log;
      var outcomes;
      outcomes, steps := RunCalls(calls);
      phases := outcomes;
      PlayKeepsRefusals(Open(calls, firedBefore, logBefore), steps);
      EveryCallIsAnsweredRightly(calls, firedBefore, logBefore, steps);
      results := OrderAnswers(calls, blocked, outcomes);
      if DistinctIds(calls) { CarriedAnswersAreRight(calls, results, phases, firedBefore, log, |logBefore|); }
    }

    /** Provider features given up so far; each is given up at most once. */
    function Downgrades(): nat
      reads this`mode, this`omitToolChoice
    {
      (if mode.EmbeddedMode? then 1 else 0) + (if omitToolChoice then 1 else 0)
    }

    /** Sends the history as it stands. */
    method Send(step: nat, toolChoice: Choice, session: seq<Entry>, chat: nat -> Reply) returns (reply: Reply)
      requires InStep(session, chat) && (toolChoice.Required? ==> step == 0)
      modifies this`requests
      ensures requests == old(requests) + [Request(Current(), toolChoice, step)]
      ensures Unheard(session, chat) && reply == chat(|old(requests)|)
    {
      reply := chat(|requests|);
      LinkGrows(requests, Request(Current(), toolChoice, step), session, chat);
      requests := requests + [Request(Current(), toolChoice, step)];
    }

    /** After an error: gives up one feature that the provider rejected, if it was still in use. */
    method GiveUp(error: Reply, r: Request, session: seq<Entry>) returns (next: Choice, again: bool)
      requires error.Thrown? && Current() == r.context
      modifies this`messages, this`mode, this`omitToolChoice
      ensures Current() == AfterError(r, error.systemRole, error.choiceRequired, error.thinking, session)
      ensures next == r.wanted || next == Auto
      ensures Downgrades() + Spared(next) == old(Downgrades()) + Spared(r.wanted) + if again then 1 else 0
      ensures again ==> MayBeRetried(error)
    {
      next, again := r.wanted, true;
      if mode.SystemMode? && error.systemRole {
        mode, messages := EmbeddedMode, Base(EmbeddedMode, session);
      } else if r.wanted.Required? && error.choiceRequired {
        next := Auto;
      } else if !omitToolChoice && error.thinking {
        omitToolChoice := true;
      } else {
        again := false;
      }
    }

    /** One call of the provider, and what is given up because of its answer. */
    method Exchange(step: nat, toolChoice: Choice, session: seq<Entry>, chat: nat -> Reply)
      returns (reply: Reply, next: Choice, again: bool)
      requires InStep(session, chat) && (toolChoice.Required? ==> step == 0)
      modifies this`messages, this`mode, this`omitToolChoice, this`requests
      ensures if reply.Spoke? then Unheard(session, chat) else InStep(session, chat)
      ensures |requests| == |old(requests)| + 1 && reply == chat(|old(requests)|)
      ensures next == toolChoice || next == Auto
      ensures Downgrades() + Spared(next) == old(Downgrades()) + Spared(toolChoice) + if again then 1 else 0
      ensures again ==> reply.Thrown? && MayBeRetried(reply)
    {
      reply := Send(step, toolChoice, session, chat);
      ghost var sent := requests;
      next, again := toolChoice, false;
      if reply.Thrown? {
        next, again := GiveUp(reply, requests[|requests| - 1], session);
      }
      assert requests == sent;
      if !reply.Spoke? { ErrorLeadsOn(sent, Current(), session, chat); }
    }

    /** Asks the model, retrying transient failures and giving up what the provider rejects. */
    method AskModel(step: nat, choose: bool, session: seq<Entry>, chat: nat -> Reply) returns (reply: Reply, ghost dropped: nat)
      requires InStep(session, chat) && (choose ==> step == 0)
      modifies this`messages, this`mode, this`omitToolChoice, this`requests
      ensures if reply.Spoke? then Unheard(session, chat) else InStep(session, chat)
      ensures |old(requests)| < |requests| && reply == chat(|requests| - 1)
      ensures Silent(chat, |old(requests)|, |requests| - 1)
      ensures AllRetried(chat, |old(requests)|, |requests| - 1)
      ensures |requests| <= |old(requests)| + 3 + (Downgrades() - old(Downgrades())) + dropped
      ensures reply.NoChoices? && IsPassing(reply.code) ==>
                |requests| == |old(requests)| + 3 + (Downgrades() - old(Downgrades())) + dropped
      ensures dropped <= if choose then 1 else 0
    {
      var attempt, toolChoice := 0, if choose then Required else Auto;
      ghost var first, before := |requests|, Downgrades() + Spared(toolChoice);
      reply := NoChoices(0);
      while attempt < 3
        invariant InStep(session, chat) && 0 <= attempt <= 3
        invariant first <= |requests| && (attempt > 0 ==> first < |requests| && reply == chat(|requests| - 1))
        invariant Silent(chat, first, |requests|) && !reply.Spoke? && AllRetried(chat, first, |requests|)
        invariant |requests| == first + attempt + (Downgrades() + Spared(toolChoice) - before)
        invariant choose || toolChoice == Auto
        decreases 3 - Downgrades() - Spared(toolChoice), 3 - attempt
      {
        var again;
        reply, toolChoice, again := Exchange(step, toolChoice, session, chat);
        if again {
          attempt := attempt - 1;
        } else if reply.Thrown? || reply.Spoke? || reply.code !in Transient() {
          break;
        }
        attempt := attempt + 1;
      }
      dropped := Spared(toolChoice) - if choose then 0 else 1;
    }

    /** What the loop may conclude from the replies so far. */
    ghost predicate Justified(chat: nat -> Reply, mustUse: bool, outcome: Outcome)
      reads this`requests, this`messages
    {
      match outcome
      case Final =>
        && requests != [] && IsAnswer(chat(|requests| - 1)) && (mustUse ==> UsedTool(chat, |requests|))
        && messages == requests[|requests| - 1].context.history + [Assistant([])]
      case ToolRequired => mustUse && !UsedTool(chat, |requests|) && AnswersAmong(chat, |requests|) == 2
      case Failed => requests != [] && !chat(|requests| - 1).Spoke?
      case MaxSteps => true
    }

    /** Takes in a message of the model: runs its tools, accepts its answer or rejects it. */
    method Hear(hasContent: bool, calls: seq<ToolCall>, mustUse: bool, sawToolCall: bool, retries: nat,
                session: seq<Entry>, ghost chat: nat -> Reply)
      returns (saw: bool, tries: nat, next: Next)
      requires Unheard(session, chat) && chat(|requests| - 1) == Spoke(hasContent, calls)
      requires retries < 2
      requires (sawToolCall || calls != []) <==> UsedTool(chat, |requests|)
      requires mustUse && !sawToolCall ==> AnswersAmong(chat, |requests|) == retries + if calls == [] && hasContent then 1 else 0
      modifies this`messages, this`fired, this`log
      ensures next.Continue? ==> InStep(session, chat)
      ensures if calls != [] then Ran(calls, old(fired), old(log), fired, log) else fired == old(fired) && log == old(log)
      ensures saw == (sawToolCall || calls != []) && tries <= 2
      ensures next.Continue? ==> tries < 2 && (mustUse && !saw ==> tries == AnswersAmong(chat, |requests|))
      ensures next.Stop? ==> Justified(chat, mustUse, next.outcome)
    {
      saw, tries, next := sawToolCall || calls != [], retries, Continue;
      if calls != [] {
        var results, _, _ := RunTurn(calls);
        messages := messages + ([Assistant(calls)] + results);
      } else if !hasContent {
        assert messages + [] == messages;
      } else if mustUse && !sawToolCall {
        tries := retries + 1;
        if tries >= 2 {
          next := Stop(ToolRequired);
        } else {
          messages := messages + [Reminder(mode)];
        }
      } else {
        messages := messages + [Assistant([])];
        next := Stop(Final);
      }
    }

    /** What the loop remembers of the replies: whether a tool was called, and the answers it rejected. */
    ghost predicate Tracks(chat: nat -> Reply, mustUse: bool, sawToolCall: bool, retries: nat)
      reads this`requests
    {
      && (sawToolCall <==> UsedTool(chat, |requests|))
      && (mustUse && !sawToolCall ==> retries == AnswersAmong(chat, |requests|))
      && retries < 2
    }

    /** One step: a reply from the model, and what the loop does with it. */
    method TakeStep(step: nat, choose: bool, mustUse: bool, sawToolCall: bool, retries: nat,
                    session: seq<Entry>, chat: nat -> Reply)
      returns (saw: bool, tries: nat, next: Next, ghost dropped: nat)
      requires InStep(session, chat) && Done(chat, |requests|) && Tracks(chat, mustUse, sawToolCall, retries)
      requires choose ==> step == 0
      modifies this
      ensures Linked(requests, session, chat) && Done(chat, |requests|)
      ensures |requests| <= |old(requests)| + 3 + (Downgrades() - old(Downgrades())) + dropped
      ensures dropped <= if choose then 1 else 0
      ensures next.Continue? ==> InStep(session, chat) && Tracks(chat, mustUse, saw, tries)
      ensures next.Stop? ==> Justified(chat, mustUse, next.outcome)
    {
      saw, tries, next := sawToolCall, retries, Continue;
      ghost var before := |requests|;
      var reply;
      reply, dropped := AskModel(step, choose, session, chat);
      OnlyLastReplyCounts(chat, before, |requests|);
      SilentRepliesRunNothing(chat, before, |requests| - 1, fired, log);
      match reply
      case Thrown(_, _, _, rateLimited) =>
        if !rateLimited { next := Stop(Failed); }
      case NoChoices(_) =>
        next := Stop(Failed);
      case Spoke(hasContent, calls) =>
        saw, tries, next := Hear(hasContent, calls, mustUse, sawToolCall, retries, session, chat);
    }

    /** The loop: at most `maxSteps` steps, each asking the model once or more. */
    method Run(maxSteps: nat, session: seq<Entry>, actionIntent: bool, mustUse: bool, chat: nat -> Reply) returns (outcome: Outcome)
      requires InStep(session, chat) && Done(chat, 0) && requests == [] && Downgrades() == 0
      modifies this
      ensures Linked(requests, session, chat) && Done(chat, |requests|)
      ensures |requests| <= 3 * maxSteps + 3
      ensures RepliesRecognised(chat) ==> DeployOnce(log)
      ensures Justified(chat, mustUse, outcome)
      ensures outcome.Final? && mustUse ==> SomeCalledTool(chat, |requests|)
      ensures outcome.ToolRequired? ==> mustUse && !SomeCalledTool(chat, |requests|)
    {
      var sawToolCall := false;
      var noToolRetryCount: nat := 0;
      ghost var dropped: nat := 0;
      for step := 0 to maxSteps
        invariant InStep(session, chat) && Tracks(chat, mustUse, sawToolCall, noToolRetryCount)
        invariant Done(chat, |requests|)
        invariant |requests| <= 3 * step + Downgrades() + dropped
        invariant dropped <= if step == 0 then 0 else 1
      {
        var next;
        ghost var lost;
        var choose := step == 0 && (actionIntent || mustUse);
        sawToolCall, noToolRetryCount, next, lost := TakeStep(step, choose, mustUse, sawToolCall, noToolRetryCount, session, chat);
        dropped := dropped + lost;
        if next.Stop? {
          outcome := next.outcome;
          UsedToolMeans(chat, |requests|);
          if RepliesRecognised(chat) { RunsDeployOnce(chat, |requests|, fired, log); }
          return;
        }
      }
      outcome := MaxSteps;
      if RepliesRecognised(chat) { RunsDeployOnce(chat, |requests|, fired, log); }
    }
  }
}
