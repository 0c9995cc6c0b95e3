/**
 The in-process async mutex: each `acquire` waits for the promise that the previous one left in
 `queue`, and that promise settles once the previous caller has released and everything before
 it has settled. Callbacks read shared state, compute, and write it back, with suspensions in
 between; a callback that throws releases without having written.
 */
module Mutex {
  datatype Stage<S> = Fresh | HasRead(value: S) | HasWritten

  datatype Phase<S> = Waiting | Holding(stage: Stage<S>) | Released

  /** One `runExclusive` call, in the order of the calls; `settled` is the promise it left in the queue. */
  datatype Caller<S> = Caller(phase: Phase<S>, settled: bool, wrote: bool)

  datatype State<S> = State(callers: seq<Caller<S>>, locked: bool, shared: S, started: seq<nat>)

  datatype Step = Acquire | Resume(k: nat) | Read(k: nat) | Write(k: nat) | Release(k: nat) | Settle(k: nat)

  function Initial<S>(shared: S): State<S> {
    State([], false, shared, [])
  }

  /** The promise that caller `k` awaits has settled. */
  predicate PreviousSettled<S>(callers: seq<Caller<S>>, k: nat)
    requires k < |callers|
  {
    k == 0 || callers[k - 1].settled
  }

  predicate Enabled<S>(st: State<S>, s: Step) {
    s.Acquire? ||
    (s.k < |st.callers| &&
     var c := st.callers[s.k];
     match s
     case Resume(k) => c.phase.Waiting? && PreviousSettled(st.callers, k)
     case Read(k) => c.phase.Holding? && c.phase.stage.Fresh?
     case Write(k) => c.phase.Holding? && c.phase.stage.HasRead?
     case Release(k) => c.phase.Holding?
     case Settle(k) => c.phase.Released? && !c.settled && PreviousSettled(st.callers, k)
     case Acquire => true)
  }

  function WithCaller<S>(st: State<S>, k: nat, c: Caller<S>): State<S>
    requires k < |st.callers|
  {
    st.(callers := st.callers[k := c])
  }

  /** `job(k, v)` is what the callback of caller `k` makes of the value it read. */
  function Take<S>(job: (nat, S) -> S, st: State<S>, s: Step): State<S>
    requires Enabled(st, s)
  {
    match s
    case Acquire => st.(callers := st.callers + [Caller(Waiting, false, false)])
    case Resume(k) => WithCaller(st, k, st.callers[k].(phase := Holding(Fresh))).(locked := true, started := st.started + [k])
    case Read(k) => WithCaller(st, k, st.callers[k].(phase := Holding(HasRead(st.shared))))
    case Write(k) =>
      WithCaller(st, k, st.callers[k].(phase := Holding(HasWritten), wrote := true)).(shared := job(k, st.callers[k].phase.stage.value))
    case Release(k) => WithCaller(st, k, st.callers[k].(phase := Released)).(locked := false)
    case Settle(k) => WithCaller(st, k, st.callers[k].(settled := true))
  }

  /** A run takes enabled steps in any order; a step that is not enabled does nothing. */
  function Run<S>(job: (nat, S) -> S, st: State<S>, steps: seq<Step>): State<S>
    decreases |steps|
  {
    if steps == [] then st
    else Run(job, if Enabled(st, steps[0]) then Take(job, st, steps[0]) else st, steps[1..])
  }

  // ---------- The queue ----------

  predicate IsHolding<S>(st: State<S>, k: nat) {
    k < |st.callers| && st.callers[k].phase.Holding?
  }

  /** A caller has been let in only after everyone before it released and settled. */
  ghost predicate Ordered<S>(st: State<S>) {
    && (forall j, k :: 0 <= j < k < |st.callers| && !st.callers[k].phase.Waiting? ==>
          st.callers[j].phase.Released? && st.callers[j].settled)
    && (forall j, k :: 0 <= j < k < |st.callers| && st.callers[k].settled ==> st.callers[j].settled)
    && (forall k :: 0 <= k < |st.callers| && st.callers[k].settled ==> st.callers[k].phase.Released?)
  }

  ghost predicate LockIsHeld<S>(st: State<S>) {
    st.locked <==> exists k: nat :: IsHolding(st, k)
  }

  /** Callers have started in the order of their `acquire` calls, each once. */
  predicate StartedInOrder<S>(st: State<S>) {
    && |st.started| <= |st.callers|
    && (forall i :: 0 <= i < |st.started| ==> st.started[i] == i)
    && (forall k :: 0 <= k < |st.callers| ==> (st.callers[k].phase.Waiting? <==> |st.started| <= k))
  }

  lemma TakeKeepsOrder<S>(job: (nat, S) -> S, st: State<S>, s: Step)
    requires Ordered(st) && Enabled(st, s)
    ensures Ordered(Take(job, st, s))
  {
  }

  lemma TakeKeepsLock<S>(job: (nat, S) -> S, st: State<S>, s: Step)
    requires Ordered(st) && LockIsHeld(st) && Enabled(st, s)
    ensures LockIsHeld(Take(job, st, s))
  {
    var u := Take(job, st, s);
    match s
    case Resume(k) => assert IsHolding(u, k);
    case Release(k) =>
    case _ => forall k: nat ensures IsHolding(u, k) == IsHolding(st, k) {}
  }

  lemma TakeKeepsStarts<S>(job: (nat, S) -> S, st: State<S>, s: Step)
    requires Ordered(st) && StartedInOrder(st) && Enabled(st, s)
    ensures StartedInOrder(Take(job, st, s))
  {
  }

  // ---------- The shared value ----------

  /** The writes of the callers that wrote, one after the other in the order of their `acquire` calls. */
  function Serial<S>(job: (nat, S) -> S, initial: S, callers: seq<Caller<S>>): S {
    if callers == [] then initial
    else
      var n := |callers| - 1;
      var before := Serial(job, initial, callers[..n]);
      if callers[n].wrote then job(n, before) else before
  }

  predicate ReadsAreCurrent<S(==)>(callers: seq<Caller<S>>, shared: S) {
    forall k :: 0 <= k < |callers| && callers[k].phase.Holding? && callers[k].phase.stage.HasRead? ==>
      callers[k].phase.stage.value == shared
  }

  ghost predicate WritersAreDone<S>(callers: seq<Caller<S>>) {
    forall k :: 0 <= k < |callers| && callers[k].wrote ==> callers[k].phase.Released? || callers[k].phase == Holding(HasWritten)
  }

  /** What a callback has read is still current, and no one who has not started has written. */
  ghost predicate Consistent<S>(job: (nat, S) -> S, initial: S, st: State<S>) {
    st.shared == Serial(job, initial, st.callers) && ReadsAreCurrent(st.callers, st.shared) && WritersAreDone(st.callers)
  }

  lemma {:induction false} SerialOfSameWrites<S>(job: (nat, S) -> S, initial: S, a: seq<Caller<S>>, b: seq<Caller<S>>)
    requires |a| == |b| && forall k :: 0 <= k < |a| ==> a[k].wrote == b[k].wrote
    ensures Serial(job, initial, a) == Serial(job, initial, b)
  {
    if a != [] {
      SerialOfSameWrites(job, initial, a[..|a| - 1], b[..|b| - 1]);
    }
  }

  lemma {:induction false} SerialStopsAt<S>(job: (nat, S) -> S, initial: S, callers: seq<Caller<S>>, n: nat)
    requires n <= |callers| && forall k :: n <= k < |callers| ==> !callers[k].wrote
    ensures Serial(job, initial, callers) == Serial(job, initial, callers[..n])
  {
    if n < |callers| {
      SerialStopsAt(job, initial, callers[..|callers| - 1], n);
      assert callers[..|callers| - 1][..n] == callers[..n];
    } else {
      assert callers[..n] == callers;
    }
  }

  /** The last of the writers so far writes. */
  lemma SerialWithWrite<S>(job: (nat, S) -> S, initial: S, callers: seq<Caller<S>>, k: nat, c: Caller<S>)
    requires k < |callers| && c.wrote && forall j :: k <= j < |callers| ==> !callers[j].wrote
    ensures Serial(job, initial, callers[k := c]) == job(k, Serial(job, initial, callers))
  {
    var after := callers[k := c];
    SerialStopsAt(job, initial, callers, k);
    SerialStopsAt(job, initial, after, k + 1);
    assert after[..k + 1][..k] == callers[..k];
  }

  /** While a caller holds the lock, neither it before its write nor any later one has written. */
  lemma NobodyAfterWrote<S>(st: State<S>, k: nat)
    requires Ordered(st) && WritersAreDone(st.callers) && Enabled(st, Write(k))
    ensures forall j :: k <= j < |st.callers| ==> !st.callers[j].wrote
  {
  }

  /** No one else holds the lock, so no read value grows stale. */
  lemma WriteKeepsReads<S>(job: (nat, S) -> S, st: State<S>, k: nat)
    requires Ordered(st) && WritersAreDone(st.callers) && Enabled(st, Write(k))
    ensures var u := Take(job, st, Write(k)); ReadsAreCurrent(u.callers, u.shared) && WritersAreDone(u.callers)
  {
    var u := Take(job, st, Write(k));
    forall j | 0 <= j < |u.callers| && j != k ensures !u.callers[j].phase.Holding? {
    }
  }

  lemma OtherStepsKeepReads<S>(job: (nat, S) -> S, st: State<S>, s: Step)
    requires ReadsAreCurrent(st.callers, st.shared) && WritersAreDone(st.callers) && Enabled(st, s) && !s.Write?
    ensures var u := Take(job, st, s); ReadsAreCurrent(u.callers, u.shared) && WritersAreDone(u.callers)
  {
  }

  lemma TakeKeepsConsistent<S>(job: (nat, S) -> S, initial: S, st: State<S>, s: Step)
    requires Ordered(st) && Consistent(job, initial, st) && Enabled(st, s)
    ensures Consistent(job, initial, Take(job, st, s))
  {
    var u := Take(job, st, s);
    match s
    case Write(k) =>
      NobodyAfterWrote(st, k);
      SerialWithWrite(job, initial, st.callers, k, u.callers[k]);
      WriteKeepsReads(job, st, k);
    case Acquire =>
      assert u.callers[..|st.callers|] == st.callers;
      OtherStepsKeepReads(job, st, s);
    case _ =>
      SerialOfSameWrites(job, initial, u.callers, st.callers);
      OtherStepsKeepReads(job, st, s);
  }

  // ---------- Every run ----------

  ghost predicate Sound<S>(job: (nat, S) -> S, initial: S, st: State<S>) {
    Ordered(st) && LockIsHeld(st) && StartedInOrder(st) && Consistent(job, initial, st)
  }

  lemma TakeKeepsSound<S>(job: (nat, S) -> S, initial: S, st: State<S>, s: Step)
    requires Sound(job, initial, st) && Enabled(st, s)
    ensures Sound(job, initial, Take(job, st, s))
  {
    TakeKeepsOrder(job, st, s);
    TakeKeepsLock(job, st, s);
    TakeKeepsStarts(job, st, s);
    TakeKeepsConsistent(job, initial, st, s);
  }

  lemma {:induction false} RunIsSound<S>(job: (nat, S) -> S, initial: S, st: State<S>, steps: seq<Step>)
    requires Sound(job, initial, st)
    ensures Sound(job, initial, Run(job, st, steps))
    decreases |steps|
  {
    if steps != [] {
      if Enabled(st, steps[0]) {
        TakeKeepsSound(job, initial, st, steps[0]);
        RunIsSound(job, initial, Take(job, st, steps[0]), steps[1..]);
      } else {
        RunIsSound(job, initial, st, steps[1..]);
      }
    }
  }

  /** In every run at most one callback is in progress, and the lock flag says whether one is. */
  lemma MutualExclusion<S>(job: (nat, S) -> S, initial: S, steps: seq<Step>)
    ensures var st := Run(job, Initial(initial), steps);
            && (forall j: nat, k: nat :: IsHolding(st, j) && IsHolding(st, k) ==> j == k)
            && (st.locked <==> exists k: nat :: IsHolding(st, k))
  {
    RunIsSound(job, initial, Initial(initial), steps);
  }

  /** Callbacks start in the order of the `acquire` calls, each after its predecessors have finished. */
  lemma FirstComeFirstServed<S>(job: (nat, S) -> S, initial: S, steps: seq<Step>)
    ensures var st := Run(job, Initial(initial), steps);
            && (forall i :: 0 <= i < |st.started| ==> st.started[i] == i)
            && (forall j, k :: 0 <= j < k < |st.callers| && !st.callers[k].phase.Waiting? ==> st.callers[j].phase.Released?)
  {
    RunIsSound(job, initial, Initial(initial), steps);
  }

  /** No update is lost: the shared value is the one that the writes produce when run one by one. */
  lemma NoLostUpdate<S>(job: (nat, S) -> S, initial: S, steps: seq<Step>)
    ensures var st := Run(job, Initial(initial), steps); st.shared == Serial(job, initial, st.callers)
  {
    RunIsSound(job, initial, Initial(initial), steps);
  }

  // ---------- Progress ----------

  /** What a caller still has to do: be let in, read, write, release, and let its promise settle. */
  function CallerWork<S>(c: Caller<S>): nat {
    (match c.phase
     case Waiting => 4
     case Holding(Fresh) => 3
     case Holding(HasRead(_)) => 2
     case Holding(HasWritten) => 1
     case Released => 0) + if c.settled then 0 else 1
  }

  function Work<S>(callers: seq<Caller<S>>): nat {
    if callers == [] then 0 else CallerWork(callers[0]) + Work(callers[1..])
  }

  lemma {:induction false} WorkAfter<S>(callers: seq<Caller<S>>, k: nat, c: Caller<S>)
    requires k < |callers|
    ensures Work(callers[k := c]) == Work(callers) - CallerWork(callers[k]) + CallerWork(c)
  {
    if k == 0 {
      assert callers[k := c][1..] == callers[1..];
    } else {
      WorkAfter(callers[1..], k - 1, c);
      assert callers[k := c][1..] == callers[1..][k - 1 := c];
    }
  }

  /** Every step but a new `acquire` brings the callers closer to the end. */
  lemma StepsMakeProgress<S>(job: (nat, S) -> S, st: State<S>, s: Step)
    requires Enabled(st, s) && !s.Acquire?
    ensures Work(Take(job, st, s).callers) < Work(st.callers)
  {
    WorkAfter(st.callers, s.k, Take(job, st, s).callers[s.k]);
  }

  predicate Finished<S>(st: State<S>) {
    forall k :: 0 <= k < |st.callers| ==> st.callers[k].phase.Released? && st.callers[k].settled
  }

  /** While someone is not finished, a step other than `acquire` is possible: there is no deadlock. */
  lemma NextStep<S>(st: State<S>) returns (s: Step)
    requires !Finished(st)
    ensures !s.Acquire? && Enabled(st, s)
  {
    var k := FirstUnfinished(st, 0);
    s := match st.callers[k].phase
         case Waiting => Resume(k)
         case Holding(_) => Release(k)
         case Released => Settle(k);
  }

  lemma FirstUnfinished<S>(st: State<S>, from: nat) returns (k: nat)
    requires !Finished(st) && from <= |st.callers|
    requires forall j :: 0 <= j < from ==> st.callers[j].phase.Released? && st.callers[j].settled
    ensures from <= k < |st.callers| && !(st.callers[k].phase.Released? && st.callers[k].settled)
    ensures forall j :: 0 <= j < k ==> st.callers[j].phase.Released? && st.callers[j].settled
    decreases |st.callers| - from
  {
    k := from;
    if st.callers[from].phase.Released? && st.callers[from].settled {
      k := FirstUnfinished(st, from + 1);
    }
  }

  /** From every state, the callers present can all finish, and without new ones nothing else can happen for ever. */
  lemma EveryoneFinishes<S>(job: (nat, S) -> S, st: State<S>) returns (steps: seq<Step>)
    ensures |steps| <= Work(st.callers) && (forall i :: 0 <= i < |steps| ==> !steps[i].Acquire?)
    ensures Finished(Run(job, st, steps))
    decreases Work(st.callers)
  {
    steps := [];
    if !Finished(st) {
      var s := NextStep(st);
      StepsMakeProgress(job, st, s);
      var rest := EveryoneFinishes(job, Take(job, st, s));
      steps := [s] + rest;
      assert steps[1..] == rest;
    }
  }

  // ---------- Progress under any schedule ----------

  /** What the first callers up to `k` still have to do. */
  function WorkUpTo<S>(callers: seq<Caller<S>>, k: nat): nat
    requires k < |callers|
  {
    Work(callers[..k + 1])
  }

  /** The step is one of the first callers up to `k`. */
  predicate IsOf(s: Step, k: nat) {
    !s.Acquire? && s.k <= k
  }

  predicate FinishedUpTo<S>(st: State<S>, k: nat)
    requires k < |st.callers|
  {
    forall j :: 0 <= j <= k ==> st.callers[j].phase.Released? && st.callers[j].settled
  }

  /** Only the steps of the first callers bring them on, and no other step sets them back. */
  lemma StepsOfOthersDoNotDelay<S>(job: (nat, S) -> S, st: State<S>, s: Step, k: nat)
    requires k < |st.callers| && Enabled(st, s)
    ensures var after := Take(job, st, s).callers;
            && |after| >= |st.callers|
            && if IsOf(s, k) then WorkUpTo(after, k) < WorkUpTo(st.callers, k) else WorkUpTo(after, k) == WorkUpTo(st.callers, k)
  {
    var after := Take(job, st, s).callers;
    if IsOf(s, k) {
      assert after[..k + 1] == st.callers[..k + 1][s.k := after[s.k]];
      WorkAfter(st.callers[..k + 1], s.k, after[s.k]);
    } else {
      assert after[..k + 1] == st.callers[..k + 1];
    }
  }

  lemma {:induction false} NoWorkIffFinished<S>(callers: seq<Caller<S>>)
    ensures Work(callers) == 0 <==> forall j :: 0 <= j < |callers| ==> callers[j].phase.Released? && callers[j].settled
  {
    if callers != [] {
      NoWorkIffFinished(callers[1..]);
      var c := callers[0];
      assert CallerWork(c) == 0 <==> c.phase.Released? && c.settled;
      assert forall j :: 0 < j < |callers| ==> callers[j] == callers[1..][j - 1];
      assert forall j :: 0 <= j < |callers| - 1 ==> callers[1..][j] == callers[j + 1];
    }
  }

  /** How many steps of a schedule are taken by the first callers up to `k`. */
  function StepsTakenBy<S>(job: (nat, S) -> S, st: State<S>, steps: seq<Step>, k: nat): nat
    decreases |steps|
  {
    if steps == [] then 0
    else if Enabled(st, steps[0]) then
      (if IsOf(steps[0], k) then 1 else 0) + StepsTakenBy(job, Take(job, st, steps[0]), steps[1..], k)
    else StepsTakenBy(job, st, steps[1..], k)
  }

  lemma {:induction false} ScheduleUsesWork<S>(job: (nat, S) -> S, st: State<S>, steps: seq<Step>, k: nat)
    requires k < |st.callers|
    ensures k < |Run(job, st, steps).callers|
    ensures WorkUpTo(Run(job, st, steps).callers, k) + StepsTakenBy(job, st, steps, k) <= WorkUpTo(st.callers, k)
    decreases |steps|
  {
    if steps != [] {
      if Enabled(st, steps[0]) {
        StepsOfOthersDoNotDelay(job, st, steps[0], k);
        ScheduleUsesWork(job, Take(job, st, steps[0]), steps[1..], k);
      } else {
        ScheduleUsesWork(job, st, steps[1..], k);
      }
    }
  }

  /** While one of the first callers is not finished, one of them can take a step. */
  lemma OneOfThemCanStep<S>(st: State<S>, k: nat) returns (s: Step)
    requires k < |st.callers| && !FinishedUpTo(st, k)
    ensures IsOf(s, k) && Enabled(st, s)
  {
    var j := FirstUnfinished(st, 0);
    s := match st.callers[j].phase
         case Waiting => Resume(j)
         case Holding(_) => Release(j)
         case Released => Settle(j);
  }

  /**
   Under any schedule, whatever later callers and new ones do in between, a caller and those before it
   are finished once they took as many steps as they had work to do, at the latest; until then one of
   them can step.
   */
  lemma EveryScheduleServes<S>(job: (nat, S) -> S, st: State<S>, steps: seq<Step>, k: nat)
    requires k < |st.callers|
    ensures var u := Run(job, st, steps);
            && k < |u.callers|
            && StepsTakenBy(job, st, steps, k) <= WorkUpTo(st.callers, k)
            && (StepsTakenBy(job, st, steps, k) == WorkUpTo(st.callers, k) ==> FinishedUpTo(u, k))
            && (FinishedUpTo(u, k) || exists s :: IsOf(s, k) && Enabled(u, s))
  {
    var u := Run(job, st, steps);
    ScheduleUsesWork(job, st, steps, k);
    NoWorkIffFinished(u.callers[..k + 1]);
    if WorkUpTo(u.callers, k) == 0 {
      assert forall j :: 0 <= j <= k ==> u.callers[j] == u.callers[..k + 1][j];
    }
    if !FinishedUpTo(u, k) { var s := OneOfThemCanStep(u, k); }
  }

  lemma StaysInvited<S>(job: (nat, S) -> S, st: State<S>, s: Step, k: nat)
    requires Enabled(st, Resume(k)) && Enabled(st, s) && s != Resume(k)
    ensures Enabled(Take(job, st, s), Resume(k))
  {
  }

  /** Once the promise it awaits has settled, a caller may enter, and no schedule takes that away before it does. */
  lemma {:induction false} WaiterIsNotOvertaken<S>(job: (nat, S) -> S, st: State<S>, steps: seq<Step>, k: nat)
    requires k < |st.callers| && st.callers[k].phase.Waiting? && PreviousSettled(st.callers, k) && Resume(k) !in steps
    ensures Enabled(Run(job, st, steps), Resume(k))
    decreases |steps|
  {
    if steps != [] {
      if Enabled(st, steps[0]) {
        StaysInvited(job, st, steps[0], k);
        WaiterIsNotOvertaken(job, Take(job, st, steps[0]), steps[1..], k);
      } else {
        WaiterIsNotOvertaken(job, st, steps[1..], k);
      }
    }
  }

  // ---------- The object ----------

  /** The mutex with the state it guards; each method is one uninterrupted piece of the program. */
  class AsyncMutex<S> {
    var callers: seq<Caller<S>>
    var locked: bool
    var shared: S
    var started: seq<nat>

    function View(): State<S>
      reads this
    {
      State(callers, locked, shared, started)
    }

    constructor (initial: S)
      ensures View() == Initial(initial)
    {
      callers, locked, shared, started := [], false, initial, [];
    }

    /** The part of `acquire` up to its `await`: joins the queue. */
    method Enqueue(ghost job: (nat, S) -> S) returns (k: nat)
      modifies this
      ensures k == |old(callers)| && View() == Take(job, old(View()), Acquire)
    {
      k := |callers|;
      callers := callers + [Caller(Waiting, false, false)];
    }

    /** The rest of `acquire`, once the promise it awaits has settled. */
    method Enter(k: nat, ghost job: (nat, S) -> S)
      requires Enabled(View(), Resume(k))
      modifies this
      ensures View() == Take(job, old(View()), Resume(k))
    {
      locked := true;
      callers, started := callers[k := callers[k].(phase := Holding(Fresh))], started + [k];
    }

    method Load(k: nat, ghost job: (nat, S) -> S) returns (value: S)
      requires Enabled(View(), Read(k))
      modifies this`callers
      ensures View() == Take(job, old(View()), Read(k)) && value == shared
    {
      value := shared;
      callers := callers[k := callers[k].(phase := Holding(HasRead(value)))];
    }

    method Save(k: nat, job: (nat, S) -> S)
      requires Enabled(View(), Write(k))
      modifies this`callers, this`shared
      ensures View() == Take(job, old(View()), Write(k))
    {
      shared := job(k, callers[k].phase.stage.value);
      callers := callers[k := callers[k].(phase := Holding(HasWritten), wrote := true)];
    }

    /** The release function; also what runs when the callback throws. */
    method Leave(k: nat, ghost job: (nat, S) -> S)
      requires Enabled(View(), Release(k))
      modifies this`callers, this`locked
      ensures View() == Take(job, old(View()), Release(k))
    {
      locked := false;
      callers := callers[k := callers[k].(phase := Released)];
    }

    /** The promise that caller `k` left in the queue settles. */
    method Pass(k: nat, ghost job: (nat, S) -> S)
      requires Enabled(View(), Settle(k))
      modifies this`callers
      ensures View() == Take(job, old(View()), Settle(k))
    {
      callers := callers[k := callers[k].(settled := true)];
    }
  }
}
