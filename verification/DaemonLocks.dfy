/**
 The busy flags of the daemon and the cycles that take them. A cycle takes its flag without
 waiting or does not run at all; the profit-and-loss poller also raises the management flag
 while it closes a position; one early return of a screening cycle that an opportunity tick
 asked for keeps its flag. Moments are milliseconds.
 */
module DaemonLocks {
  datatype Lock = Management | Screening | PnlPoll | OpportunityPoll | Sweeper

  datatype Flags = Flags(management: bool, screening: bool, pnlPoll: bool, opportunityPoll: bool, sweeper: bool, shuttingDown: bool)

  datatype Cycle = ManagementCycle | HealthCheck | ScreeningCycle | PnlPollTick | OpportunityTick | SweeperCycle

  /** `Acting` remembers the management flag that the poller overwrote; a `Passed` tick found capital enough. */
  datatype Phase = Active | Acting(saved: bool) | Passed | Acted | Done | Leaked

  datatype Task = Task(cycle: Cycle, phase: Phase)

  /** `starved`: the cooldown that a screening cycle without capital began is still running. */
  datatype State = State(flags: Flags, tasks: seq<Task>, starved: bool)

  datatype Step =
    | Start(cycle: Cycle) | Act(i: nat) | Settle(i: nat) | Pass(i: nat) | Trigger(i: nat) | Finish(i: nat)
    | Starve(i: nat) | Feed(i: nat) | Expire | Shutdown

  function LockOf(c: Cycle): Lock {
    match c
    case ManagementCycle => Management
    case HealthCheck => Management
    case ScreeningCycle => Screening
    case PnlPollTick => PnlPoll
    case OpportunityTick => OpportunityPoll
    case SweeperCycle => Sweeper
  }

  predicate IsBusy(f: Flags, lock: Lock) {
    match lock
    case Management => f.management
    case Screening => f.screening
    case PnlPoll => f.pnlPoll
    case OpportunityPoll => f.opportunityPoll
    case Sweeper => f.sweeper
  }

  predicate CanAcquire(f: Flags, lock: Lock) {
    !f.shuttingDown &&
    match lock
    case Management => !f.management && !f.pnlPoll
    case Screening => !f.screening
    case PnlPoll => !f.management && !f.screening && !f.pnlPoll
    case OpportunityPoll => !f.screening && !f.management && !f.pnlPoll && !f.opportunityPoll
    case Sweeper => !f.sweeper && !f.management
  }

  function With(f: Flags, lock: Lock, busy: bool): Flags {
    match lock
    case Management => f.(management := busy)
    case Screening => f.(screening := busy)
    case PnlPoll => f.(pnlPoll := busy)
    case OpportunityPoll => f.(opportunityPoll := busy)
    case Sweeper => f.(sweeper := busy)
  }

  const CLEAR := Flags(false, false, false, false, false, false)

  // ---------- The cycles as steps ----------

  predicate IsTask(st: State, i: nat, cycle: Cycle, phase: Phase) {
    i < |st.tasks| && st.tasks[i] == Task(cycle, phase)
  }

  predicate Enabled(st: State, s: Step) {
    match s
    case Start(c) => CanAcquire(st.flags, LockOf(c))
    case Act(i) => IsTask(st, i, PnlPollTick, Active)
    case Settle(i) => i < |st.tasks| && st.tasks[i].phase.Acting?
    case Pass(i) => IsTask(st, i, OpportunityTick, Active) && !st.starved
    case Trigger(i) => IsTask(st, i, OpportunityTick, Passed) && CanAcquire(st.flags, Screening)
    case Finish(i) => i < |st.tasks| && (st.tasks[i].phase.Active? || st.tasks[i].phase.Passed? || st.tasks[i].phase.Acted?)
    case Starve(i) => IsTask(st, i, ScreeningCycle, Active)
    case Feed(i) => IsTask(st, i, ScreeningCycle, Active)
    case Expire => true
    case Shutdown => true
  }

  function WithPhase(st: State, i: nat, phase: Phase): State
    requires i < |st.tasks|
  {
    st.(tasks := st.tasks[i := st.tasks[i].(phase := phase)])
  }

  function WithTask(st: State, t: Task): State {
    st.(flags := With(st.flags, LockOf(t.cycle), true), tasks := st.tasks + [t])
  }

  /** The silent screening cycle of a tick; while the cooldown runs it returns at once, with its flag raised. */
  function SilentScreening(st: State): Task {
    Task(ScreeningCycle, if st.starved then Leaked else Active)
  }

  function Take(st: State, s: Step): State
    requires Enabled(st, s)
  {
    match s
    case Start(c) => WithTask(st, Task(c, Active))
    case Act(i) => WithPhase(st, i, Acting(st.flags.management)).(flags := With(st.flags, Management, true))
    case Settle(i) => WithPhase(st, i, Acted).(flags := With(st.flags, Management, st.tasks[i].phase.saved))
    case Pass(i) => WithPhase(st, i, Passed)
    case Trigger(i) => WithTask(WithPhase(st, i, Acted), SilentScreening(st))
    case Finish(i) => WithPhase(st, i, Done).(flags := With(st.flags, LockOf(st.tasks[i].cycle), false))
    case Starve(i) => st.(starved := true)
    case Feed(i) => st.(starved := false)
    case Expire => st.(starved := false)
    case Shutdown => st.(flags := st.flags.(shuttingDown := true))
  }

  /** A cycle whose flag is refused does not run: the step leaves the daemon as it is. */
  function Run(st: State, steps: seq<Step>): State
    decreases |steps|
  {
    if steps == [] then st
    else Run(if Enabled(st, steps[0]) then Take(st, steps[0]) else st, steps[1..])
  }

  // ---------- What the flags mean ----------

  predicate InProgress(t: Task) {
    t.phase.Active? || t.phase.Acting? || t.phase.Passed? || t.phase.Acted?
  }

  predicate Holds(t: Task, lock: Lock) {
    || (InProgress(t) && LockOf(t.cycle) == lock)
    || (t.phase.Acting? && lock == Management)
    || (t.phase.Leaked? && lock == Screening)
  }

  predicate SomeoneHolds(tasks: seq<Task>, lock: Lock) {
    exists i :: 0 <= i < |tasks| && Holds(tasks[i], lock)
  }

  predicate SoundTask(t: Task) {
    && (t.phase.Acting? ==> t.cycle == PnlPollTick && !t.phase.saved)
    && (t.phase.Passed? ==> t.cycle == OpportunityTick)
    && (t.phase.Acted? ==> t.cycle == PnlPollTick || t.cycle == OpportunityTick)
    && (t.phase.Leaked? ==> t.cycle == ScreeningCycle)
  }

  /** Two cycles that must never be in progress together. */
  predicate Exclusive(a: Cycle, b: Cycle) {
    || LockOf(a) == LockOf(b)
    || (LockOf(a) == Management && LockOf(b) == PnlPoll)
    || (LockOf(a) == PnlPoll && LockOf(b) == Management)
  }

  predicate Apart(tasks: seq<Task>) {
    forall i, j :: 0 <= i < j < |tasks| && InProgress(tasks[i]) && InProgress(tasks[j]) ==>
      !Exclusive(tasks[i].cycle, tasks[j].cycle)
  }

  ghost predicate Sound(st: State) {
    && (forall i :: 0 <= i < |st.tasks| ==> SoundTask(st.tasks[i]))
    && Apart(st.tasks)
    && (forall lock :: IsBusy(st.flags, lock) <==> SomeoneHolds(st.tasks, lock))
    && (forall i :: 0 <= i < |st.tasks| && st.tasks[i].phase.Leaked? ==>
          forall j :: 0 <= j < |st.tasks| && st.tasks[j].cycle == ScreeningCycle ==> !InProgress(st.tasks[j]))
  }

  lemma HoldersAfterAppend(tasks: seq<Task>, t: Task, lock: Lock)
    ensures SomeoneHolds(tasks + [t], lock) <==> SomeoneHolds(tasks, lock) || Holds(t, lock)
  {
    var more := tasks + [t];
    assert more[|tasks|] == t;
    if SomeoneHolds(tasks, lock) {
      var i :| 0 <= i < |tasks| && Holds(tasks[i], lock);
      assert Holds(more[i], lock);
    }
  }

  lemma StartKeepsSound(st: State, t: Task)
    requires Sound(st) && CanAcquire(st.flags, LockOf(t.cycle))
    requires t.phase == Active || t == Task(ScreeningCycle, Leaked)
    ensures Sound(WithTask(st, t))
  {
    forall lock ensures SomeoneHolds(st.tasks + [t], lock) <==> SomeoneHolds(st.tasks, lock) || Holds(t, lock) {
      HoldersAfterAppend(st.tasks, t, lock);
    }
    assert !SomeoneHolds(st.tasks, LockOf(t.cycle));
    forall i | 0 <= i < |st.tasks| && InProgress(st.tasks[i]) ensures !Exclusive(st.tasks[i].cycle, t.cycle) {
      assert Holds(st.tasks[i], LockOf(st.tasks[i].cycle));
      assert SomeoneHolds(st.tasks, LockOf(st.tasks[i].cycle));
    }
  }

  /** When one task changes its phase, other tasks hold what they held. */
  lemma HoldersAfterChange(tasks: seq<Task>, i: nat, t: Task, lock: Lock)
    requires i < |tasks| && forall j :: 0 <= j < |tasks| && j != i && Holds(tasks[i], lock) ==> !Holds(tasks[j], lock)
    ensures SomeoneHolds(tasks[i := t], lock) <==> Holds(t, lock) || (SomeoneHolds(tasks, lock) && !Holds(tasks[i], lock))
  {
    var next := tasks[i := t];
    assert next[i] == t;
    if SomeoneHolds(tasks, lock) && !Holds(tasks[i], lock) {
      var j :| 0 <= j < |tasks| && Holds(tasks[j], lock);
      assert Holds(next[j], lock);
    }
    if SomeoneHolds(next, lock) && !Holds(t, lock) {
      var j :| 0 <= j < |next| && Holds(next[j], lock);
      assert Holds(tasks[j], lock);
    }
  }

  lemma HoldersAreUnique(st: State, i: nat, j: nat, lock: Lock)
    requires Sound(st) && i < |st.tasks| && j < |st.tasks| && i != j
    requires InProgress(st.tasks[i]) && Holds(st.tasks[i], lock)
    ensures !Holds(st.tasks[j], lock)
  {
  }

  /** A poll in progress never finds the management flag raised by anyone but itself. */
  lemma PollSeesClearFlag(st: State, i: nat)
    requires Sound(st) && i < |st.tasks| && st.tasks[i] == Task(PnlPollTick, Active)
    ensures !IsBusy(st.flags, Management)
  {
    forall j | 0 <= j < |st.tasks| ensures !Holds(st.tasks[j], Management) {
      if j != i { HoldersAreUnique(st, i, j, PnlPoll); }
    }
  }

  /** A lock is held once task `i` has changed exactly when the task holds it now, or another one did. */
  lemma FlagsAfterChange(st: State, i: nat, t: Task, lock: Lock, busy: bool)
    requires Sound(st) && i < |st.tasks| && InProgress(st.tasks[i])
    requires busy <==> Holds(t, lock) || (IsBusy(st.flags, lock) && !Holds(st.tasks[i], lock))
    ensures busy <==> SomeoneHolds(st.tasks[i := t], lock)
  {
    if Holds(st.tasks[i], lock) {
      forall j | 0 <= j < |st.tasks| && j != i ensures !Holds(st.tasks[j], lock) {
        HoldersAreUnique(st, i, j, lock);
      }
    }
    HoldersAfterChange(st.tasks, i, t, lock);
  }

  predicate ChangesPhase(s: Step) {
    s.Act? || s.Settle? || s.Pass? || s.Finish?
  }

  /** The step changes the flags just as it changes what its task holds. */
  lemma FlagsFollowPhase(st: State, s: Step, lock: Lock)
    requires ChangesPhase(s) && Enabled(st, s) && SoundTask(st.tasks[s.i])
    requires s.Act? ==> !st.flags.management
    requires Holds(st.tasks[s.i], lock) ==> IsBusy(st.flags, lock)
    ensures IsBusy(Take(st, s).flags, lock)
       <==> Holds(Take(st, s).tasks[s.i], lock) || (IsBusy(st.flags, lock) && !Holds(st.tasks[s.i], lock))
  {
  }

  lemma HolderIsBusy(st: State, i: nat, lock: Lock)
    requires Sound(st) && i < |st.tasks| && Holds(st.tasks[i], lock)
    ensures IsBusy(st.flags, lock)
  {
  }

  lemma ChangeKeepsFlags(st: State, s: Step, lock: Lock)
    requires Sound(st) && Enabled(st, s) && ChangesPhase(s)
    ensures IsBusy(Take(st, s).flags, lock) <==> SomeoneHolds(Take(st, s).tasks, lock)
  {
    if s.Act? { PollSeesClearFlag(st, s.i); }
    if Holds(st.tasks[s.i], lock) { HolderIsBusy(st, s.i, lock); }
    FlagsFollowPhase(st, s, lock);
    FlagsAfterChange(st, s.i, Take(st, s).tasks[s.i], lock, IsBusy(Take(st, s).flags, lock));
  }

  lemma ChangeKeepsSound(st: State, s: Step)
    requires Sound(st) && Enabled(st, s) && ChangesPhase(s)
    ensures Sound(Take(st, s))
  {
    if s.Act? { PollSeesClearFlag(st, s.i); }
    forall lock ensures IsBusy(Take(st, s).flags, lock) <==> SomeoneHolds(Take(st, s).tasks, lock) {
      ChangeKeepsFlags(st, s, lock);
    }
  }

  /** The tick that asks for a screening cycle goes on holding its own flag. */
  lemma TriggerKeepsSound(st: State, i: nat)
    requires Sound(st) && Enabled(st, Trigger(i))
    ensures Sound(Take(st, Trigger(i)))
  {
    var t := Task(OpportunityTick, Acted);
    assert Sound(WithPhase(st, i, Acted)) by {
      forall lock ensures IsBusy(st.flags, lock) <==> SomeoneHolds(st.tasks[i := t], lock) {
        if Holds(st.tasks[i], lock) { HolderIsBusy(st, i, lock); }
        FlagsAfterChange(st, i, t, lock, IsBusy(st.flags, lock));
      }
    }
    StartKeepsSound(WithPhase(st, i, Acted), SilentScreening(st));
  }

  lemma TakeKeepsSound(st: State, s: Step)
    requires Sound(st) && Enabled(st, s)
    ensures Sound(Take(st, s))
  {
    match s
    case Start(c) => StartKeepsSound(st, Task(c, Active));
    case Trigger(i) => TriggerKeepsSound(st, i);
    case Shutdown =>
      forall lock ensures IsBusy(Take(st, s).flags, lock) == IsBusy(st.flags, lock) {}
    case Starve(_) =>
    case Feed(_) =>
    case Expire =>
    case _ => ChangeKeepsSound(st, s);
  }

  lemma {:induction false} RunKeepsSound(st: State, steps: seq<Step>)
    requires Sound(st)
    ensures Sound(Run(st, steps))
    decreases |steps|
  {
    if steps != [] {
      if Enabled(st, steps[0]) {
        TakeKeepsSound(st, steps[0]);
        RunKeepsSound(Take(st, steps[0]), steps[1..]);
      } else {
        RunKeepsSound(st, steps[1..]);
      }
    }
  }

  // ---------- Every run of the daemon ----------

  function Started(): State {
    State(CLEAR, [], false)
  }

  /** No two tasks that are in progress at once are the same cycle, or a poll beside a management or health cycle. */
  lemma CyclesStayApart(steps: seq<Step>, i: nat, j: nat)
    requires var tasks := Run(Started(), steps).tasks;
             i < j < |tasks| && InProgress(tasks[i]) && InProgress(tasks[j])
    ensures var tasks := Run(Started(), steps).tasks; !Exclusive(tasks[i].cycle, tasks[j].cycle)
  {
    RunKeepsSound(Started(), steps);
  }

  /** The poller's overwrite of the management flag always saves a clear flag, so restoring it takes the flag from no one. */
  lemma PollerRestoresItsOwnFlag(steps: seq<Step>, i: nat)
    requires i < |Run(Started(), steps).tasks| && Run(Started(), steps).tasks[i].phase.Acting?
    ensures var st := Run(Started(), steps);
            && !st.tasks[i].phase.saved
            && (forall j :: 0 <= j < |st.tasks| && j != i ==> !Holds(st.tasks[j], Management))
  {
    RunKeepsSound(Started(), steps);
    var st := Run(Started(), steps);
    forall j | 0 <= j < |st.tasks| && j != i ensures !Holds(st.tasks[j], Management) {
      HoldersAreUnique(st, i, j, Management);
    }
  }

  predicate AllEnded(st: State) {
    forall i :: 0 <= i < |st.tasks| ==> !InProgress(st.tasks[i])
  }

  predicate LostScreening(st: State) {
    exists i :: 0 <= i < |st.tasks| && st.tasks[i].phase.Leaked?
  }

  /** When every cycle has ended, every flag is down, but for the screening flag after a suppressed cycle. */
  lemma FlagsAreReturnedIff(steps: seq<Step>, lock: Lock)
    requires AllEnded(Run(Started(), steps))
    ensures var st := Run(Started(), steps); IsBusy(st.flags, lock) <==> lock == Screening && LostScreening(st)
  {
    RunKeepsSound(Started(), steps);
    var st := Run(Started(), steps);
    if lock == Screening && LostScreening(st) {
      var i :| 0 <= i < |st.tasks| && st.tasks[i].phase.Leaked?;
      assert Holds(st.tasks[i], Screening);
    }
  }

  lemma {:induction false} RunInTwo(st: State, a: seq<Step>, b: seq<Step>)
    ensures Run(st, a + b) == Run(Run(st, a), b)
    decreases |a|
  {
    if a == [] {
      assert a + b == b;
    } else {
      assert (a + b)[0] == a[0] && (a + b)[1..] == a[1..] + b;
      RunInTwo(if Enabled(st, a[0]) then Take(st, a[0]) else st, a[1..], b);
    }
  }

  /** A tick has found capital enough. */
  const PASSED := State(CLEAR.(opportunityPoll := true), [Task(OpportunityTick, Passed)], false)

  /** A screening cycle found too little since, and has ended. */
  const STARVED := State(CLEAR.(opportunityPoll := true), [Task(OpportunityTick, Passed), Task(ScreeningCycle, Done)], true)

  const LOST := State(CLEAR.(screening := true),
                      [Task(OpportunityTick, Done), Task(ScreeningCycle, Done), Task(ScreeningCycle, Leaked)], true)

  lemma RunOfTwo(st: State, a: Step, b: Step)
    requires Enabled(st, a) && Enabled(Take(st, a), b)
    ensures Run(st, [a, b]) == Take(Take(st, a), b)
  {
    assert [a, b][1..] == [b] && [b][1..] == [];
    assert Run(Take(st, a), [b]) == Take(Take(st, a), b);
  }

  lemma TickPasses()
    ensures Run(Started(), [Start(OpportunityTick), Pass(0)]) == PASSED
  {
    RunOfTwo(Started(), Start(OpportunityTick), Pass(0));
  }

  lemma ScreeningStarves()
    ensures Run(PASSED, [Start(ScreeningCycle), Starve(1)] + [Finish(1)]) == STARVED
  {
    RunOfTwo(PASSED, Start(ScreeningCycle), Starve(1));
    RunInTwo(PASSED, [Start(ScreeningCycle), Starve(1)], [Finish(1)]);
  }

  lemma SilentScreeningIsSuppressed()
    ensures Run(STARVED, [Trigger(0), Finish(0)]) == LOST
  {
    RunOfTwo(STARVED, Trigger(0), Finish(0));
  }

  /**
   A tick looks for capital, a screening cycle then finds too little and ends, and the screening cycle
   that the tick asks for is suppressed: every cycle has ended and the screening flag is lost.
   */
  lemma OneSuppressedCycleLosesTheFlag()
    ensures var steps := [Start(OpportunityTick), Pass(0)] + ([Start(ScreeningCycle), Starve(1)] + [Finish(1)])
                         + [Trigger(0), Finish(0)];
            var st := Run(Started(), steps);
            AllEnded(st) && LostScreening(st) && IsBusy(st.flags, Screening)
  {
    var look, starve, end := [Start(OpportunityTick), Pass(0)], [Start(ScreeningCycle), Starve(1)] + [Finish(1)], [Trigger(0), Finish(0)];
    TickPasses();
    ScreeningStarves();
    SilentScreeningIsSuppressed();
    RunInTwo(Started(), look, starve);
    RunInTwo(Started(), look + starve, end);
    assert LOST.tasks[2].phase.Leaked?;
  }

  predicate SomeonePassed(st: State) {
    exists i :: 0 <= i < |st.tasks| && st.tasks[i].phase.Passed?
  }

  /** No screening cycle runs out of capital while a tick that found enough is still under way. */
  predicate NoRace(st: State, steps: seq<Step>)
    decreases |steps|
  {
    steps == [] ||
    if Enabled(st, steps[0]) then
      !(steps[0].Starve? && SomeonePassed(st)) && NoRace(Take(st, steps[0]), steps[1..])
    else NoRace(st, steps[1..])
  }

  predicate NoneIsStarved(st: State) {
    !LostScreening(st) && !(st.starved && SomeonePassed(st))
  }

  lemma StepKeepsNoneStarved(st: State, s: Step)
    requires Enabled(st, s) && NoneIsStarved(st) && !(s.Starve? && SomeonePassed(st))
    ensures NoneIsStarved(Take(st, s))
  {
    var next := Take(st, s);
    forall i | 0 <= i < |next.tasks| ensures !next.tasks[i].phase.Leaked? && (next.starved ==> !next.tasks[i].phase.Passed?) {
    }
  }

  /** The screening flag is lost only when a cycle ran out of capital between a tick's look and its request. */
  lemma {:induction false} LossNeedsARace(st: State, steps: seq<Step>)
    requires NoneIsStarved(st) && NoRace(st, steps)
    ensures NoneIsStarved(Run(st, steps))
    decreases |steps|
  {
    if steps != [] {
      if Enabled(st, steps[0]) {
        StepKeepsNoneStarved(st, steps[0]);
        LossNeedsARace(Take(st, steps[0]), steps[1..]);
      } else {
        LossNeedsARace(st, steps[1..]);
      }
    }
  }

  /** Without such a race, every flag is down again whenever every cycle has ended. */
  lemma NoRaceNoLoss(steps: seq<Step>, lock: Lock)
    requires NoRace(Started(), steps) && AllEnded(Run(Started(), steps))
    ensures !IsBusy(Run(Started(), steps).flags, lock)
  {
    LossNeedsARace(Started(), steps);
    FlagsAreReturnedIff(steps, lock);
  }

  lemma TakeKeepsLoss(st: State, s: Step)
    requires Sound(st) && LostScreening(st) && Enabled(st, s)
    ensures LostScreening(Take(st, s))
  {
    var i :| 0 <= i < |st.tasks| && st.tasks[i].phase.Leaked?;
    assert Take(st, s).tasks[i] == st.tasks[i];
  }

  lemma {:induction false} LossIsPermanent(st: State, steps: seq<Step>)
    requires Sound(st) && LostScreening(st)
    ensures LostScreening(Run(st, steps)) && Sound(Run(st, steps))
    decreases |steps|
  {
    if steps != [] {
      if Enabled(st, steps[0]) {
        TakeKeepsSound(st, steps[0]);
        TakeKeepsLoss(st, steps[0]);
        LossIsPermanent(Take(st, steps[0]), steps[1..]);
      } else {
        LossIsPermanent(st, steps[1..]);
      }
    }
  }

  /** After one suppressed screening cycle, no screening cycle and no poll of either kind starts again. */
  lemma SuppressedScreeningStopsPolling(before: seq<Step>, after: seq<Step>)
    requires LostScreening(Run(Started(), before))
    ensures var flags := Run(Run(Started(), before), after).flags;
            !CanAcquire(flags, Screening) && !CanAcquire(flags, PnlPoll) && !CanAcquire(flags, OpportunityPoll)
  {
    RunKeepsSound(Started(), before);
    LossIsPermanent(Run(Started(), before), after);
    var st := Run(Run(Started(), before), after);
    var i :| 0 <= i < |st.tasks| && st.tasks[i].phase.Leaked?;
    assert Holds(st.tasks[i], Screening);
    assert IsBusy(st.flags, Screening);
  }

  // ---------- When a cycle starts ----------

  /** A cycle in progress, or a suppressed one, that keeps another cycle from starting. */
  predicate KeepsOut(t: Task, c: Cycle) {
    var screens := t.phase.Leaked? || (t.cycle == ScreeningCycle && InProgress(t));
    var manages := InProgress(t) && (t.cycle == ManagementCycle || t.cycle == HealthCheck);
    var polls := InProgress(t) && t.cycle == PnlPollTick;
    match c
    case ManagementCycle => manages || polls
    case HealthCheck => manages || polls
    case ScreeningCycle => screens
    case PnlPollTick => manages || polls || screens
    case OpportunityTick => manages || polls || screens || (InProgress(t) && t.cycle == OpportunityTick)
    case SweeperCycle => manages || t.phase.Acting? || (InProgress(t) && t.cycle == SweeperCycle)
  }

  predicate SomeoneKeepsOut(tasks: seq<Task>, c: Cycle) {
    exists i :: 0 <= i < |tasks| && KeepsOut(tasks[i], c)
  }

  function Next(st: State, s: Step): State {
    if Enabled(st, s) then Take(st, s) else st
  }

  lemma NextIsDown(st: State, s: Step)
    ensures Next(st, s).flags.shuttingDown <==> st.flags.shuttingDown || s == Shutdown
  {
    if Enabled(st, s) && s != Shutdown { TakeStaysUp(st, s); }
  }

  lemma WithStaysUp(f: Flags, lock: Lock, busy: bool)
    ensures With(f, lock, busy).shuttingDown == f.shuttingDown
  {
  }

  lemma TakeStaysUp(st: State, s: Step)
    requires Enabled(st, s) && s != Shutdown
    ensures Take(st, s).flags.shuttingDown == st.flags.shuttingDown
  {
    match s
    case Start(c) => WithStaysUp(st.flags, LockOf(c), true);
    case Act(_) => WithStaysUp(st.flags, Management, true);
    case Settle(i) => WithStaysUp(st.flags, Management, st.tasks[i].phase.saved);
    case Trigger(_) => WithStaysUp(st.flags, Screening, true);
    case Finish(i) => WithStaysUp(st.flags, LockOf(st.tasks[i].cycle), false);
    case _ =>
  }

  lemma InRest(steps: seq<Step>, s: Step)
    requires steps != []
    ensures s in steps <==> s == steps[0] || s in steps[1..]
  {
    assert steps == [steps[0]] + steps[1..];
  }

  lemma {:induction false} DownIffShutDown(st: State, steps: seq<Step>)
    ensures Run(st, steps).flags.shuttingDown <==> st.flags.shuttingDown || Shutdown in steps
    decreases |steps|
  {
    if steps != [] {
      var next := Next(st, steps[0]);
      NextIsDown(st, steps[0]);
      DownIffShutDown(next, steps[1..]);
      InRest(steps, Shutdown);
      assert Run(st, steps) == Run(next, steps[1..]);
    }
  }

  /** The flags that a cycle looks at, from which it follows whether it starts. */
  predicate FlagsKeepOut(f: Flags, c: Cycle) {
    match c
    case ManagementCycle => f.management || f.pnlPoll
    case HealthCheck => f.management || f.pnlPoll
    case ScreeningCycle => f.screening
    case PnlPollTick => f.management || f.screening || f.pnlPoll
    case OpportunityTick => f.management || f.screening || f.pnlPoll || f.opportunityPoll
    case SweeperCycle => f.sweeper || f.management
  }

  /** A task keeps a cycle out through the flags it holds; an acting poll also holds the management flag. */
  lemma HoldingKeepsOut(t: Task, c: Cycle)
    requires SoundTask(t)
    ensures KeepsOut(t, c) <==>
            FlagsKeepOut(Flags(Holds(t, Management), Holds(t, Screening), Holds(t, PnlPoll),
                               Holds(t, OpportunityPoll), Holds(t, Sweeper), false), c)
  {
  }

  lemma RaisedByHolder(st: State, lock: Lock) returns (i: nat)
    requires Sound(st) && IsBusy(st.flags, lock)
    ensures i < |st.tasks| && Holds(st.tasks[i], lock)
  {
    assert SomeoneHolds(st.tasks, lock);
    i :| 0 <= i < |st.tasks| && Holds(st.tasks[i], lock);
  }

  lemma FlagKeepsOut(st: State, c: Cycle, lock: Lock)
    requires Sound(st) && IsBusy(st.flags, lock) && FlagsKeepOut(With(CLEAR, lock, true), c)
    ensures SomeoneKeepsOut(st.tasks, c)
  {
    var i := RaisedByHolder(st, lock);
    HoldingKeepsOut(st.tasks[i], c);
  }

  lemma FlagsAreKept(st: State, c: Cycle)
    requires Sound(st)
    ensures FlagsKeepOut(st.flags, c) <==> SomeoneKeepsOut(st.tasks, c)
  {
    if SomeoneKeepsOut(st.tasks, c) {
      var i :| 0 <= i < |st.tasks| && KeepsOut(st.tasks[i], c);
      HoldingKeepsOut(st.tasks[i], c);
      forall lock | Holds(st.tasks[i], lock) ensures IsBusy(st.flags, lock) { HolderIsBusy(st, i, lock); }
    }
    forall lock | IsBusy(st.flags, lock) && FlagsKeepOut(With(CLEAR, lock, true), c) ensures SomeoneKeepsOut(st.tasks, c) {
      FlagKeepsOut(st, c, lock);
    }
    if FlagsKeepOut(st.flags, c) {
      var lock: Lock :| IsBusy(st.flags, lock) && FlagsKeepOut(With(CLEAR, lock, true), c);
    }
  }

  lemma AcquiresIff(f: Flags, c: Cycle)
    ensures CanAcquire(f, LockOf(c)) <==> !f.shuttingDown && !FlagsKeepOut(f, c)
  {
  }

  /**
   In every run a cycle starts exactly when the daemon was not shut down and nothing in progress keeps it
   out: no management or health cycle and no profit poll for each of those, no screening cycle for a
   screening cycle or a poll of either kind, and for a sweep another sweep, a management or health cycle, or a
   poll that is closing a position. A suppressed screening cycle counts as one in progress.
   */
  lemma CycleStartsIff(steps: seq<Step>, c: Cycle)
    ensures var st := Run(Started(), steps);
            Enabled(st, Start(c)) <==> Shutdown !in steps && !SomeoneKeepsOut(st.tasks, c)
  {
    RunKeepsSound(Started(), steps);
    DownIffShutDown(Started(), steps);
    AcquiresIff(Run(Started(), steps).flags, c);
    FlagsAreKept(Run(Started(), steps), c);
  }

  /** Whenever every cycle has ended without that race, and the daemon was not shut down, any cycle can start. */
  lemma EveryCycleCanStart(steps: seq<Step>, c: Cycle)
    requires NoRace(Started(), steps) && AllEnded(Run(Started(), steps)) && Shutdown !in steps
    ensures Enabled(Run(Started(), steps), Start(c))
  {
    CycleStartsIff(steps, c);
    LossNeedsARace(Started(), steps);
    var tasks := Run(Started(), steps).tasks;
    forall i | 0 <= i < |tasks| ensures !KeepsOut(tasks[i], c) {
      assert !InProgress(tasks[i]) && !tasks[i].phase.Leaked?;
    }
  }

  // ---------- The object ----------

  /** How long the daemon does not ask for a screening cycle after one found too little capital: 15 minutes. */
  const STARVATION_COOLDOWN := 900000

  class Daemon {
    var managementBusy: bool
    var screeningBusy: bool
    var pnlPollBusy: bool
    var opportunityPollBusy: bool
    var sweeperBusy: bool
    var shuttingDown: bool
    var screeningStarvedUntil: int

    function View(): Flags
      reads this
    {
      Flags(managementBusy, screeningBusy, pnlPollBusy, opportunityPollBusy, sweeperBusy, shuttingDown)
    }

    /** The cooldown is still running. */
    predicate IsStarved(now: int)
      reads this
    {
      screeningStarvedUntil > now
    }

    constructor ()
      ensures View() == CLEAR && forall now: nat :: !IsStarved(now)
    {
      managementBusy, screeningBusy, pnlPollBusy := false, false, false;
      opportunityPollBusy, sweeperBusy, shuttingDown := false, false, false;
      screeningStarvedUntil := 0;
    }

    method AcquireLock(lock: Lock) returns (ok: bool)
      modifies this
      ensures ok == CanAcquire(old(View()), lock)
      ensures View() == if ok then With(old(View()), lock, true) else old(View())
      ensures screeningStarvedUntil == old(screeningStarvedUntil)
    {
      if shuttingDown { return false; }
      match lock {
      case Management =>
        if managementBusy || pnlPollBusy { return false; }
        managementBusy := true;
      case Screening =>
        if screeningBusy { return false; }
        screeningBusy := true;
      case PnlPoll =>
        if managementBusy || screeningBusy || pnlPollBusy { return false; }
        pnlPollBusy := true;
      case OpportunityPoll =>
        if screeningBusy || managementBusy || pnlPollBusy || opportunityPollBusy { return false; }
        opportunityPollBusy := true;
      case Sweeper =>
        if sweeperBusy || managementBusy { return false; }
        sweeperBusy := true;
      }
      ok := true;
    }

    method ReleaseLock(lock: Lock)
      modifies this
      ensures View() == With(old(View()), lock, false) && screeningStarvedUntil == old(screeningStarvedUntil)
    {
      match lock
      case Management => managementBusy := false;
      case Screening => screeningBusy := false;
      case PnlPoll => pnlPollBusy := false;
      case OpportunityPoll => opportunityPollBusy := false;
      case Sweeper => sweeperBusy := false;
    }

    /** The poller raises the management flag while it closes a position, whatever it was. */
    method BeginClose() returns (wasManagementBusy: bool)
      modifies this`managementBusy
      ensures wasManagementBusy == old(managementBusy) && View() == With(old(View()), Management, true)
    {
      wasManagementBusy := managementBusy;
      managementBusy := true;
    }

    method EndClose(wasManagementBusy: bool)
      modifies this`managementBusy
      ensures View() == With(old(View()), Management, wasManagementBusy)
    {
      managementBusy := wasManagementBusy;
    }

    /** A screening cycle that found too little capital begins the cooldown. */
    method HandleScreeningStarvation(now: int)
      modifies this`screeningStarvedUntil
      ensures View() == old(View()) && forall t :: IsStarved(t) <==> t < now + STARVATION_COOLDOWN
    {
      screeningStarvedUntil := now + STARVATION_COOLDOWN;
    }

    /** The start of a screening cycle; one suppressed by the cooldown returns with its flag still raised. */
    method BeginScreening(silent: bool, now: int) returns (runs: bool)
      modifies this
      ensures CanAcquire(old(View()), Screening) ==>
                View() == With(old(View()), Screening, true) && runs == !(old(IsStarved(now)) && silent)
      ensures !CanAcquire(old(View()), Screening) ==> View() == old(View()) && !runs
      ensures screeningStarvedUntil == old(screeningStarvedUntil)
    {
      runs := AcquireLock(Screening);
      if runs && screeningStarvedUntil > now && silent { runs := false; }
    }
  }
}
