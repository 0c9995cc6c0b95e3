/**
 Why a position is closed: each exit in terms of the readings of the polls that confirmed it, the
 configuration of their moment and the stored counters.
 */
module ExitTheorems {
  import opened Options
  import opened Positions
  import opened PositionTheorems

  /** The exits, in the order in which they are tried. */
  datatype Exit =
    | StopLoss | TrailingDrop | OutOfRange | LowYield
    | LossRule | ProfitRule | PumpedRule | AboveRule | YieldRule

  function Code(x: Exit): string {
    match x
    case StopLoss => "STOP_LOSS"
    case TrailingDrop => "TRAILING_TP"
    case OutOfRange => "OUT_OF_RANGE"
    case LowYield => "LOW_YIELD"
    case LossRule => "RULE_1"
    case ProfitRule => "RULE_2"
    case PumpedRule => "RULE_3"
    case AboveRule => "RULE_4"
    case YieldRule => "RULE_5"
  }

  function Rank(x: Exit): nat {
    match x
    case StopLoss => 1
    case TrailingDrop => 2
    case OutOfRange => 3
    case LowYield => 4
    case LossRule => 5
    case ProfitRule => 6
    case PumpedRule => 7
    case AboveRule => 8
    case YieldRule => 9
  }

  /** The profit was read, not flagged, and no loss of ninety percent or more of something still worth anything. */
  predicate IsTrusted(r: Reading, trackedSol: real) {
    && !r.flaggedSuspicious
    && (r.pnlPct.Some? && r.pnlPct.value <= -90.0 ==> r.totalUsd.GetOr(0.0) <= 0.01 && r.amountSol.GetOr(trackedSol) <= 0.0)
  }

  predicate ReadAtMost(r: Reading, limit: real) {
    r.pnlPct.Some? && r.pnlPct.value <= limit
  }

  predicate ReadAtLeast(r: Reading, limit: real) {
    r.pnlPct.Some? && r.pnlPct.value >= limit
  }

  /** How many bins the price is above the range. */
  predicate BinsAbove(r: Reading, bins: int) {
    r.activeBin.Some? && r.upperBin.Some? && r.activeBin.value - r.upperBin.value > bins
  }

  /** What a poll found of a position whose peak and timers are up to date. */
  predicate Holds(x: Exit, p: Position, r: Reading, rules: Rules, now: int) {
    match x
    case StopLoss => IsTrusted(r, p.amountSol) && rules.stopLossPct.Some? && ReadAtMost(r, rules.stopLossPct.value)
    case TrailingDrop =>
      IsTrusted(r, p.amountSol) && p.trailingActive && r.pnlPct.GetOr(0.0) <= p.peak - rules.trailingDropPct
    case OutOfRange => p.oorSince.Some? && p.oorSince.value + rules.outOfRangeWaitMinutes * 60000 <= now
    case LowYield =>
      && r.feePerTvl.Some? && rules.minFeePerTvl.Some? && r.feePerTvl.value < rules.minFeePerTvl.value
      && (r.ageMinutes.Some? ==> r.ageMinutes.value >= rules.minAgeBeforeYieldCheck.GetOr(60.0))
    case LossRule => IsTrusted(r, p.amountSol) && ReadAtMost(r, rules.stopLossPct.GetOr(0.0))
    case ProfitRule =>
      IsTrusted(r, p.amountSol) && ReadAtLeast(r, rules.takeProfitPct) && (r.pnlUsd.Some? ==> r.pnlUsd.value > 0.0)
    case PumpedRule => BinsAbove(r, rules.outOfRangeBinsToClose)
    case AboveRule => BinsAbove(r, 0) && r.minutesOor.GetOr(0) >= rules.outOfRangeWaitMinutes
    case YieldRule =>
      r.feePerTvl.Some? && r.feePerTvl.value < rules.minFeePerTvl.GetOr(0.0) && r.ageMinutes.Some? && r.ageMinutes.value >= 60.0
  }

  /** The exit holds and none that is tried before it does. */
  ghost predicate IsTheExit(x: Exit, p: Position, r: Reading, rules: Rules, now: int) {
    Holds(x, p, r, rules, now) && forall y :: Rank(y) < Rank(x) ==> !Holds(y, p, r, rules, now)
  }

  ghost predicate NoExit(p: Position, r: Reading, rules: Rules, now: int) {
    forall x :: !Holds(x, p, r, rules, now)
  }

  lemma CodesDiffer(x: Exit, y: Exit)
    requires Code(x) == Code(y)
    ensures x == y
  {
    assert "STOP_LOSS"[0] == 'S' && "LOW_YIELD"[0] == 'L';
    assert "RULE_1"[5] == '1' && "RULE_2"[5] == '2' && "RULE_3"[5] == '3' && "RULE_4"[5] == '4' && "RULE_5"[5] == '5';
    assert |Code(x)| == |Code(y)|;
    assert |Code(x)| == 9 ==> Code(x)[0] == Code(y)[0];
    assert |Code(x)| == 6 ==> Code(x)[5] == Code(y)[5];
  }

  lemma TrustedIff(r: Reading, trackedSol: real)
    ensures IsPnlSuspect(r, Some(trackedSol)) <==> !IsTrusted(r, trackedSol)
  {
  }

  lemma MinutesPassedIff(since: int, now: int, minutes: int)
    ensures MinutesBetween(since, now) >= minutes <==> since + minutes * 60000 <= now
  {
  }

  /** The rule-based exits, told from the position and the reading. */
  lemma ExitCheckFinds(p: Position, r: Reading, rules: Rules, now: int, x: Exit)
    requires Rank(x) <= 4 && IsTheExit(x, p, r, rules, now)
    ensures ExitCheck(p, r, rules, now) == Some(Code(x))
  {
    TrustedIff(r, p.amountSol);
    if p.oorSince.Some? { MinutesPassedIff(p.oorSince.value, now, rules.outOfRangeWaitMinutes); }
    assert Rank(StopLoss) < Rank(x) ==> !Holds(StopLoss, p, r, rules, now);
    assert Rank(TrailingDrop) < Rank(x) ==> !Holds(TrailingDrop, p, r, rules, now);
    assert Rank(OutOfRange) < Rank(x) ==> !Holds(OutOfRange, p, r, rules, now);
  }

  lemma ExitCheckFindsNone(p: Position, r: Reading, rules: Rules, now: int)
    requires forall y :: Rank(y) <= 4 ==> !Holds(y, p, r, rules, now)
    ensures ExitCheck(p, r, rules, now).None?
  {
    TrustedIff(r, p.amountSol);
    if p.oorSince.Some? { MinutesPassedIff(p.oorSince.value, now, rules.outOfRangeWaitMinutes); }
    assert !Holds(StopLoss, p, r, rules, now) && !Holds(TrailingDrop, p, r, rules, now);
    assert !Holds(OutOfRange, p, r, rules, now) && !Holds(LowYield, p, r, rules, now);
  }

  lemma CloseRuleFinds(p: Position, r: Reading, rules: Rules, now: int, x: Exit)
    requires Rank(x) > 4 && IsTheExit(x, p, r, rules, now)
    ensures CloseRule(r, Some(p.amountSol), rules) == Some(Code(x))
  {
    TrustedIff(r, p.amountSol);
    assert Rank(LossRule) < Rank(x) ==> !Holds(LossRule, p, r, rules, now);
    assert Rank(ProfitRule) < Rank(x) ==> !Holds(ProfitRule, p, r, rules, now);
    assert Rank(PumpedRule) < Rank(x) ==> !Holds(PumpedRule, p, r, rules, now);
    assert Rank(AboveRule) < Rank(x) ==> !Holds(AboveRule, p, r, rules, now);
  }

  lemma CloseRuleFindsNone(p: Position, r: Reading, rules: Rules, now: int)
    requires NoExit(p, r, rules, now)
    ensures CloseRule(r, Some(p.amountSol), rules).None?
  {
    TrustedIff(r, p.amountSol);
    assert !Holds(LossRule, p, r, rules, now) && !Holds(ProfitRule, p, r, rules, now);
    assert !Holds(PumpedRule, p, r, rules, now) && !Holds(AboveRule, p, r, rules, now) && !Holds(YieldRule, p, r, rules, now);
  }

  /** Some exit holds first, or none holds. */
  lemma FirstExit(p: Position, r: Reading, rules: Rules, now: int, n: nat) returns (x: Option<Exit>)
    requires n <= 10 && forall y :: Rank(y) < n ==> !Holds(y, p, r, rules, now)
    ensures x.None? ==> NoExit(p, r, rules, now)
    ensures x.Some? ==> IsTheExit(x.value, p, r, rules, now)
    decreases 10 - n
  {
    x := None;
    if n < 10 {
      if y: Exit :| Rank(y) == n && Holds(y, p, r, rules, now) {
        x := Some(y);
      } else {
        x := FirstExit(p, r, rules, now, n + 1);
      }
    } else {
      forall y ensures !Holds(y, p, r, rules, now) { assert Rank(y) < n; }
    }
  }

  lemma OneExit(p: Position, r: Reading, rules: Rules, now: int, x: Exit, y: Exit)
    requires IsTheExit(x, p, r, rules, now) && IsTheExit(y, p, r, rules, now)
    ensures x == y
  {
    assert !(Rank(x) < Rank(y)) && !(Rank(y) < Rank(x));
  }

  /**
   Updating an open position returns the first of the four rule-based exits that holds of it as updated, and
   nothing exactly when none of them holds.
   */
  lemma UpdateFindsTheExit(p: Position, r: Reading, rules: Rules, now: int, x: Exit)
    requires !p.closed
    ensures var (timed, exit) := UpdateStep(p, r, rules, now);
            && (exit == Some(Code(x)) <==> Rank(x) <= 4 && IsTheExit(x, timed, r, rules, now))
            && (exit.None? <==> forall y :: Rank(y) <= 4 ==> !Holds(y, timed, r, rules, now))
  {
    var timed := UpdateStep(p, r, rules, now).0;
    var first := FirstExit(timed, r, rules, now, 0);
    if first.Some? && Rank(first.value) <= 4 {
      ExitCheckFinds(timed, r, rules, now, first.value);
      if Code(x) == Code(first.value) { CodesDiffer(x, first.value); }
      if IsTheExit(x, timed, r, rules, now) { OneExit(timed, r, rules, now, x, first.value); }
    } else {
      forall y | Rank(y) <= 4 ensures !Holds(y, timed, r, rules, now) {
        assert first.Some? ==> Rank(y) < Rank(first.value);
      }
      ExitCheckFindsNone(timed, r, rules, now);
    }
  }

  /** A poll detects the first exit that holds of the position as updated. */
  lemma DetectsFirst(p: Position, r: Reading, rules: Rules, now: int, x: Exit)
    requires !p.closed && IsTheExit(x, UpdateStep(p, r, rules, now).0, r, rules, now)
    ensures DetectedSignal(p, r, rules, now) == Some(Code(x))
  {
    var timed := UpdateStep(p, r, rules, now).0;
    UpdateFindsTheExit(p, r, rules, now, x);
    if Rank(x) > 4 {
      assert forall y :: Rank(y) <= 4 ==> !Holds(y, timed, r, rules, now);
      CloseRuleFinds(timed, r, rules, now, x);
    }
  }

  lemma DetectsNothing(p: Position, r: Reading, rules: Rules, now: int)
    requires !p.closed && NoExit(UpdateStep(p, r, rules, now).0, r, rules, now)
    ensures DetectedSignal(p, r, rules, now).None?
  {
    var timed := UpdateStep(p, r, rules, now).0;
    UpdateFindsTheExit(p, r, rules, now, StopLoss);
    CloseRuleFindsNone(timed, r, rules, now);
  }

  lemma DetectsIff(p: Position, r: Reading, rules: Rules, now: int, x: Exit)
    requires !p.closed
    ensures DetectedSignal(p, r, rules, now) == Some(Code(x)) <==> IsTheExit(x, UpdateStep(p, r, rules, now).0, r, rules, now)
  {
    var timed := UpdateStep(p, r, rules, now).0;
    var first := FirstExit(timed, r, rules, now, 0);
    if first.Some? {
      DetectsFirst(p, r, rules, now, first.value);
      if Code(x) == Code(first.value) { CodesDiffer(x, first.value); }
      if IsTheExit(x, timed, r, rules, now) { OneExit(timed, r, rules, now, x, first.value); }
    } else {
      DetectsNothing(p, r, rules, now);
    }
  }

  // ---------- The polls of a history ----------

  /** The exit is the one that this poll found. */
  ghost predicate Found(x: Exit, rec: PollRecord) {
    IsTheExit(x, rec.position, rec.reading, rec.rules, rec.now)
  }

  /** The last polls, this many, all found the exit. */
  ghost predicate FoundThroughout(x: Exit, log: seq<PollRecord>, w: int) {
    w <= |log| && forall i :: 0 <= i && |log| - w <= i < |log| ==> Found(x, log[i])
  }

  lemma RecordFindsIff(p: Position, e: Event, x: Exit)
    requires e.Poll? && !p.closed
    ensures RecordOf(p, e)[0].signal == Some(Code(x)) <==> Found(x, RecordOf(p, e)[0])
  {
    DetectsIff(PeakStep(p, e.reading.pnlPct, e.confirmTicks), e.reading, e.rules, e.now, x);
  }

  lemma {:induction false} LogFindsIff(s: Setup, events: seq<Event>, i: nat, x: Exit)
    requires i < |PollLog(s, events)|
    ensures PollLog(s, events)[i].signal == Some(Code(x)) <==> Found(x, PollLog(s, events)[i])
  {
    var before, e := events[..|events| - 1], events[|events| - 1];
    if i < |PollLog(s, before)| {
      LogFindsIff(s, before, i, x);
    } else {
      RecordFindsIff(State(s, before), e, x);
    }
  }

  /** Some signal is always that of an exit. */
  lemma {:induction false} SignalHasExit(s: Setup, events: seq<Event>, i: nat) returns (x: Exit)
    requires i < |PollLog(s, events)| && PollLog(s, events)[i].signal.Some?
    ensures PollLog(s, events)[i].signal == Some(Code(x))
  {
    var before, e := events[..|events| - 1], events[|events| - 1];
    if i < |PollLog(s, before)| {
      x := SignalHasExit(s, before, i);
    } else {
      var p := PeakStep(State(s, before), e.reading.pnlPct, e.confirmTicks);
      var timed := UpdateStep(p, e.reading, e.rules, e.now).0;
      var first := FirstExit(timed, e.reading, e.rules, e.now, 0);
      if first.None? { DetectsNothing(p, e.reading, e.rules, e.now); }
      x := first.value;
      DetectsFirst(p, e.reading, e.rules, e.now, x);
    }
  }

  /** The last poll saw the reading and the configuration of its event, and the position as it is after it. */
  lemma LastPollSees(s: Setup, events: seq<Event>)
    requires events != [] && events[|events| - 1].Poll? && !State(s, events[..|events| - 1]).closed
    ensures PollLog(s, events) != []
    ensures var rec, e, p := PollLog(s, events)[|PollLog(s, events)| - 1], events[|events| - 1], State(s, events);
            && rec.reading == e.reading && rec.rules == e.rules && rec.now == e.now && rec.confirmTicks == e.confirmTicks
            && rec.position.(exitSignal := p.exitSignal, exitCount := p.exitCount) == p
            && (rec.fired <==> Fires(s, events))
  {
    FiringIsLogged(s, events);
    var log := PollLog(s, events);
    assert log[|log| - 1] == RecordOf(State(s, events[..|events| - 1]), events[|events| - 1])[0];
  }

  /**
   A position that fires does so for one exit, and each of the last polls, as many as this one needs, found
   that exit and none that is tried before it. So for a stop loss each of them read a trusted profit at or
   below the threshold of its moment, for a take profit one at or above it, and so on.
   */
  lemma CloseIsExplained(s: Setup, events: seq<Event>) returns (x: Exit)
    requires Fires(s, events)
    ensures PollLog(s, events) != [] && PollLog(s, events)[|PollLog(s, events)| - 1].signal == Some(Code(x))
    ensures FoundThroughout(x, PollLog(s, events), Needed(PollLog(s, events)))
  {
    var log := PollLog(s, events);
    FiringEndsQuietRun(s, events);
    x := SignalHasExit(s, events, |log| - 1);
    forall i | 0 <= i && |log| - Needed(log) <= i < |log| ensures Found(x, log[i]) {
      LogFindsIff(s, events, i, x);
    }
  }

  /** Among the last polls, this many, one fired. */
  ghost predicate FiredAmongLast(log: seq<PollRecord>, w: int) {
    exists i :: 0 <= i && |log| - w <= i < |log| && log[i].fired
  }

  /**
   Conversely, an exit that as many polls in a row find as the last of them needs makes the position fire
   at one of them; at the last, if none of the others fired.
   */
  lemma ConfirmedExitFires(s: Setup, events: seq<Event>, x: Exit)
    requires PollLog(s, events) != [] && FoundThroughout(x, PollLog(s, events), Needed(PollLog(s, events)))
    ensures FiredAmongLast(PollLog(s, events), Needed(PollLog(s, events)))
  {
    var log := PollLog(s, events);
    var w := Needed(log);
    forall i | 0 <= i && |log| - w <= i < |log| ensures log[i].signal == Some(Code(x)) { LogFindsIff(s, events, i, x); }
    if forall i :: |log| - w <= i < |log| - 1 ==> !log[i].fired {
      assert QuietRun(log, w);
      LastConfirmedFires(s, events);
    }
  }

  lemma {:induction false} LastConfirmedFires(s: Setup, events: seq<Event>)
    requires PollLog(s, events) != [] && IsConfirmed(PollLog(s, events))
    ensures LastFired(PollLog(s, events))
  {
    var before, e := events[..|events| - 1], events[|events| - 1];
    if !State(s, before).closed && e.Poll? {
      FiresIff(s, events);
      FiringIsLogged(s, events);
    } else {
      assert PollLog(s, events) == PollLog(s, before);
      LastConfirmedFires(s, before);
    }
  }

  /** Each of the last polls, this many, read a trusted profit at or below the stop loss of its moment. */
  ghost predicate LostThroughout(log: seq<PollRecord>, w: int) {
    && w <= |log|
    && forall i :: 0 <= i && |log| - w <= i < |log| ==>
         && IsTrusted(log[i].reading, log[i].position.amountSol)
         && log[i].rules.stopLossPct.Some? && ReadAtMost(log[i].reading, log[i].rules.stopLossPct.value)
  }

  lemma LossesFire(s: Setup, events: seq<Event>)
    requires PollLog(s, events) != [] && LostThroughout(PollLog(s, events), Needed(PollLog(s, events)))
    ensures FiredAmongLast(PollLog(s, events), Needed(PollLog(s, events)))
  {
    var log := PollLog(s, events);
    forall i | 0 <= i && |log| - Needed(log) <= i < |log| ensures Found(StopLoss, log[i]) {
      assert Holds(StopLoss, log[i].position, log[i].reading, log[i].rules, log[i].now);
    }
    ConfirmedExitFires(s, events, StopLoss);
  }

  lemma StopLossMeansLosses(s: Setup, events: seq<Event>)
    requires LastFired(PollLog(s, events)) && PollLog(s, events)[|PollLog(s, events)| - 1].signal == Some("STOP_LOSS")
    ensures LostThroughout(PollLog(s, events), Needed(PollLog(s, events)))
  {
    var log := PollLog(s, events);
    FiredLastWasConfirmed(s, events);
    forall i | 0 <= i && |log| - Needed(log) <= i < |log| ensures Found(StopLoss, log[i]) {
      LogFindsIff(s, events, i, StopLoss);
    }
  }

  /**
   A position fires for its stop loss exactly after as many polls in a row as are needed that read a trusted
   loss of that size: none of them waits for another exit, and no other signal is taken for it.
   */
  lemma StopLossFires(s: Setup, events: seq<Event>)
    requires PollLog(s, events) != []
    ensures var log := PollLog(s, events);
            && (LostThroughout(log, Needed(log)) ==> FiredAmongLast(log, Needed(log)))
            && (LastFired(log) && log[|log| - 1].signal == Some("STOP_LOSS") ==> LostThroughout(log, Needed(log)))
  {
    var log := PollLog(s, events);
    if LostThroughout(log, Needed(log)) { LossesFire(s, events); }
    if LastFired(log) && log[|log| - 1].signal == Some("STOP_LOSS") { StopLossMeansLosses(s, events); }
  }

  lemma {:induction false} FiredLastWasConfirmed(s: Setup, events: seq<Event>)
    requires LastFired(PollLog(s, events))
    ensures QuietRun(PollLog(s, events), Needed(PollLog(s, events)))
  {
    var before, e := events[..|events| - 1], events[|events| - 1];
    if !State(s, before).closed && e.Poll? {
      FiringIsLogged(s, events);
      FiringEndsQuietRun(s, events);
    } else {
      assert PollLog(s, events) == PollLog(s, before);
      FiredLastWasConfirmed(s, before);
    }
  }
}
