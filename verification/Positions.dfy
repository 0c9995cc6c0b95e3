/**
 Tracked positions and their online exit machinery (state.json): the confirmed peak, trailing
 activation, the out-of-range timer, the exit debouncer and the swap-failure breaker.

 Percentages are reals, moments are milliseconds, and a missing reading is `None`.
 */
module Positions {
  import opened Money
  import opened Options

  const SYNC_GRACE_MS := 300000

  datatype Position = Position(
    closed: bool, amountSol: real, deployedAt: int,
    peak: real, pendingPeak: Option<real>, pendingPeakCount: nat,
    exitSignal: Option<string>, exitCount: nat,
    oorSince: Option<int>, trailingActive: bool)

  datatype Reading = Reading(
    pnlPct: Option<real>, flaggedSuspicious: bool, inRange: Option<bool>,
    feePerTvl: Option<real>, ageMinutes: Option<real>,
    totalUsd: Option<real>, amountSol: Option<real>, pnlUsd: Option<real>,
    activeBin: Option<int>, upperBin: Option<int>, minutesOor: Option<int>)

  datatype Rules = Rules(
    trailingTakeProfit: bool, trailingTriggerPct: real, trailingDropPct: real,
    stopLossPct: Option<real>, takeProfitPct: real,
    outOfRangeWaitMinutes: int, outOfRangeBinsToClose: int,
    minFeePerTvl: Option<real>, minAgeBeforeYieldCheck: Option<real>)

  function Fresh(amountSol: real, now: int): Position {
    Position(false, amountSol, now, 0.0, None, 0, None, 0, None, false)
  }

  // ---------- The confirmed peak ----------

  /** Whether this candidate completes the confirmation of a new peak. */
  predicate ConfirmsPeak(p: Position, candidate: Option<real>, confirmTicks: int) {
    && candidate.Some? && !p.closed && candidate.value > p.peak
    && CandidateStreak(p, candidate.value) >= confirmTicks
  }

  /** The streak of rising candidates that the candidate extends or starts. */
  function CandidateStreak(p: Position, candidate: real): nat {
    if p.pendingPeak.Some? && candidate >= p.pendingPeak.value then p.pendingPeakCount + 1 else 1
  }

  function PeakStep(p: Position, candidate: Option<real>, confirmTicks: int): Position {
    if candidate.None? || p.closed then p
    else if candidate.value <= p.peak then p.(pendingPeak := None, pendingPeakCount := if p.pendingPeak.Some? then 0 else p.pendingPeakCount)
    else if ConfirmsPeak(p, candidate, confirmTicks) then p.(peak := candidate.value, pendingPeak := None, pendingPeakCount := 0)
    else p.(pendingPeak := candidate, pendingPeakCount := CandidateStreak(p, candidate.value))
  }

  // ---------- The exit debouncer ----------

  datatype Signal = Signal(fire: bool, action: Option<string>, count: nat)

  predicate IsSignal(signal: Option<string>) {
    signal.Some? && signal.value != ""
  }

  function SignalStreak(p: Position, signal: string): nat {
    if p.exitSignal == Some(signal) then p.exitCount + 1 else 1
  }

  function ExitStep(p: Position, signal: Option<string>, confirmTicks: int): (Position, Signal) {
    if p.closed then (p, Signal(false, None, 0))
    else if !IsSignal(signal) then
      (if p.exitSignal.Some? then p.(exitSignal := None, exitCount := 0) else p, Signal(false, None, 0))
    else
      var count := SignalStreak(p, signal.value);
      if count >= confirmTicks then (p.(exitSignal := None, exitCount := 0), Signal(true, signal, count))
      else (p.(exitSignal := signal, exitCount := count), Signal(false, signal, count))
  }

  // ---------- Exit conditions ----------

  /** A deep loss on a position that still has value is a bad reading. */
  predicate IsPnlSuspect(r: Reading, trackedSol: Option<real>) {
    || r.flaggedSuspicious
    || (r.pnlPct.Some? && r.pnlPct.value <= -90.0
        && (r.totalUsd.GetOr(0.0) > 0.01 || (if r.amountSol.Some? then r.amountSol else trackedSol).GetOr(0.0) > 0.0))
  }

  function MinutesBetween(since: int, now: int): int {
    (now - since) / 60000
  }

  function WithTimers(p: Position, r: Reading, rules: Rules, now: int): Position {
    var armed := p.trailingActive || (rules.trailingTakeProfit && p.peak >= rules.trailingTriggerPct);
    p.(trailingActive := armed,
       oorSince := match r.inRange
                   case None => p.oorSince
                   case Some(true) => None
                   case Some(false) => if p.oorSince.Some? then p.oorSince else Some(now))
  }

  /** A fetch of the positions marks each as in or out of range, closed ones included. */
  function SightStep(p: Position, inRange: bool, now: int): Position {
    p.(oorSince := if inRange then None else if p.oorSince.Some? then p.oorSince else Some(now))
  }

  function DropFromPeak(p: Position, r: Reading): real {
    p.peak - r.pnlPct.GetOr(0.0)
  }

  predicate StopLossHit(r: Reading, suspect: bool, stopLossPct: Option<real>) {
    !suspect && r.pnlPct.Some? && stopLossPct.Some? && r.pnlPct.value <= stopLossPct.value
  }

  /** The first exit condition that holds once the timers are up to date. */
  function ExitCheck(p: Position, r: Reading, rules: Rules, now: int): Option<string> {
    var suspect := IsPnlSuspect(r, Some(p.amountSol));
    if StopLossHit(r, suspect, rules.stopLossPct) then Some("STOP_LOSS")
    else if !suspect && p.trailingActive && DropFromPeak(p, r) >= rules.trailingDropPct then Some("TRAILING_TP")
    else if p.oorSince.Some? && MinutesBetween(p.oorSince.value, now) >= rules.outOfRangeWaitMinutes then Some("OUT_OF_RANGE")
    else if r.feePerTvl.Some? && rules.minFeePerTvl.Some? && r.feePerTvl.value < rules.minFeePerTvl.value
            && (r.ageMinutes.None? || r.ageMinutes.value >= rules.minAgeBeforeYieldCheck.GetOr(60.0)) then Some("LOW_YIELD")
    else None
  }

  function UpdateStep(p: Position, r: Reading, rules: Rules, now: int): (Position, Option<string>) {
    if p.closed then (p, None) else
      var timed := WithTimers(p, r, rules, now);
      (timed, ExitCheck(timed, r, rules, now))
  }

  /** The deterministic rules, tried in order. A threshold that is not set compares as zero. */
  function CloseRule(r: Reading, trackedSol: Option<real>, rules: Rules): Option<string> {
    var suspect := IsPnlSuspect(r, trackedSol);
    if StopLossHit(r, suspect, Some(rules.stopLossPct.GetOr(0.0))) then Some("RULE_1")
    else if !suspect && r.pnlPct.Some? && r.pnlPct.value >= rules.takeProfitPct && r.pnlUsd.GetOr(1.0) > 0.0 then Some("RULE_2")
    else if r.activeBin.Some? && r.upperBin.Some? && r.activeBin.value > r.upperBin.value + rules.outOfRangeBinsToClose then Some("RULE_3")
    else if r.activeBin.Some? && r.upperBin.Some? && r.activeBin.value > r.upperBin.value
            && r.minutesOor.GetOr(0) >= rules.outOfRangeWaitMinutes then Some("RULE_4")
    else if r.feePerTvl.Some? && r.feePerTvl.value < rules.minFeePerTvl.GetOr(0.0) && r.ageMinutes.GetOr(0.0) >= 60.0 then Some("RULE_5")
    else None
  }

  /** The signal a poll detects: a rule-based exit, or else a deterministic rule. */
  function DetectedSignal(p: Position, r: Reading, rules: Rules, now: int): Option<string> {
    var exit := UpdateStep(p, r, rules, now).1;
    if exit.Some? then exit else CloseRule(r, Some(p.amountSol), rules)
  }

  /** One poll of one position: confirm the peak, look for an exit, debounce it. */
  function PollStep(p: Position, r: Reading, rules: Rules, confirmTicks: int, now: int): (Position, Signal) {
    var peaked := PeakStep(p, r.pnlPct, confirmTicks);
    var signal := DetectedSignal(peaked, r, rules, now);
    ExitStep(UpdateStep(peaked, r, rules, now).0, signal, confirmTicks)
  }

  /** A management cycle trusts a single tick and acts at once, without the debouncer. */
  function ManageStep(p: Position, r: Reading, rules: Rules, now: int): Position {
    UpdateStep(PeakStep(p, r.pnlPct, 1), r, rules, now).0
  }

  // ---------- The store ----------

  function Positioned(positions: map<string, Position>, address: string): Option<Position> {
    if address in positions then Some(positions[address]) else None
  }

  datatype Polled = Polled(address: string, reading: Reading)

  type Step = (Position, Reading) -> (Position, Signal)

  function Poller(rules: Rules, confirmTicks: int, now: int): Step {
    (p, r) => PollStep(p, r, rules, confirmTicks, now)
  }

  /** The positions after the readings were processed up to and including the first that fires. */
  function PollAll(positions: map<string, Position>, readings: seq<Polled>, step: Step)
    : (map<string, Position>, Option<string>)
  {
    if readings == [] then (positions, None) else
      var address := readings[0].address;
      if address !in positions then PollAll(positions, readings[1..], step) else
        var (p, signal) := step(positions[address], readings[0].reading);
        if signal.fire then (positions[address := p], Some(address))
        else PollAll(positions[address := p], readings[1..], step)
  }

  function Synced(p: Position, address: string, active: set<string>, now: int): Position {
    if p.closed || address in active || now - p.deployedAt < SYNC_GRACE_MS then p else p.(closed := true)
  }

  class PositionStore {
    var positions: map<string, Position>
    var swapFailures: nat

    constructor ()
      ensures positions == map[] && swapFailures == 0
    {
      positions, swapFailures := map[], 0;
    }

    method ConfirmPeak(address: string, candidate: Option<real>, confirmTicks: int) returns (raised: bool)
      modifies this`positions
      ensures address !in old(positions) ==> !raised && positions == old(positions)
      ensures address in old(positions) ==>
                && positions == old(positions)[address := PeakStep(old(positions)[address], candidate, confirmTicks)]
                && raised == ConfirmsPeak(old(positions)[address], candidate, confirmTicks)
    {
      if candidate.None? || address !in positions || positions[address].closed {
        return false;
      }
      var p := positions[address];
      if candidate.value <= p.peak {
        if p.pendingPeak.Some? {
          positions := positions[address := p.(pendingPeak := None, pendingPeakCount := 0)];
        }
        return false;
      }
      if p.pendingPeak.Some? && candidate.value >= p.pendingPeak.value {
        p := p.(pendingPeakCount := p.pendingPeakCount + 1, pendingPeak := candidate);
      } else {
        p := p.(pendingPeakCount := 1, pendingPeak := candidate);
      }
      raised := p.pendingPeakCount >= confirmTicks;
      if raised {
        p := p.(peak := Max(p.peak, p.pendingPeak.value), pendingPeak := None, pendingPeakCount := 0);
      }
      positions := positions[address := p];
    }

    method RegisterExitSignal(address: string, signal: Option<string>, confirmTicks: int) returns (s: Signal)
      modifies this`positions
      ensures address !in old(positions) ==> s == Signal(false, None, 0) && positions == old(positions)
      ensures address in old(positions) ==>
                var step := ExitStep(old(positions)[address], signal, confirmTicks);
                positions == old(positions)[address := step.0] && s == step.1
    {
      if address !in positions || positions[address].closed {
        return Signal(false, None, 0);
      }
      var p := positions[address];
      if signal.None? || signal.value == "" {
        if p.exitSignal.Some? {
          positions := positions[address := p.(exitSignal := None, exitCount := 0)];
        }
        return Signal(false, None, 0);
      }
      if p.exitSignal == signal {
        p := p.(exitCount := p.exitCount + 1);
      } else {
        p := p.(exitSignal := signal, exitCount := 1);
      }
      s := Signal(p.exitCount >= confirmTicks, signal, p.exitCount);
      if s.fire {
        p := p.(exitSignal := None, exitCount := 0);
      }
      positions := positions[address := p];
    }

    method UpdatePnlAndCheckExits(address: string, r: Reading, rules: Rules, now: int) returns (exit: Option<string>)
      modifies this`positions
      ensures address !in old(positions) ==> exit == None && positions == old(positions)
      ensures address in old(positions) ==>
                var step := UpdateStep(old(positions)[address], r, rules, now);
                positions == old(positions)[address := step.0] && exit == step.1
    {
      if address !in positions || positions[address].closed {
        return None;
      }
      var p := positions[address];
      if rules.trailingTakeProfit && !p.trailingActive && p.peak >= rules.trailingTriggerPct {
        p := p.(trailingActive := true);
      }
      if r.inRange == Some(false) && p.oorSince.None? {
        p := p.(oorSince := Some(now));
      } else if r.inRange == Some(true) && p.oorSince.Some? {
        p := p.(oorSince := None);
      }
      positions := positions[address := p];
      exit := ExitCheck(p, r, rules, now);
    }

    method MarkOutOfRange(address: string, now: int)
      modifies this`positions
      ensures positions == if address in old(positions) then old(positions)[address := SightStep(old(positions)[address], false, now)]
                           else old(positions)
    {
      if address in positions && positions[address].oorSince.None? {
        positions := positions[address := positions[address].(oorSince := Some(now))];
      }
    }

    method MarkInRange(address: string, now: int)
      modifies this`positions
      ensures positions == if address in old(positions) then old(positions)[address := SightStep(old(positions)[address], true, now)]
                           else old(positions)
    {
      if address in positions && positions[address].oorSince.Some? {
        positions := positions[address := positions[address].(oorSince := None)];
      }
    }

    /** One tick of the poller. At most one position fires, and those after it wait for the next tick. */
    method PollTick(readings: seq<Polled>, rules: Rules, confirmTicks: int, now: int) returns (fired: Option<string>)
      modifies this`positions
      ensures (positions, fired) == PollAll(old(positions), readings, Poller(rules, confirmTicks, now))
    {
      fired := None;
      var i := 0;
      while i < |readings|
        invariant i <= |readings|
        invariant PollAll(positions, readings[i..], Poller(rules, confirmTicks, now)) ==
                  PollAll(old(positions), readings, Poller(rules, confirmTicks, now))
      {
        var address, r := readings[i].address, readings[i].reading;
        assert readings[i..][0] == readings[i] && readings[i..][1..] == readings[i + 1..];
        ghost var before := positions;
        var _ := ConfirmPeak(address, r.pnlPct, confirmTicks);
        var tracked := Positioned(positions, address);
        var exit := UpdatePnlAndCheckExits(address, r, rules, now);
        var signal := exit;
        if exit.None? {
          signal := CloseRule(r, if tracked.Some? then Some(tracked.value.amountSol) else None, rules);
        }
        var s := RegisterExitSignal(address, signal, confirmTicks);
        if address in before {
          assert positions == before[address := PollStep(before[address], r, rules, confirmTicks, now).0];
        }
        if s.fire {
          return Some(address);
        }
        i := i + 1;
      }
    }

    method SyncOpenPositions(active: set<string>, now: int)
      modifies this`positions
      ensures positions == map address | address in old(positions) :: Synced(old(positions)[address], address, active, now)
    {
      var todo := positions.Keys;
      while todo != {}
        invariant todo <= positions.Keys == old(positions).Keys
        invariant forall address :: address in positions ==>
                    positions[address] == if address in todo then old(positions)[address]
                                          else Synced(old(positions)[address], address, active, now)
        decreases todo
      {
        var address :| address in todo;
        var p := positions[address];
        if !p.closed && address !in active && now - p.deployedAt >= SYNC_GRACE_MS {
          positions := positions[address := p.(closed := true)];
        }
        todo := todo - {address};
      }
    }

    method RecordSwapFailure() returns (failures: nat)
      modifies this`swapFailures
      ensures failures == swapFailures == BreakerStep(old(swapFailures), SwapFailed)
    {
      swapFailures := swapFailures + 1;
      failures := swapFailures;
    }

    method RecordSwapSuccess() returns (failures: nat)
      modifies this`swapFailures
      ensures failures == swapFailures == BreakerStep(old(swapFailures), SwapSucceeded)
    {
      if swapFailures > 0 {
        swapFailures := swapFailures - 1;
      }
      failures := swapFailures;
    }

    method ResetConsecutiveSwapFailures()
      modifies this`swapFailures
      ensures swapFailures == BreakerStep(old(swapFailures), Reset)
    {
      swapFailures := 0;
    }

    method GetHalted(haltOnSwapFailure: bool, threshold: int) returns (halted: bool)
      ensures halted == IsHalted(swapFailures, haltOnSwapFailure, threshold)
    {
      halted := haltOnSwapFailure && swapFailures >= threshold;
    }
  }

  // ---------- The swap-failure breaker ----------

  datatype SwapEvent = SwapFailed | SwapSucceeded | Reset

  function BreakerStep(failures: nat, e: SwapEvent): nat {
    match e
    case SwapFailed => failures + 1
    case SwapSucceeded => if failures > 0 then failures - 1 else 0
    case Reset => 0
  }

  predicate IsHalted(failures: nat, haltOnSwapFailure: bool, threshold: int) {
    haltOnSwapFailure && failures >= threshold
  }
}
