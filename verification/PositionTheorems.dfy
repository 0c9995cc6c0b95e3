/**
 The online counters of a tracked position, each compared with what it stands for over the whole
 history of the position.
 */
module PositionTheorems {
  import opened Options
  import opened Positions

  /**
   What can happen to a position: a poll or a management cycle, under the configuration of its moment, a
   fetch of the positions for whatever purpose that marks its range, or its close.
   */
  datatype Event =
    | Poll(reading: Reading, rules: Rules, confirmTicks: int, now: int)
    | Manage(reading: Reading, rules: Rules, now: int)
    | Sighted(inRange: bool, now: int)
    | Close

  datatype Setup = Setup(amountSol: real, deployedAt: int)

  function Next(p: Position, e: Event): Position {
    match e
    case Poll(r, rules, confirmTicks, now) => PollStep(p, r, rules, confirmTicks, now).0
    case Manage(r, rules, now) => if p.closed then p else ManageStep(p, r, rules, now)
    case Sighted(inRange, now) => SightStep(p, inRange, now)
    case Close => p.(closed := true)
  }

  predicate HasReading(e: Event) {
    e.Poll? || e.Manage?
  }

  function State(s: Setup, events: seq<Event>): Position {
    if events == [] then Fresh(s.amountSol, s.deployedAt)
    else Next(State(s, events[..|events| - 1]), events[|events| - 1])
  }

  // ---------- The confirmed peak ----------

  /** A candidate met while the position was open, and how many ticks it took to confirm one then. */
  datatype Tick = Tick(value: real, confirmTicks: int)

  function TickOf(p: Position, e: Event): seq<Tick> {
    if p.closed || !HasReading(e) || e.reading.pnlPct.None? then []
    else [Tick(e.reading.pnlPct.value, if e.Poll? then e.confirmTicks else 1)]
  }

  function Ticks(s: Setup, events: seq<Event>): seq<Tick> {
    if events == [] then [] else
      var before := events[..|events| - 1];
      Ticks(s, before) + TickOf(State(s, before), events[|events| - 1])
  }

  /** The last candidates, as many as the last one needs, never fall and all lie above the floor. */
  ghost predicate RisingWindow(ts: seq<Tick>, floor: real) {
    && ts != []
    && var w := if ts[|ts| - 1].confirmTicks < 1 then 1 else ts[|ts| - 1].confirmTicks;
       RisingSuffix(ts, floor, w)
  }

  ghost predicate RisingSuffix(ts: seq<Tick>, floor: real, w: int) {
    && 1 <= w <= |ts|
    && (forall i :: |ts| - w <= i < |ts| ==> ts[i].value > floor)
    && (forall i :: |ts| - w < i < |ts| ==> ts[i - 1].value <= ts[i].value)
  }

  /** The peak that a whole history of candidates justifies. */
  ghost function JustifiedPeak(ts: seq<Tick>): real {
    if ts == [] then 0.0 else
      var before := JustifiedPeak(ts[..|ts| - 1]);
      if RisingWindow(ts, before) then ts[|ts| - 1].value else before
  }

  /** The length of the longest rising suffix above the floor. */
  ghost function Streak(ts: seq<Tick>, floor: real): nat {
    var n := |ts| - 1;
    if ts == [] || ts[n].value <= floor then 0
    else if n > 0 && ts[n - 1].value > floor && ts[n - 1].value <= ts[n].value then Streak(ts[..n], floor) + 1
    else 1
  }

  lemma {:induction false} StreakMeasuresSuffix(ts: seq<Tick>, floor: real, w: int)
    requires w >= 1
    ensures Streak(ts, floor) >= w <==> RisingSuffix(ts, floor, w)
  {
    if ts != [] && w > 1 {
      var n := |ts| - 1;
      StreakMeasuresSuffix(ts[..n], floor, w - 1);
      if RisingSuffix(ts, floor, w) {
        assert ts[n - 1].value > floor && ts[n - 1].value <= ts[n].value;
        assert RisingSuffix(ts[..n], floor, w - 1);
      }
    }
  }

  /** The fields that confirm a peak, read off the history of candidates. */
  ghost predicate PeakFieldsMatch(p: Position, ts: seq<Tick>) {
    && p.peak == JustifiedPeak(ts)
    && p.pendingPeakCount == Streak(ts, p.peak)
    && p.pendingPeak == (if p.pendingPeakCount > 0 then Some(ts[|ts| - 1].value) else None)
  }

  lemma PeakStepMatches(p: Position, ts: seq<Tick>, value: real, confirmTicks: int)
    requires PeakFieldsMatch(p, ts) && !p.closed
    ensures PeakFieldsMatch(PeakStep(p, Some(value), confirmTicks), ts + [Tick(value, confirmTicks)])
    ensures ConfirmsPeak(p, Some(value), confirmTicks) <==> RisingWindow(ts + [Tick(value, confirmTicks)], p.peak)
  {
    var after := ts + [Tick(value, confirmTicks)];
    assert after[..|ts|] == ts;
    StreakMeasuresSuffix(after, p.peak, if confirmTicks < 1 then 1 else confirmTicks);
    if value > p.peak {
      assert Streak(after, p.peak) == CandidateStreak(p, value) by {
        if ts != [] && ts[|ts| - 1].value > p.peak {
          assert Streak(ts, p.peak) >= 1;
        }
      }
    }
  }

  lemma UpdateKeepsPeakFields(p: Position, r: Reading, rules: Rules, now: int)
    ensures var after := UpdateStep(p, r, rules, now).0;
            && after.peak == p.peak && after.pendingPeak == p.pendingPeak
            && after.pendingPeakCount == p.pendingPeakCount && after.closed == p.closed
            && after.exitSignal == p.exitSignal && after.exitCount == p.exitCount && after.amountSol == p.amountSol
  {
  }

  lemma SamePeakFields(p: Position, q: Position, ts: seq<Tick>)
    requires PeakFieldsMatch(p, ts)
    requires q.peak == p.peak && q.pendingPeak == p.pendingPeak && q.pendingPeakCount == p.pendingPeakCount
    ensures PeakFieldsMatch(q, ts)
  {
  }

  lemma ReadingMatches(p: Position, e: Event, k: int, ts: seq<Tick>)
    requires HasReading(e) && !p.closed && PeakFieldsMatch(p, ts)
    ensures PeakFieldsMatch(PeakStep(p, e.reading.pnlPct, k),
                            ts + if e.reading.pnlPct.None? then [] else [Tick(e.reading.pnlPct.value, k)])
  {
    if e.reading.pnlPct.Some? {
      PeakStepMatches(p, ts, e.reading.pnlPct.value, k);
    } else {
      assert ts + [] == ts;
    }
  }

  /** After the candidate, an event leaves the peak alone. */
  lemma NextKeepsPeakFields(p: Position, e: Event)
    requires HasReading(e) && !p.closed
    ensures var peaked, q := PeakStep(p, e.reading.pnlPct, if e.Poll? then e.confirmTicks else 1), Next(p, e);
            q.peak == peaked.peak && q.pendingPeak == peaked.pendingPeak && q.pendingPeakCount == peaked.pendingPeakCount
  {
    UpdateKeepsPeakFields(PeakStep(p, e.reading.pnlPct, if e.Poll? then e.confirmTicks else 1), e.reading, e.rules, e.now);
  }

  lemma NextMatches(p: Position, e: Event, ts: seq<Tick>)
    requires PeakFieldsMatch(p, ts)
    ensures PeakFieldsMatch(Next(p, e), ts + TickOf(p, e))
  {
    if p.closed || !HasReading(e) {
      assert ts + TickOf(p, e) == ts;
      SamePeakFields(p, Next(p, e), ts);
    } else {
      var k := if e.Poll? then e.confirmTicks else 1;
      ReadingMatches(p, e, k, ts);
      NextKeepsPeakFields(p, e);
      SamePeakFields(PeakStep(p, e.reading.pnlPct, k), Next(p, e), ts + TickOf(p, e));
    }
  }

  /**
   The stored peak is at every moment the one its candidates justify: it is raised to a candidate
   exactly when the last candidates, as many as are needed to confirm it, never fall and all lie above
   the peak before. Polls and management cycles may alternate.
   */
  lemma {:induction false} PeakRefinesHistory(s: Setup, events: seq<Event>)
    ensures PeakFieldsMatch(State(s, events), Ticks(s, events))
  {
    if events != [] {
      var before, e := events[..|events| - 1], events[|events| - 1];
      PeakRefinesHistory(s, before);
      NextMatches(State(s, before), e, Ticks(s, before));
    }
  }

  lemma NextKeepsPeak(p: Position, e: Event)
    ensures p.peak <= Next(p, e).peak
  {
    if HasReading(e) && !p.closed {
      UpdateKeepsPeakFields(PeakStep(p, e.reading.pnlPct, if e.Poll? then e.confirmTicks else 1), e.reading, e.rules, e.now);
    }
  }

  lemma StateOfMore(s: Setup, events: seq<Event>, e: Event)
    ensures State(s, events + [e]) == Next(State(s, events), e)
  {
    assert (events + [e])[..|events|] == events;
  }

  lemma StateAfter(s: Setup, events: seq<Event>, later: seq<Event>)
    requires later != []
    ensures var n := |later| - 1; State(s, events + later) == Next(State(s, events + later[..n]), later[n])
  {
    var n := |later| - 1;
    assert events + later == (events + later[..n]) + [later[n]];
    StateOfMore(s, events + later[..n], later[n]);
  }

  /** Events only ever add candidates, and the peak never falls. */
  lemma {:induction false} PeakNeverFalls(s: Setup, events: seq<Event>, later: seq<Event>)
    ensures State(s, events).peak <= State(s, events + later).peak
    decreases |later|
  {
    if later == [] {
      assert events + later == events;
    } else {
      var n := |later| - 1;
      PeakNeverFalls(s, events, later[..n]);
      StateAfter(s, events, later);
      NextKeepsPeak(State(s, events + later[..n]), later[n]);
    }
  }

  /** A peak above the initial zero was confirmed by a rising window that ended in it. */
  ghost predicate ConfirmedAt(ts: seq<Tick>, n: nat) {
    && 0 < n <= |ts|
    && ts[n - 1].value == JustifiedPeak(ts)
    && RisingWindow(ts[..n], JustifiedPeak(ts[..n - 1]))
  }

  lemma {:induction false} PositivePeakWasConfirmed(ts: seq<Tick>) returns (n: nat)
    ensures n == 0 ==> JustifiedPeak(ts) == 0.0
    ensures n > 0 ==> ConfirmedAt(ts, n)
  {
    n := 0;
    if ts != [] {
      var m := |ts| - 1;
      if RisingWindow(ts, JustifiedPeak(ts[..m])) {
        n := |ts|;
        assert ts[..n] == ts;
      } else {
        n := PositivePeakWasConfirmed(ts[..m]);
        if n > 0 {
          assert ts[..m][..n] == ts[..n] && ts[..m][..n - 1] == ts[..n - 1];
        }
      }
    }
  }

  // ---------- The exit debouncer ----------

  /** What a poll of an open position saw, once the peak and the timers were up to date, and whether it fired. */
  datatype PollRecord = PollRecord(
    position: Position, reading: Reading, now: int, signal: Option<string>, rules: Rules, confirmTicks: int, fired: bool)

  function RecordOf(p: Position, e: Event): seq<PollRecord> {
    if p.closed || !e.Poll? then [] else
      var peaked := PeakStep(p, e.reading.pnlPct, e.confirmTicks);
      [PollRecord(UpdateStep(peaked, e.reading, e.rules, e.now).0, e.reading, e.now,
                  DetectedSignal(peaked, e.reading, e.rules, e.now), e.rules, e.confirmTicks,
                  PollStep(p, e.reading, e.rules, e.confirmTicks, e.now).1.fire)]
  }

  function PollLog(s: Setup, events: seq<Event>): seq<PollRecord> {
    if events == [] then [] else
      var before := events[..|events| - 1];
      PollLog(s, before) + RecordOf(State(s, before), events[|events| - 1])
  }

  /** The length of the run of the same signal at the end of the log, since the last poll that fired. */
  function RunSinceFire(log: seq<PollRecord>): nat {
    var n := |log| - 1;
    if log == [] || !IsSignal(log[n].signal) then 0
    else if n > 0 && log[n - 1].signal == log[n].signal && !log[n - 1].fired then RunSinceFire(log[..n]) + 1
    else 1
  }

  /** The last polls, this many, agree on their signal, and none but the last of them may have fired. */
  ghost predicate QuietRun(log: seq<PollRecord>, w: nat) {
    && 1 <= w <= |log| && IsSignal(log[|log| - 1].signal)
    && (forall i :: |log| - w <= i < |log| ==> log[i].signal == log[|log| - 1].signal)
    && (forall i :: |log| - w <= i < |log| - 1 ==> !log[i].fired)
  }

  lemma {:induction false} RunMeasuresQuiet(log: seq<PollRecord>, w: nat)
    requires w >= 1
    ensures RunSinceFire(log) >= w <==> QuietRun(log, w)
  {
    if log != [] && w > 1 {
      var n := |log| - 1;
      RunMeasuresQuiet(log[..n], w - 1);
      if QuietRun(log, w) {
        assert log[n - 1].signal == log[n].signal && !log[n - 1].fired;
        assert QuietRun(log[..n], w - 1);
      }
    }
  }

  predicate LastFired(log: seq<PollRecord>) {
    log != [] && log[|log| - 1].fired
  }

  ghost predicate ExitFieldsMatch(p: Position, log: seq<PollRecord>) {
    && p.exitCount == (if LastFired(log) then 0 else RunSinceFire(log))
    && p.exitSignal == (if p.exitCount > 0 then log[|log| - 1].signal else None)
  }

  /** Whether the last event makes the position fire. */
  predicate Fires(s: Setup, events: seq<Event>) {
    && events != []
    && var before, e := State(s, events[..|events| - 1]), events[|events| - 1];
       e.Poll? && PollStep(before, e.reading, e.rules, e.confirmTicks, e.now).1.fire
  }

  lemma RunSinceFireOfMore(log: seq<PollRecord>, rec: PollRecord)
    ensures RunSinceFire(log + [rec]) ==
            if !IsSignal(rec.signal) then 0
            else if log != [] && log[|log| - 1].signal == rec.signal && !LastFired(log) then RunSinceFire(log) + 1
            else 1
  {
    assert (log + [rec])[..|log|] == log;
  }

  /** The debouncer's counter is the run since the last firing, and it fires once the run is long enough. */
  lemma ExitStepMatches(p: Position, log: seq<PollRecord>, rec: PollRecord)
    requires ExitFieldsMatch(p, log) && !p.closed && rec.fired == ExitStep(p, rec.signal, rec.confirmTicks).1.fire
    ensures ExitFieldsMatch(ExitStep(p, rec.signal, rec.confirmTicks).0, log + [rec])
    ensures rec.fired <==> IsSignal(rec.signal) && RunSinceFire(log + [rec]) >= rec.confirmTicks
  {
    RunSinceFireOfMore(log, rec);
  }

  /** What a poll of an open position does, seen from its record. */
  lemma PollMatches(p: Position, e: Event, log: seq<PollRecord>)
    requires e.Poll? && !p.closed && ExitFieldsMatch(p, log)
    ensures var rec := RecordOf(p, e)[0];
            && ExitFieldsMatch(Next(p, e), log + [rec])
            && (rec.fired <==> IsSignal(rec.signal) && RunSinceFire(log + [rec]) >= rec.confirmTicks)
  {
    var peaked := PeakStep(p, e.reading.pnlPct, e.confirmTicks);
    UpdateKeepsPeakFields(peaked, e.reading, e.rules, e.now);
    ExitStepMatches(UpdateStep(peaked, e.reading, e.rules, e.now).0, log, RecordOf(p, e)[0]);
  }

  lemma OthersKeepExitFields(p: Position, e: Event)
    requires p.closed || !e.Poll?
    ensures Next(p, e).exitCount == p.exitCount && Next(p, e).exitSignal == p.exitSignal
  {
    if !p.closed && e.Manage? {
      UpdateKeepsPeakFields(PeakStep(p, e.reading.pnlPct, 1), e.reading, e.rules, e.now);
    }
  }

  lemma {:induction false} ExitFieldsRefineHistory(s: Setup, events: seq<Event>)
    ensures ExitFieldsMatch(State(s, events), PollLog(s, events))
  {
    if events != [] {
      var before, e := events[..|events| - 1], events[|events| - 1];
      var p := State(s, before);
      ExitFieldsRefineHistory(s, before);
      if !p.closed && e.Poll? {
        PollMatches(p, e, PollLog(s, before));
      } else {
        assert PollLog(s, events) == PollLog(s, before);
        OthersKeepExitFields(p, e);
      }
    }
  }

  /** Some run that is long enough for its last poll has not fired before. */
  ghost predicate IsConfirmed(log: seq<PollRecord>) {
    log != [] && exists w: nat :: w >= log[|log| - 1].confirmTicks && QuietRun(log, w)
  }

  /**
   Under configurations that may change from tick to tick, a poll fires exactly when the position is open
   and the last polls, at least as many as this tick needs to confirm an exit, agree on their signal and
   none of the earlier ones among them fired.
   */
  lemma FiresIff(s: Setup, events: seq<Event>)
    ensures Fires(s, events) <==>
            && events != [] && events[|events| - 1].Poll? && !State(s, events[..|events| - 1]).closed
            && IsConfirmed(PollLog(s, events))
  {
    if events != [] {
      var before, e := events[..|events| - 1], events[|events| - 1];
      var p, log := State(s, before), PollLog(s, events);
      if !p.closed && e.Poll? {
        ExitFieldsRefineHistory(s, before);
        PollMatches(p, e, PollLog(s, before));
        ConfirmedIff(log);
      }
    }
  }

  lemma ConfirmedIff(log: seq<PollRecord>)
    requires log != []
    ensures IsConfirmed(log) <==> IsSignal(log[|log| - 1].signal) && RunSinceFire(log) >= log[|log| - 1].confirmTicks
  {
    if RunSinceFire(log) >= 1 { RunMeasuresQuiet(log, RunSinceFire(log)); }
    if w: nat :| w >= log[|log| - 1].confirmTicks && QuietRun(log, w) {
      RunMeasuresQuiet(log, w);
    }
  }

  // ---------- With one count throughout ----------

  /** The length of the unbroken run of the same signal at the end of the log. */
  function SignalRun(log: seq<PollRecord>): nat {
    var n := |log| - 1;
    if log == [] || !IsSignal(log[n].signal) then 0
    else if n > 0 && log[n - 1].signal == log[n].signal then SignalRun(log[..n]) + 1
    else 1
  }

  ghost predicate HasCount(log: seq<PollRecord>, k: int) {
    forall i :: 0 <= i < |log| ==> log[i].confirmTicks == k
  }

  lemma ProductIsNonNegative(x: int, y: int)
    requires x >= 0 && y >= 0
    ensures x * y >= 0
  {
  }

  lemma ResidueOf(q: nat, r: nat, k: int)
    requires k >= 1 && r < k
    ensures (q * k + r) % k == r
  {
    var x := q * k + r;
    var d := x / k;
    assert x == k * d + x % k;
    if d < q {
      ProductIsNonNegative(q - d - 1, k);
    } else if d > q {
      ProductIsNonNegative(d - q - 1, k);
    }
  }

  lemma NextResidue(run: nat, k: int)
    requires k >= 1
    ensures (run + 1) % k == if run % k + 1 == k then 0 else run % k + 1
  {
    var q, r := run / k, run % k;
    if r + 1 == k {
      assert run + 1 == (q + 1) * k + 0;
      ResidueOf(q + 1, 0, k);
    } else {
      assert run + 1 == q * k + (r + 1);
      ResidueOf(q, r + 1, k);
    }
  }

  /** What is left of the run since the last firing, when every firing took the same count. */
  predicate IsResidue(since: nat, fired: bool, run: nat, k: int)
    requires k >= 1
  {
    if run == 0 then since == 0 && !fired
    else if run % k == 0 then since == k && fired
    else since == run % k && !fired
  }

  lemma ResidueStep(since: nat, fired: bool, run: nat, k: int, same: bool)
    requires k >= 1 && IsResidue(since, fired, run, k)
    ensures var next := if same && !fired && run > 0 then since + 1 else 1;
            IsResidue(next, next >= k, if same && run > 0 then run + 1 else 1, k)
  {
    NextResidue(0, k);
    NextResidue(run, k);
  }

  lemma SignalRunOfMore(log: seq<PollRecord>, rec: PollRecord)
    ensures SignalRun(log + [rec]) ==
            if !IsSignal(rec.signal) then 0
            else if log != [] && log[|log| - 1].signal == rec.signal then SignalRun(log) + 1
            else 1
  {
    assert (log + [rec])[..|log|] == log;
  }

  lemma RunIsPositive(log: seq<PollRecord>)
    requires log != []
    ensures SignalRun(log) > 0 <==> IsSignal(log[|log| - 1].signal)
  {
  }

  lemma CountedStep(log: seq<PollRecord>, rec: PollRecord, k: int)
    requires k >= 1 && rec.confirmTicks == k && IsResidue(RunSinceFire(log), LastFired(log), SignalRun(log), k)
    requires rec.fired <==> IsSignal(rec.signal) && RunSinceFire(log + [rec]) >= k
    ensures IsResidue(RunSinceFire(log + [rec]), LastFired(log + [rec]), SignalRun(log + [rec]), k)
  {
    RunSinceFireOfMore(log, rec);
    SignalRunOfMore(log, rec);
    if IsSignal(rec.signal) {
      var same := log != [] && log[|log| - 1].signal == rec.signal;
      if log != [] { RunIsPositive(log); }
      ResidueStep(RunSinceFire(log), LastFired(log), SignalRun(log), k, same);
    }
  }

  lemma {:induction false} CountedRun(s: Setup, events: seq<Event>, k: int)
    requires k >= 1 && HasCount(PollLog(s, events), k)
    ensures var log := PollLog(s, events); IsResidue(RunSinceFire(log), LastFired(log), SignalRun(log), k)
  {
    if events != [] {
      var before, e := events[..|events| - 1], events[|events| - 1];
      var p, log := State(s, before), PollLog(s, before);
      assert PollLog(s, events) == log + RecordOf(p, e);
      assert HasCount(log, k) by {
        forall i | 0 <= i < |log| ensures log[i].confirmTicks == k { assert PollLog(s, events)[i] == log[i]; }
      }
      CountedRun(s, before, k);
      if !p.closed && e.Poll? {
        var rec := RecordOf(p, e)[0];
        assert PollLog(s, events)[|log|] == rec;
        assert RecordOf(p, e) == [rec];
        ExitFieldsRefineHistory(s, before);
        PollMatches(p, e, log);
        CountedStep(log, rec, k);
      } else {
        assert PollLog(s, events) == log;
      }
    }
  }

  /**
   When the count was the same at every poll, one fires exactly when the position is open and the unbroken
   run of the same signal that ends in it has a length that is a positive multiple of the count.
   */
  lemma FiresOnMultiplesOfTheCount(s: Setup, events: seq<Event>, k: int)
    requires k >= 1 && HasCount(PollLog(s, events), k)
    ensures Fires(s, events) <==>
            && events != [] && events[|events| - 1].Poll? && !State(s, events[..|events| - 1]).closed
            && SignalRun(PollLog(s, events)) > 0 && SignalRun(PollLog(s, events)) % k == 0
  {
    CountedRun(s, events, k);
    if events != [] && events[|events| - 1].Poll? && !State(s, events[..|events| - 1]).closed {
      FiringIsLogged(s, events);
    }
  }

  lemma FiringIsLogged(s: Setup, events: seq<Event>)
    requires events != [] && events[|events| - 1].Poll? && !State(s, events[..|events| - 1]).closed
    ensures PollLog(s, events) != [] && (LastFired(PollLog(s, events)) <==> Fires(s, events))
  {
    var p, e := State(s, events[..|events| - 1]), events[|events| - 1];
    var log := PollLog(s, events);
    assert log[|log| - 1] == RecordOf(p, e)[0];
  }

  // ---------- Why a trailing take-profit closes ----------

  /** A poll that found the position at least the drop of its configuration below its peak, on a credible reading. */
  ghost predicate FellFromPeak(rec: PollRecord) {
    && rec.position.trailingActive
    && !IsPnlSuspect(rec.reading, Some(rec.position.amountSol))
    && DropFromPeak(rec.position, rec.reading) >= rec.rules.trailingDropPct
  }

  ghost predicate SignalsExplained(log: seq<PollRecord>) {
    forall i :: 0 <= i < |log| && log[i].signal == Some("TRAILING_TP") ==> FellFromPeak(log[i])
  }

  lemma TrailingSignalMeans(p: Position, e: Event)
    requires e.Poll? && !p.closed && RecordOf(p, e)[0].signal == Some("TRAILING_TP")
    ensures FellFromPeak(RecordOf(p, e)[0])
  {
    assert "RULE_1"[0] != "TRAILING_TP"[0];
    assert "RULE_2"[0] != "TRAILING_TP"[0];
    assert "RULE_3"[0] != "TRAILING_TP"[0];
    assert "RULE_4"[0] != "TRAILING_TP"[0];
    assert "RULE_5"[0] != "TRAILING_TP"[0];
    assert "STOP_LOSS"[0] != "TRAILING_TP"[0];
    assert "OUT_OF_RANGE"[0] != "TRAILING_TP"[0];
    assert "LOW_YIELD"[0] != "TRAILING_TP"[0];
  }

  lemma {:induction false} TrailingSignalsAreExplained(s: Setup, events: seq<Event>)
    ensures SignalsExplained(PollLog(s, events))
  {
    if events != [] {
      var before, e := events[..|events| - 1], events[|events| - 1];
      var p := State(s, before);
      TrailingSignalsAreExplained(s, before);
      if !p.closed && e.Poll? && RecordOf(p, e)[0].signal == Some("TRAILING_TP") { TrailingSignalMeans(p, e); }
    }
  }

  /** Event `i` found the open position's peak at the trigger of its configuration, with the trailing take-profit switched on. */
  predicate ArmsAt(s: Setup, events: seq<Event>, i: nat) {
    && i < |events| && !State(s, events[..i]).closed && HasReading(events[i]) && events[i].rules.trailingTakeProfit
    && State(s, events[..i + 1]).peak >= events[i].rules.trailingTriggerPct
  }

  ghost predicate WasArmed(s: Setup, events: seq<Event>) {
    exists i :: ArmsAt(s, events, i)
  }

  lemma ArmsInMore(s: Setup, events: seq<Event>, i: nat)
    requires events != [] && i < |events| - 1
    ensures ArmsAt(s, events[..|events| - 1], i) <==> ArmsAt(s, events, i)
  {
    assert events[..|events| - 1][..i + 1] == events[..i + 1] && events[..|events| - 1][..i] == events[..i];
  }

  predicate Arms(p: Position, e: Event) {
    !p.closed && HasReading(e) && e.rules.trailingTakeProfit && Next(p, e).peak >= e.rules.trailingTriggerPct
  }

  lemma NextArms(p: Position, e: Event)
    ensures Next(p, e).trailingActive <==> p.trailingActive || Arms(p, e)
  {
  }

  lemma LastArms(s: Setup, events: seq<Event>)
    requires events != []
    ensures ArmsAt(s, events, |events| - 1) <==> Arms(State(s, events[..|events| - 1]), events[|events| - 1])
  {
    assert events[..|events| - 1 + 1] == events;
  }

  /** Trailing is armed exactly once the peak has reached the trigger at some poll or management cycle. */
  lemma {:induction false} ArmedIffPeakReached(s: Setup, events: seq<Event>)
    ensures State(s, events).trailingActive <==> WasArmed(s, events)
  {
    if events != [] {
      var n := |events| - 1;
      ArmedIffPeakReached(s, events[..n]);
      NextArms(State(s, events[..n]), events[n]);
      LastArms(s, events);
      forall i: nat | i < n ensures ArmsAt(s, events[..n], i) <==> ArmsAt(s, events, i) { ArmsInMore(s, events, i); }
      if WasArmed(s, events[..n]) {
        var i: nat :| ArmsAt(s, events[..n], i);
        assert ArmsAt(s, events, i);
      }
    }
  }

  /** How many polls in a row the last one needs: at least itself. */
  function Needed(log: seq<PollRecord>): (n: int)
    requires log != []
    ensures n >= 1
  {
    if log[|log| - 1].confirmTicks < 1 then 1 else log[|log| - 1].confirmTicks
  }

  /** A poll that fires ends a quiet run of the length it needs. */
  lemma FiringEndsQuietRun(s: Setup, events: seq<Event>)
    requires Fires(s, events)
    ensures PollLog(s, events) != [] && QuietRun(PollLog(s, events), Needed(PollLog(s, events)))
  {
    var log := PollLog(s, events);
    FiresIff(s, events);
    ConfirmedIff(log);
    RunMeasuresQuiet(log, Needed(log));
    RunMeasuresQuiet(log, 1);
  }

  lemma FiringPollIsArmed(s: Setup, events: seq<Event>)
    requires Fires(s, events) && PollLog(s, events) != []
    ensures var log := PollLog(s, events); State(s, events).trailingActive == log[|log| - 1].position.trailingActive
  {
    var p, e := State(s, events[..|events| - 1]), events[|events| - 1];
    assert !p.closed;
    var log := PollLog(s, events);
    assert log[|log| - 1] == RecordOf(p, e)[0];
  }

  /** Each of the last polls signalled a trailing take-profit, and rightly so. */
  ghost predicate FellThroughout(log: seq<PollRecord>, w: int) {
    && w <= |log|
    && forall i :: 0 <= i && |log| - w <= i < |log| ==> log[i].signal == Some("TRAILING_TP") && FellFromPeak(log[i])
  }

  ghost predicate SignalsTrailing(log: seq<PollRecord>) {
    log != [] && log[|log| - 1].signal == Some("TRAILING_TP")
  }

  ghost predicate WasConfirmed(ts: seq<Tick>) {
    exists n :: ConfirmedAt(ts, n)
  }

  lemma PeakWasConfirmed(p: Position, ts: seq<Tick>)
    requires PeakFieldsMatch(p, ts)
    ensures p.peak == 0.0 || WasConfirmed(ts)
  {
    var n := PositivePeakWasConfirmed(ts);
  }

  lemma PeakIsKeptFrom(s: Setup, events: seq<Event>, n: nat)
    requires n <= |events|
    ensures State(s, events[..n]).peak <= State(s, events).peak
  {
    assert events[..n] + events[n..] == events;
    PeakNeverFalls(s, events[..n], events[n..]);
  }

  /** Some event armed the trailing take-profit, and the peak is still at the trigger it had then. */
  ghost predicate PeakReachedTrigger(s: Setup, events: seq<Event>) {
    exists i: nat :: ArmsAt(s, events, i) && State(s, events).peak >= events[i].rules.trailingTriggerPct
  }

  lemma TrailingCloseMeansArmed(s: Setup, events: seq<Event>)
    requires Fires(s, events) && SignalsTrailing(PollLog(s, events))
    ensures WasArmed(s, events)
  {
    var log := PollLog(s, events);
    FiringPollIsArmed(s, events);
    TrailingSignalsAreExplained(s, events);
    assert FellFromPeak(log[|log| - 1]);
    ArmedIffPeakReached(s, events);
  }

  lemma ArmingPeakIsKept(s: Setup, events: seq<Event>)
    requires WasArmed(s, events)
    ensures PeakReachedTrigger(s, events)
  {
    var i: nat :| ArmsAt(s, events, i);
    PeakIsKeptFrom(s, events, i + 1);
  }

  /**
   When a poll closes a position as a trailing take-profit, each of the last polls, as many as this one
   needed to confirm an exit, found it at least the drop configured then below its peak on a credible
   reading; and at some poll or management cycle the peak had reached the trigger configured then, either
   from the start or by a rising window of candidates that ended in the peak.
   */
  lemma TrailingCloseIsExplained(s: Setup, events: seq<Event>)
    requires Fires(s, events) && SignalsTrailing(PollLog(s, events))
    ensures FellThroughout(PollLog(s, events), Needed(PollLog(s, events)))
    ensures PeakReachedTrigger(s, events)
    ensures State(s, events).peak == 0.0 || WasConfirmed(Ticks(s, events))
  {
    FiringEndsQuietRun(s, events);
    TrailingSignalsAreExplained(s, events);
    TrailingCloseMeansArmed(s, events);
    ArmingPeakIsKept(s, events);
    PeakRefinesHistory(s, events);
    PeakWasConfirmed(State(s, events), Ticks(s, events));
  }

  // ---------- The out-of-range timer ----------

  datatype RangeTick = RangeTick(inRange: Option<bool>, now: int)

  /** What an event says about the range: readings count while the position is open, sightings always. */
  function RangeOf(p: Position, e: Event): seq<RangeTick> {
    match e
    case Sighted(inRange, now) => [RangeTick(Some(inRange), now)]
    case Close => []
    case _ => if p.closed then [] else [RangeTick(e.reading.inRange, e.now)]
  }

  function RangeLog(s: Setup, events: seq<Event>): seq<RangeTick> {
    if events == [] then [] else
      var before := events[..|events| - 1];
      RangeLog(s, before) + RangeOf(State(s, before), events[|events| - 1])
  }

  /** Seen out of range at `i`, and never in range since. */
  ghost predicate OutSince(log: seq<RangeTick>, i: int) {
    && 0 <= i < |log| && log[i].inRange == Some(false)
    && forall j :: i < j < |log| ==> log[j].inRange != Some(true)
  }

  ghost predicate InOrder(log: seq<RangeTick>) {
    forall i, j :: 0 <= i < j < |log| ==> log[i].now <= log[j].now
  }

  /** The timer holds the moment of the earliest sighting that no later in-range one cancelled. */
  ghost predicate TimerMatches(p: Position, log: seq<RangeTick>) {
    && (p.oorSince.Some? ==> exists i :: OutSince(log, i) && log[i].now == p.oorSince.value)
    && (forall i :: OutSince(log, i) ==> p.oorSince.Some? && p.oorSince.value <= log[i].now)
  }

  /** What the timer becomes when the range is read or sighted. */
  function TimerAfter(oorSince: Option<int>, t: RangeTick): Option<int> {
    match t.inRange
    case None => oorSince
    case Some(true) => None
    case Some(false) => if oorSince.Some? then oorSince else Some(t.now)
  }

  lemma UpdateTimer(p: Position, r: Reading, rules: Rules, now: int)
    requires !p.closed
    ensures UpdateStep(p, r, rules, now).0.oorSince == TimerAfter(p.oorSince, RangeTick(r.inRange, now))
  {
  }

  lemma OthersKeepTimer(p: Position, candidate: Option<real>, signal: Option<string>, confirmTicks: int)
    ensures PeakStep(p, candidate, confirmTicks).oorSince == p.oorSince && PeakStep(p, candidate, confirmTicks).closed == p.closed
    ensures ExitStep(p, signal, confirmTicks).0.oorSince == p.oorSince
  {
  }

  lemma NextTimer(p: Position, e: Event)
    ensures |RangeOf(p, e)| <= 1
    ensures Next(p, e).oorSince == if RangeOf(p, e) == [] then p.oorSince else TimerAfter(p.oorSince, RangeOf(p, e)[0])
  {
    if HasReading(e) {
      var k := if e.Poll? then e.confirmTicks else 1;
      var peaked := PeakStep(p, e.reading.pnlPct, k);
      var updated := UpdateStep(peaked, e.reading, e.rules, e.now).0;
      OthersKeepTimer(p, e.reading.pnlPct, None, k);
      if !p.closed { UpdateTimer(peaked, e.reading, e.rules, e.now); }
      OthersKeepTimer(updated, None, DetectedSignal(peaked, e.reading, e.rules, e.now), k);
    }
  }

  lemma PrefixInOrder(log: seq<RangeTick>, t: RangeTick)
    requires InOrder(log + [t])
    ensures InOrder(log)
  {
    forall i, j | 0 <= i < j < |log| ensures log[i].now <= log[j].now {
      assert (log + [t])[i] == log[i] && (log + [t])[j] == log[j];
    }
  }

  lemma {:induction false} TimerRefinesHistory(s: Setup, events: seq<Event>)
    requires InOrder(RangeLog(s, events))
    ensures TimerMatches(State(s, events), RangeLog(s, events))
  {
    if events != [] {
      var before, e := events[..|events| - 1], events[|events| - 1];
      var p, log := State(s, before), RangeLog(s, before);
      NextTimer(p, e);
      if RangeOf(p, e) == [] {
        assert RangeLog(s, events) == log;
        TimerRefinesHistory(s, before);
      } else {
        var t := RangeOf(p, e)[0];
        assert RangeLog(s, events) == log + [t];
        PrefixInOrder(log, t);
        TimerRefinesHistory(s, before);
        TimerStep(p, Next(p, e), log, t);
      }
    }
  }

  lemma TimerStep(p: Position, q: Position, log: seq<RangeTick>, t: RangeTick)
    requires TimerMatches(p, log) && InOrder(log + [t])
    requires q.oorSince == TimerAfter(p.oorSince, t)
    ensures TimerMatches(q, log + [t])
  {
    var after := log + [t];
    forall i | OutSince(after, i) ensures q.oorSince.Some? && q.oorSince.value <= after[i].now {
      assert after[|log|] == t;
      if i < |log| {
        assert forall j :: i < j < |log| ==> after[j] == log[j];
        assert OutSince(log, i);
      } else if p.oorSince.Some? {
        var k :| OutSince(log, k) && log[k].now == p.oorSince.value;
        assert after[k].now <= after[|log|].now;
      }
    }
    if q.oorSince.Some? {
      if p.oorSince.Some? {
        var k :| OutSince(log, k) && log[k].now == p.oorSince.value;
        assert after[k] == log[k] && forall j :: k < j < |after| ==> j == |log| || after[j] == log[j];
        assert OutSince(after, k);
      } else {
        assert OutSince(after, |log|);
      }
    }
  }

  lemma LongerAgo(since: int, later: int, now: int)
    requires since <= later
    ensures MinutesBetween(later, now) <= MinutesBetween(since, now)
  {
  }

  predicate TimedOut(p: Position, now: int, limit: int) {
    p.oorSince.Some? && MinutesBetween(p.oorSince.value, now) >= limit
  }

  ghost predicate OutTooLong(log: seq<RangeTick>, now: int, limit: int) {
    exists i :: OutSince(log, i) && MinutesBetween(log[i].now, now) >= limit
  }

  lemma TimerReachesLimitIff(p: Position, log: seq<RangeTick>, now: int, limit: int)
    requires TimerMatches(p, log)
    ensures TimedOut(p, now, limit) <==> OutTooLong(log, now, limit)
  {
    forall i | OutSince(log, i) && MinutesBetween(log[i].now, now) >= limit ensures TimedOut(p, now, limit) {
      LongerAgo(p.oorSince.value, log[i].now, now);
    }
  }

  /**
   The timer has run for the limit exactly when the position was seen out of range that long ago and
   has not been seen in range since.
   */
  lemma OutOfRangeTooLongIff(s: Setup, events: seq<Event>, now: int, limit: int)
    requires InOrder(RangeLog(s, events))
    ensures TimedOut(State(s, events), now, limit) <==> OutTooLong(RangeLog(s, events), now, limit)
  {
    TimerRefinesHistory(s, events);
    TimerReachesLimitIff(State(s, events), RangeLog(s, events), now, limit);
  }

  // ---------- Bad readings and closed positions ----------

  /** A suspect reading never closes a position for its profit or loss. */
  lemma SuspectReadingsNeverDecide(p: Position, r: Reading, rules: Rules, now: int)
    requires IsPnlSuspect(r, Some(p.amountSol))
    ensures DetectedSignal(p, r, rules, now) in
            {None, Some("OUT_OF_RANGE"), Some("LOW_YIELD"), Some("RULE_3"), Some("RULE_4"), Some("RULE_5")}
  {
  }

  predicate IsProfitOrLoss(signal: Option<string>) {
    signal in {Some("STOP_LOSS"), Some("TRAILING_TP"), Some("RULE_1"), Some("RULE_2")}
  }

  predicate IsCredible(rec: PollRecord) {
    !IsPnlSuspect(rec.reading, Some(rec.position.amountSol))
  }

  lemma SuspectIsNoProfitOrLoss(p: Position, r: Reading, rules: Rules, now: int)
    requires IsPnlSuspect(r, Some(p.amountSol))
    ensures !IsProfitOrLoss(DetectedSignal(p, r, rules, now))
  {
    assert "OUT_OF_RANGE"[0] == 'O' && "LOW_YIELD"[0] == 'L';
    assert "RULE_3"[5] == '3' && "RULE_4"[5] == '4' && "RULE_5"[5] == '5';
    SuspectReadingsNeverDecide(p, r, rules, now);
  }

  ghost predicate SignalsCredible(log: seq<PollRecord>) {
    forall i :: 0 <= i < |log| && IsProfitOrLoss(log[i].signal) ==> IsCredible(log[i])
  }

  lemma {:induction false} SignalsAreCredible(s: Setup, events: seq<Event>)
    ensures SignalsCredible(PollLog(s, events))
  {
    if events != [] {
      var before, e := events[..|events| - 1], events[|events| - 1];
      var p := State(s, before);
      SignalsAreCredible(s, before);
      if !p.closed && e.Poll? {
        var peaked := PeakStep(p, e.reading.pnlPct, e.confirmTicks);
        UpdateKeepsPeakFields(peaked, e.reading, e.rules, e.now);
        if IsPnlSuspect(e.reading, Some(peaked.amountSol)) {
          SuspectIsNoProfitOrLoss(peaked, e.reading, e.rules, e.now);
        }
      }
    }
  }

  /** The last polls agree on the signal and are credible. */
  ghost predicate ConfirmedCredibly(log: seq<PollRecord>, w: int) {
    && log != [] && w <= |log|
    && forall i :: 0 <= i && |log| - w <= i < |log| ==> log[i].signal == log[|log| - 1].signal && IsCredible(log[i])
  }

  ghost predicate SignalsProfitOrLoss(log: seq<PollRecord>) {
    log != [] && IsProfitOrLoss(log[|log| - 1].signal)
  }

  /** Whenever a poll closes a position for its profit or loss, every poll that confirmed the exit was credible. */
  lemma ProfitAndLossExitsAreCredible(s: Setup, events: seq<Event>)
    requires Fires(s, events) && SignalsProfitOrLoss(PollLog(s, events))
    ensures ConfirmedCredibly(PollLog(s, events), Needed(PollLog(s, events)))
  {
    FiringEndsQuietRun(s, events);
    SignalsAreCredible(s, events);
  }

  /** All fields but the out-of-range timer agree. */
  predicate SameButTimer(p: Position, q: Position) {
    p.(oorSince := None) == q.(oorSince := None)
  }

  lemma ClosedStaysClosed(p: Position, e: Event)
    requires p.closed
    ensures SameButTimer(p, Next(p, e)) && (!e.Sighted? ==> Next(p, e) == p)
  {
  }

  /** After a close nothing fires again, and only a sighting changes anything: the timer. */
  lemma {:induction false} ClosedPositionsAreFinal(s: Setup, events: seq<Event>, later: seq<Event>)
    requires State(s, events).closed
    ensures SameButTimer(State(s, events), State(s, events + later))
    ensures (forall i :: 0 <= i < |later| ==> !later[i].Sighted?) ==> State(s, events + later) == State(s, events)
    ensures later != [] ==> !Fires(s, events + later)
    decreases |later|
  {
    if later == [] {
      assert events + later == events;
    } else {
      var n := |later| - 1;
      ClosedPositionsAreFinal(s, events, later[..n]);
      StateAfter(s, events, later);
      ClosedStaysClosed(State(s, events + later[..n]), later[n]);
      assert (events + later)[..|events + later| - 1] == events + later[..n];
    }
  }

  // ---------- One tick over many positions ----------

  predicate DistinctAddresses(readings: seq<Polled>) {
    forall i, j :: 0 <= i < j < |readings| ==> readings[i].address != readings[j].address
  }

  /** The position took exactly one step for its reading; untracked addresses take none. */
  ghost predicate TookAStep(
    before: map<string, Position>, after: map<string, Position>, polled: Polled, step: Step, fire: bool)
  {
    if polled.address !in before then polled.address !in after && !fire else
      && polled.address in after
      && after[polled.address] == step(before[polled.address], polled.reading).0
      && fire == step(before[polled.address], polled.reading).1.fire
  }

  /** The first `n` readings were processed, and only the last of them may have fired. */
  ghost predicate PolledPrefix(
    before: map<string, Position>, after: map<string, Position>, readings: seq<Polled>, step: Step, fired: Option<string>, n: nat)
  {
    && n <= |readings| && after.Keys == before.Keys
    && (fired.None? ==> n == |readings|)
    && (fired.Some? ==> n > 0 && fired.value == readings[n - 1].address)
    && (forall i :: 0 <= i < n ==> TookAStep(before, after, readings[i], step, fired.Some? && i == n - 1))
    && (forall address :: address in before && (forall i :: 0 <= i < n ==> readings[i].address != address) ==>
          after[address] == before[address])
  }

  lemma PrefixGrows(
    before: map<string, Position>, next: map<string, Position>, after: map<string, Position>,
    readings: seq<Polled>, step: Step, fired: Option<string>, n: nat)
    requires readings != [] && DistinctAddresses(readings)
    requires readings[0].address !in before ==> next == before
    requires readings[0].address in before ==>
               var (p, signal) := step(before[readings[0].address], readings[0].reading);
               !signal.fire && next == before[readings[0].address := p]
    requires PolledPrefix(next, after, readings[1..], step, fired, n)
    ensures PolledPrefix(before, after, readings, step, fired, n + 1)
  {
    var rest := readings[1..];
    assert forall i :: 0 < i < |readings| ==> readings[i] == rest[i - 1];
    assert TookAStep(before, after, readings[0], step, false);
    forall i | 0 < i < n + 1 ensures TookAStep(before, after, readings[i], step, fired.Some? && i == n) {
      assert TookAStep(next, after, rest[i - 1], step, fired.Some? && i - 1 == n - 1);
      assert readings[i].address != readings[0].address;
    }
    forall address | address in before && (forall i :: 0 <= i < n + 1 ==> readings[i].address != address)
      ensures after[address] == before[address]
    {
      assert readings[0].address != address;
      forall i | 0 <= i < n ensures rest[i].address != address {
        assert readings[i + 1] == rest[i];
      }
    }
  }

  /**
   A poller tick polls a prefix of the readings: no position in it fires except possibly the last, whose
   address is reported, and the positions after it are left for the next tick.
   */
  lemma {:induction false} TickPollsAPrefix(positions: map<string, Position>, readings: seq<Polled>, step: Step)
    returns (n: nat)
    requires DistinctAddresses(readings)
    ensures var (after, fired) := PollAll(positions, readings, step); PolledPrefix(positions, after, readings, step, fired, n)
    decreases |readings|
  {
    n := 0;
    if readings != [] {
      var address := readings[0].address;
      var (after, fired) := PollAll(positions, readings, step);
      assert DistinctAddresses(readings[1..]);
      if address !in positions {
        n := TickPollsAPrefix(positions, readings[1..], step);
        PrefixGrows(positions, positions, after, readings, step, fired, n);
        n := n + 1;
      } else {
        var (p, signal) := step(positions[address], readings[0].reading);
        if signal.fire {
          n := 1;
        } else {
          n := TickPollsAPrefix(positions[address := p], readings[1..], step);
          PrefixGrows(positions, positions[address := p], after, readings, step, fired, n);
          n := n + 1;
        }
      }
    }
  }

  // ---------- The swap-failure breaker ----------

  function Failures(events: seq<SwapEvent>): nat {
    if events == [] then 0 else BreakerStep(Failures(events[..|events| - 1]), events[|events| - 1])
  }

  predicate ResetFree(events: seq<SwapEvent>) {
    Reset !in events
  }

  /** Failures less successes. */
  function Balance(events: seq<SwapEvent>): int {
    if events == [] then 0 else
      var last := events[|events| - 1];
      Balance(events[..|events| - 1]) + (if last.SwapFailed? then 1 else if last.SwapSucceeded? then -1 else 0)
  }

  /** The counter is the largest excess of failures over successes in any recent stretch without a reset. */
  ghost predicate IsLargestRecentExcess(n: nat, events: seq<SwapEvent>) {
    && (exists i :: 0 <= i <= |events| && ResetFree(events[i..]) && Balance(events[i..]) == n)
    && (forall i :: 0 <= i <= |events| && ResetFree(events[i..]) ==> Balance(events[i..]) <= n)
  }

  lemma SuffixGrows(events: seq<SwapEvent>, e: SwapEvent, i: nat)
    requires i <= |events|
    ensures (events + [e])[i..] == events[i..] + [e]
    ensures Balance((events + [e])[i..]) == Balance(events[i..]) + (if e.SwapFailed? then 1 else if e.SwapSucceeded? then -1 else 0)
    ensures ResetFree((events + [e])[i..]) <==> ResetFree(events[i..]) && e != Reset
  {
    assert (events + [e])[i..] == events[i..] + [e];
    assert (events[i..] + [e])[..|events[i..]|] == events[i..];
    assert e in events[i..] + [e];
    assert forall x :: x in events[i..] ==> x in events[i..] + [e];
  }

  lemma {:induction false} CounterIsLargestExcess(events: seq<SwapEvent>)
    ensures IsLargestRecentExcess(Failures(events), events)
  {
    var n := |events|;
    assert events[n..] == [];
    if events != [] {
      var before, e := events[..n - 1], events[n - 1];
      assert before + [e] == events;
      CounterIsLargestExcess(before);
      forall i | 0 <= i <= n && ResetFree(events[i..]) ensures Balance(events[i..]) <= Failures(events) {
        if i < n {
          SuffixGrows(before, e, i);
        }
      }
      if e != Reset && Failures(before) + (if e.SwapFailed? then 1 else -1) >= 0 {
        var i :| 0 <= i <= n - 1 && ResetFree(before[i..]) && Balance(before[i..]) == Failures(before);
        SuffixGrows(before, e, i);
        assert ResetFree(events[i..]) && Balance(events[i..]) == Failures(events);
      } else {
        assert ResetFree(events[n..]) && Balance(events[n..]) == 0 == Failures(events);
      }
    } else {
      assert ResetFree(events[0..]) && Balance(events[0..]) == 0;
    }
  }

  /** Deploys are halted exactly when the switch is on and some recent stretch reaches the threshold. */
  lemma HaltedIff(events: seq<SwapEvent>, haltOnSwapFailure: bool, threshold: int)
    ensures IsHalted(Failures(events), haltOnSwapFailure, threshold) <==>
            haltOnSwapFailure
            && exists i :: 0 <= i <= |events| && ResetFree(events[i..]) && Balance(events[i..]) >= threshold
  {
    CounterIsLargestExcess(events);
  }
}
