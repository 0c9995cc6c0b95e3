/**
 Per-pool memory of closed positions: the figures recomputed from the history at every close, and
 the pauses before a pool or a token is used again. Reasons are given by what they contain;
 durations and moments are milliseconds, and "" is the absent token.
 */
module PoolMemory {
  import opened Money
  import opened Options

  const LOW_YIELD_PAUSE := 14400000

  datatype Close = Close(pnlPct: Option<real>, lowYield: bool, stopLoss: bool, outOfRange: bool, excluded: bool,
                         feesUsd: real, feesSol: real, feePct: real)

  datatype Entry = Entry(
    baseMint: string, closes: seq<Close>, total: nat,
    avgPnlPct: real, winRate: real, adjustedCount: nat, adjustedRate: real,
    pausedUntil: Option<int>, mintPausedUntil: Option<int>)

  datatype Scope = PoolOnly | TokenOnly | Both

  datatype Rules = Rules(
    oorCount: int, oorPause: int,
    repeatEnabled: bool, repeatCount: int, repeatPause: int, scope: Scope, minFeePct: real)

  function Blank(mint: string): Entry {
    Entry(mint, [], 0, 0.0, 0.0, 0, 0.0, None, None)
  }

  // ---------- Figures ----------

  function WithPnl(closes: seq<Close>): seq<Close> {
    if closes == [] then []
    else
      var n := |closes| - 1;
      WithPnl(closes[..n]) + if closes[n].pnlPct.Some? then [closes[n]] else []
  }

  function Adjusted(closes: seq<Close>): seq<Close> {
    if closes == [] then [] else (if closes[0].excluded then [] else [closes[0]]) + Adjusted(closes[1..])
  }

  function TotalPnl(closes: seq<Close>): real {
    if closes == [] then 0.0 else closes[0].pnlPct.GetOr(0.0) + TotalPnl(closes[1..])
  }

  function Wins(closes: seq<Close>): (n: nat)
    ensures n <= |closes|
  {
    if closes == [] then 0 else (if closes[0].pnlPct.GetOr(0.0) >= 0.0 then 1 else 0) + Wins(closes[1..])
  }

  function AveragePnl(closes: seq<Close>): real {
    if closes == [] then 0.0 else Cents(TotalPnl(closes) / |closes| as real)
  }

  function WinShare(closes: seq<Close>): real {
    if closes == [] then 0.0 else Cents(Wins(closes) as real / |closes| as real)
  }

  /** A percentage with two decimals. */
  function WinPercent(closes: seq<Close>): real {
    if closes == [] then 0.0 else Round(Wins(closes) as real / |closes| as real * 10000.0) as real / 100.0
  }

  /** The figures after one more close; without any known result the old ones stay. */
  function WithClose(e: Entry, c: Close): Entry {
    var closes := e.closes + [c];
    var known := WithPnl(closes);
    e.(closes := closes, total := |closes|,
       avgPnlPct := if known == [] then e.avgPnlPct else AveragePnl(known),
       winRate := if known == [] then e.winRate else WinShare(known),
       adjustedCount := |Adjusted(known)|, adjustedRate := WinPercent(Adjusted(known)))
  }

  /** The figures are those of the whole history. */
  predicate IsSummary(e: Entry) {
    && e.total == |e.closes|
    && e.avgPnlPct == AveragePnl(WithPnl(e.closes))
    && e.winRate == WinShare(WithPnl(e.closes))
    && e.adjustedCount == |Adjusted(WithPnl(e.closes))|
    && e.adjustedRate == WinPercent(Adjusted(WithPnl(e.closes)))
  }

  lemma WithCloseKeepsSummary(e: Entry, c: Close)
    requires IsSummary(e)
    ensures IsSummary(WithClose(e, c))
  {
    assert (e.closes + [c])[..|e.closes|] == e.closes;
  }

  // ---------- Pauses ----------

  /** `slice(-n)`: the last `n`, but everything for zero, and all but the first `-n` below zero. */
  function Slice(closes: seq<Close>, n: int): seq<Close> {
    if n > |closes| || n == 0 then closes
    else if n > 0 then closes[|closes| - n..]
    else if -n > |closes| then [] else closes[-n..]
  }

  predicate EarnsFees(c: Close, rules: Rules) {
    (c.feesUsd > 0.0 || c.feesSol > 0.0) && c.feePct >= rules.minFeePct
  }

  predicate RepeatedlyOutOfRange(closes: seq<Close>, rules: Rules) {
    var recent := Slice(closes, rules.oorCount);
    |recent| >= rules.oorCount && forall i :: 0 <= i < |recent| ==> recent[i].outOfRange
  }

  function AtLeast(n: int, least: int): int {
    if n < least then least else n
  }

  predicate RepeatedlyEarning(closes: seq<Close>, rules: Rules) {
    var count := AtLeast(rules.repeatCount, 1);
    var recent := Slice(closes, count);
    && rules.repeatEnabled && rules.repeatPause > 0 && |recent| >= count
    && forall i :: 0 <= i < |recent| ==> recent[i].pnlPct.Some? && EarnsFees(recent[i], rules)
  }

  /** How long the pool is paused after its last close: the last rule that applies decides. */
  function PoolPause(closes: seq<Close>, hasMint: bool, rules: Rules): Option<int>
    requires closes != []
  {
    var last := closes[|closes| - 1];
    if RepeatedlyEarning(closes, rules) && (rules.scope != TokenOnly || !hasMint) then Some(rules.repeatPause)
    else if RepeatedlyOutOfRange(closes, rules) then Some(rules.oorPause)
    else if last.stopLoss then Some(AtLeast(rules.repeatPause, 0))
    else if last.lowYield then Some(LOW_YIELD_PAUSE)
    else None
  }

  /** How long the token is paused. */
  function TokenPause(closes: seq<Close>, rules: Rules): Option<int>
    requires closes != []
  {
    var last := closes[|closes| - 1];
    if RepeatedlyEarning(closes, rules) && rules.scope != PoolOnly then Some(rules.repeatPause)
    else if RepeatedlyOutOfRange(closes, rules) then Some(rules.oorPause)
    else if last.stopLoss then Some(AtLeast(rules.repeatPause, 0))
    else None
  }

  // ---------- One close ----------

  function EntryBefore(memory: map<string, Entry>, pool: string, mint: string): Entry {
    if pool in memory then memory[pool] else Blank(mint)
  }

  /** The entry with the close and the token in it, before any pause. */
  function Noted(memory: map<string, Entry>, pool: string, mint: string, c: Close): Entry {
    var e := WithClose(EntryBefore(memory, pool, mint), c);
    if e.baseMint == "" then e.(baseMint := mint) else e
  }

  function PauseToken(memory: map<string, Entry>, mint: string, until: int): map<string, Entry> {
    if mint == "" then memory
    else
      map p | p in memory ::
        if memory[p].baseMint == mint then memory[p].(mintPausedUntil := Some(until)) else memory[p]
  }

  /** The memory with the pool and the token paused, as far as each has a new end. */
  function Paused(memory: map<string, Entry>, pool: string, poolUntil: Option<int>, mint: string, mintUntil: Option<int>): map<string, Entry>
    requires pool in memory
  {
    var m := if poolUntil.Some? then memory[pool := memory[pool].(pausedUntil := poolUntil)] else memory;
    if mintUntil.Some? then PauseToken(m, mint, mintUntil.value) else m
  }

  function Ending(now: int, pause: Option<int>): Option<int> {
    if pause.Some? then Some(now + pause.value) else None
  }

  /** The entry stored in the memory, with the pauses that its closes call for. */
  function Stored(memory: map<string, Entry>, pool: string, e: Entry, now: int, rules: Rules): map<string, Entry>
    requires e.closes != []
  {
    Paused(memory[pool := e], pool, Ending(now, PoolPause(e.closes, e.baseMint != "", rules)),
           e.baseMint, Ending(now, TokenPause(e.closes, rules)))
  }

  function Recorded(memory: map<string, Entry>, pool: string, mint: string, c: Close, now: int, rules: Rules): map<string, Entry> {
    if pool == "" then memory else Stored(memory, pool, Noted(memory, pool, mint, c), now, rules)
  }

  /** A snapshot or a note gives the pool an entry without closes, unless it has one. */
  function Entered(memory: map<string, Entry>, pool: string): map<string, Entry> {
    if pool == "" || pool in memory then memory else memory[pool := Blank("")]
  }

  predicate TokenIsPaused(memory: map<string, Entry>, mint: string, now: int) {
    mint != "" &&
    exists p :: p in memory && memory[p].baseMint == mint && memory[p].mintPausedUntil.Some? && memory[p].mintPausedUntil.value > now
  }

  predicate PoolIsPaused(memory: map<string, Entry>, pool: string, now: int) {
    pool != "" && pool in memory && memory[pool].pausedUntil.Some? && memory[pool].pausedUntil.value > now
  }

  // ---------- The object ----------

  lemma PauseTokenAgain(memory: map<string, Entry>, mint: string, a: int, b: int)
    ensures PauseToken(PauseToken(memory, mint, a), mint, b) == PauseToken(memory, mint, b)
  {
  }

  lemma PausePoolAgain(memory: map<string, Entry>, pool: string, a: Option<int>, b: int, mint: string, mintUntil: Option<int>)
    requires pool in memory && memory[pool].baseMint == mint
    ensures var m := Paused(memory, pool, a, mint, mintUntil);
            m[pool := m[pool].(pausedUntil := Some(b))] == Paused(memory, pool, Some(b), mint, mintUntil)
  {
  }

  class PoolBook {
    var memory: map<string, Entry>

    constructor ()
      ensures memory == map[]
    {
      memory := map[];
    }

    method SetPoolCooldown(pool: string, until: int)
      requires pool in memory
      modifies this
      ensures memory == old(memory)[pool := old(memory)[pool].(pausedUntil := Some(until))]
    {
      memory := memory[pool := memory[pool].(pausedUntil := Some(until))];
    }

    /** Pauses the token in every entry that has it. */
    method SetBaseMintCooldown(mint: string, until: int)
      modifies this
      ensures memory == PauseToken(old(memory), mint, until)
    {
      if mint == "" { return; }
      ghost var before := memory;
      var rest := memory.Keys;
      while rest != {}
        invariant rest <= before.Keys == memory.Keys
        invariant forall p :: p in before ==>
          memory[p] == if p in rest then before[p] else PauseToken(before, mint, until)[p]
      {
        var p :| p in rest;
        if memory[p].baseMint == mint {
          memory := memory[p := memory[p].(mintPausedUntil := Some(until))];
        }
        rest := rest - {p};
      }
    }

    /** The snapshot itself is not kept here; one without measurements is dropped. */
    method RecordPositionSnapshot(pool: string, hasMetrics: bool)
      modifies this
      ensures memory == if hasMetrics then Entered(old(memory), pool) else old(memory)
    {
      if pool == "" || !hasMetrics { return; }
      if pool !in memory {
        memory := memory[pool := Blank("")];
      }
    }

    /** The note itself is not kept here; one that is empty once cleaned is refused. */
    method AddPoolNote(pool: string, note: string) returns (saved: bool)
      modifies this
      ensures saved == (pool != "" && note != "")
      ensures memory == if saved then Entered(old(memory), pool) else old(memory)
    {
      if pool == "" || note == "" { return false; }
      if pool !in memory {
        memory := memory[pool := Blank("")];
      }
      saved := true;
    }

    method RecordPoolDeploy(pool: string, mint: string, c: Close, now: int, rules: Rules)
      modifies this
      ensures memory == Recorded(old(memory), pool, mint, c, now, rules)
    {
      if pool == "" { return; }
      var e := Noted(memory, pool, mint, c);
      memory := memory[pool := e];
      PauseAfter(pool, e, now, rules);
    }

    /** The four rules in the order of the code; each overwrites what the ones before it set. */
    method PauseAfter(pool: string, e: Entry, now: int, rules: Rules)
      requires pool in memory && memory[pool] == e && e.closes != []
      modifies this
      ensures memory == Paused(old(memory), pool, Ending(now, PoolPause(e.closes, e.baseMint != "", rules)),
                               e.baseMint, Ending(now, TokenPause(e.closes, rules)))
    {
      var c := e.closes[|e.closes| - 1];
      ghost var noted := memory;
      ghost var poolUntil: Option<int> := None;
      ghost var mintUntil: Option<int> := None;
      if c.lowYield {
        poolUntil := Some(now + LOW_YIELD_PAUSE);
        SetPoolCooldown(pool, now + LOW_YIELD_PAUSE);
      }
      if c.stopLoss {
        poolUntil, mintUntil := PauseBoth(pool, e.baseMint, now + AtLeast(rules.repeatPause, 0), noted, poolUntil, mintUntil);
      }
      if RepeatedlyOutOfRange(e.closes, rules) {
        poolUntil, mintUntil := PauseBoth(pool, e.baseMint, now + rules.oorPause, noted, poolUntil, mintUntil);
      }
      if RepeatedlyEarning(e.closes, rules) {
        poolUntil, mintUntil := PauseEarner(pool, e.baseMint, now + rules.repeatPause, rules.scope, noted, poolUntil, mintUntil);
      }
    }

    /** Pauses what the configured scope covers; a pool without a token is paused itself. */
    method PauseEarner(pool: string, mint: string, until: int, scope: Scope,
                       ghost noted: map<string, Entry>, ghost poolUntil: Option<int>, ghost mintUntil: Option<int>)
      returns (ghost poolNext: Option<int>, ghost mintNext: Option<int>)
      requires pool in noted && noted[pool].baseMint == mint && memory == Paused(noted, pool, poolUntil, mint, mintUntil)
      modifies this
      ensures poolNext == if scope != TokenOnly || mint == "" then Some(until) else poolUntil
      ensures mintNext == if scope != PoolOnly then Some(until) else mintUntil
      ensures memory == Paused(noted, pool, poolNext, mint, mintNext)
    {
      poolNext, mintNext := poolUntil, mintUntil;
      if scope != TokenOnly || mint == "" {
        PausePoolAgain(noted, pool, poolUntil, until, mint, mintUntil);
        SetPoolCooldown(pool, until);
        poolNext := Some(until);
      }
      if scope != PoolOnly {
        PauseMintAgain(noted, pool, poolNext, mint, mintUntil, until);
        SetBaseMintCooldown(mint, until);
        mintNext := Some(until);
      }
    }

    /** Pauses pool and token alike, over whatever pauses were set before. */
    method PauseBoth(pool: string, mint: string, until: int,
                     ghost noted: map<string, Entry>, ghost poolUntil: Option<int>, ghost mintUntil: Option<int>)
      returns (ghost poolNext: Option<int>, ghost mintNext: Option<int>)
      requires pool in noted && noted[pool].baseMint == mint && memory == Paused(noted, pool, poolUntil, mint, mintUntil)
      modifies this
      ensures poolNext == mintNext == Some(until) && memory == Paused(noted, pool, Some(until), mint, Some(until))
    {
      PausePoolAgain(noted, pool, poolUntil, until, mint, mintUntil);
      SetPoolCooldown(pool, until);
      PauseMintAgain(noted, pool, Some(until), mint, mintUntil, until);
      SetBaseMintCooldown(mint, until);
      poolNext, mintNext := Some(until), Some(until);
    }
  }

  lemma PauseMintAgain(memory: map<string, Entry>, pool: string, poolUntil: Option<int>, mint: string, a: Option<int>, b: int)
    requires pool in memory
    ensures PauseToken(Paused(memory, pool, poolUntil, mint, a), mint, b) == Paused(memory, pool, poolUntil, mint, Some(b))
  {
    var m := if poolUntil.Some? then memory[pool := memory[pool].(pausedUntil := poolUntil)] else memory;
    if a.Some? { PauseTokenAgain(m, mint, a.value, b); }
  }

  // ---------- Histories ----------

  /**
   A close, under the configuration of its moment, or something else that enters the pool: a snapshot
   of an open position in it, or a note about it.
   */
  datatype Event =
    | Closed(pool: string, mint: string, close: Close, now: int, rules: Rules)
    | Seen(pool: string)

  function Stepped(memory: map<string, Entry>, ev: Event): map<string, Entry> {
    match ev
    case Closed(pool, mint, c, now, rules) => Recorded(memory, pool, mint, c, now, rules)
    case Seen(pool) => Entered(memory, pool)
  }

  function After(events: seq<Event>): map<string, Entry> {
    if events == [] then map[] else Stepped(After(events[..|events| - 1]), events[|events| - 1])
  }

  /** A close in the pool; one without an address leaves no trace. */
  predicate ClosesIn(ev: Event, pool: string) {
    ev.Closed? && ev.pool == pool && pool != ""
  }

  function ClosesOf(events: seq<Event>, pool: string): seq<Close> {
    if events == [] then []
    else ClosesOf(events[..|events| - 1], pool) + if ClosesIn(events[|events| - 1], pool) then [events[|events| - 1].close] else []
  }

  /** The token of a pool: the first one that a close of it named. */
  function MintOf(events: seq<Event>, pool: string): string {
    if events == [] then ""
    else
      var earlier := MintOf(events[..|events| - 1], pool);
      if earlier == "" && ClosesIn(events[|events| - 1], pool) then events[|events| - 1].mint else earlier
  }

  /** How long the last event pauses its pool, judged by the whole history of the pool. */
  function LastPoolPause(events: seq<Event>): Option<int>
    requires events != []
  {
    var ev := events[|events| - 1];
    if !ClosesIn(ev, ev.pool) then None else PoolPause(ClosesOf(events, ev.pool), MintOf(events, ev.pool) != "", ev.rules)
  }

  function LastTokenPause(events: seq<Event>): Option<int>
    requires events != []
  {
    var ev := events[|events| - 1];
    if !ClosesIn(ev, ev.pool) then None else TokenPause(ClosesOf(events, ev.pool), ev.rules)
  }

  /** The end of the pause that the last event set for the pool. */
  function LastPoolEnd(events: seq<Event>, pool: string): Option<int>
    requires events != []
  {
    var ev := events[|events| - 1];
    if ClosesIn(ev, pool) && LastPoolPause(events).Some? then Some(ev.now + LastPoolPause(events).value) else None
  }

  /** The end of the pause that the last event set for the token. */
  function LastTokenEnd(events: seq<Event>, mint: string): Option<int>
    requires events != []
  {
    var ev := events[|events| - 1];
    if ClosesIn(ev, ev.pool) && MintOf(events, ev.pool) == mint && LastTokenPause(events).Some?
    then Some(ev.now + LastTokenPause(events).value) else None
  }

  /** The end of the last pause that a close set for its pool. */
  function PoolPauseEnd(events: seq<Event>, pool: string): Option<int> {
    if events == [] then None
    else if LastPoolEnd(events, pool).Some? then LastPoolEnd(events, pool)
    else PoolPauseEnd(events[..|events| - 1], pool)
  }

  /** The end of the last pause that a close set for the token, in whichever of its pools. */
  function TokenPauseEnd(events: seq<Event>, mint: string): Option<int> {
    if events == [] then None
    else if LastTokenEnd(events, mint).Some? then LastTokenEnd(events, mint)
    else TokenPauseEnd(events[..|events| - 1], mint)
  }

  // ---------- The memory is the history ----------

  lemma PausedKeepsHistory(memory: map<string, Entry>, pool: string, poolUntil: Option<int>, mint: string, mintUntil: Option<int>)
    requires pool in memory
    ensures var m := Paused(memory, pool, poolUntil, mint, mintUntil);
            && m.Keys == memory.Keys
            && (forall p :: p in m ==> m[p].closes == memory[p].closes && m[p].baseMint == memory[p].baseMint)
            && (forall p :: p in m && IsSummary(memory[p]) ==> IsSummary(m[p]))
            && (forall p :: p in m ==> m[p].pausedUntil == if p == pool && poolUntil.Some? then poolUntil else memory[p].pausedUntil)
  {
  }

  /** What one close does to every entry, but for the pause of its token. */
  lemma StoredKeepsHistory(memory: map<string, Entry>, pool: string, e: Entry, now: int, rules: Rules)
    requires e.closes != []
    ensures var m := Stored(memory, pool, e, now, rules);
            var pause := PoolPause(e.closes, e.baseMint != "", rules);
            && m.Keys == memory.Keys + {pool}
            && m[pool].closes == e.closes && m[pool].baseMint == e.baseMint && (IsSummary(e) ==> IsSummary(m[pool]))
            && m[pool].pausedUntil == NextEnd(now, pause, e.pausedUntil)
            && forall p :: p in memory && p != pool ==> SameButToken(memory[p], m[p])
  {
    PausedKeepsHistory(memory[pool := e], pool, Ending(now, PoolPause(e.closes, e.baseMint != "", rules)),
                       e.baseMint, Ending(now, TokenPause(e.closes, rules)));
  }

  predicate SameButToken(a: Entry, b: Entry) {
    a.closes == b.closes && a.baseMint == b.baseMint && a.pausedUntil == b.pausedUntil && (IsSummary(a) ==> IsSummary(b))
  }

  /** The pool's entry holds what the history says of it; a pool without one has neither closes nor a pause. */
  ghost predicate Holds(memory: map<string, Entry>, pool: string, closes: seq<Close>, mint: string, until: Option<int>) {
    if pool in memory then
      var e := memory[pool];
      e.closes == closes && IsSummary(e) && e.baseMint == mint && e.pausedUntil == until
    else closes == [] && mint == "" && until == None
  }

  function NextMint(before: string, mint: string): string {
    if before == "" then mint else before
  }

  function NextEnd(now: int, pause: Option<int>, before: Option<int>): Option<int> {
    if pause.Some? then Some(now + pause.value) else before
  }

  lemma BlankIsSummary(mint: string)
    ensures IsSummary(Blank(mint))
  {
  }

  lemma NotedHolds(memory: map<string, Entry>, pool: string, mint: string, c: Close, closes: seq<Close>, before: string, until: Option<int>)
    requires Holds(memory, pool, closes, before, until)
    ensures var e := Noted(memory, pool, mint, c);
            && e.closes == closes + [c] && IsSummary(e) && e.pausedUntil == until
            && e.baseMint == NextMint(before, mint)
  {
    WithCloseKeepsSummary(EntryBefore(memory, pool, mint), c);
  }

  lemma RecordedHolds(memory: map<string, Entry>, pool: string, mint: string, c: Close, now: int, rules: Rules,
                      closes: seq<Close>, before: string, until: Option<int>)
    requires pool != "" && Holds(memory, pool, closes, before, until)
    ensures var token := NextMint(before, mint);
            && pool in Recorded(memory, pool, mint, c, now, rules)
            && Holds(Recorded(memory, pool, mint, c, now, rules), pool, closes + [c], token,
                     NextEnd(now, PoolPause(closes + [c], token != "", rules), until))
  {
    NotedHolds(memory, pool, mint, c, closes, before, until);
    StoredKeepsHistory(memory, pool, Noted(memory, pool, mint, c), now, rules);
  }

  lemma OtherCloseHolds(memory: map<string, Entry>, other: string, e: Entry, now: int, rules: Rules,
                        pool: string, closes: seq<Close>, mint: string, until: Option<int>)
    requires other != pool && e.closes != [] && Holds(memory, pool, closes, mint, until)
    ensures Holds(Stored(memory, other, e, now, rules), pool, closes, mint, until)
    ensures pool in Stored(memory, other, e, now, rules) <==> pool in memory
  {
    StoredKeepsHistory(memory, other, e, now, rules);
  }

  lemma EnteredHolds(memory: map<string, Entry>, other: string, pool: string, closes: seq<Close>, mint: string, until: Option<int>)
    requires Holds(memory, pool, closes, mint, until)
    ensures Holds(Entered(memory, other), pool, closes, mint, until)
    ensures pool in Entered(memory, other) <==> pool in memory || (pool != "" && other == pool)
  {
    BlankIsSummary("");
  }

  /** Other closes leave the entry and whether there is one; a snapshot or a note at most adds a blank one. */
  lemma OthersHold(memory: map<string, Entry>, ev: Event, pool: string, closes: seq<Close>, mint: string, until: Option<int>)
    requires !ClosesIn(ev, pool) && Holds(memory, pool, closes, mint, until)
    ensures Holds(Stepped(memory, ev), pool, closes, mint, until)
    ensures pool in Stepped(memory, ev) <==> pool in memory || (pool != "" && ev == Seen(pool))
  {
    match ev
    case Seen(other) => EnteredHolds(memory, other, pool, closes, mint, until);
    case Closed(other, token, c, now, rules) =>
      if other != "" { OtherCloseHolds(memory, other, Noted(memory, other, token, c), now, rules, pool, closes, mint, until); }
  }

  /** What the last close adds to the history of its own pool. */
  lemma {:induction false} OwnHistory(earlier: seq<Event>, ev: Event)
    requires ClosesIn(ev, ev.pool)
    ensures var events, closes := earlier + [ev], ClosesOf(earlier, ev.pool) + [ev.close];
            var mint := NextMint(MintOf(earlier, ev.pool), ev.mint);
            && ClosesOf(events, ev.pool) == closes && MintOf(events, ev.pool) == mint
            && LastPoolPause(events) == PoolPause(closes, mint != "", ev.rules)
            && PoolPauseEnd(events, ev.pool) == NextEnd(ev.now, LastPoolPause(events), PoolPauseEnd(earlier, ev.pool))
  {
    assert (earlier + [ev])[..|earlier|] == earlier;
  }

  lemma {:induction false} OtherHistory(earlier: seq<Event>, ev: Event, pool: string)
    requires !ClosesIn(ev, pool)
    ensures var events := earlier + [ev];
            && ClosesOf(events, pool) == ClosesOf(earlier, pool) && MintOf(events, pool) == MintOf(earlier, pool)
            && PoolPauseEnd(events, pool) == PoolPauseEnd(earlier, pool)
  {
    assert (earlier + [ev])[..|earlier|] == earlier;
  }

  lemma {:induction false} AfterNext(earlier: seq<Event>, ev: Event)
    ensures After(earlier + [ev]) == Stepped(After(earlier), ev)
  {
    assert (earlier + [ev])[..|earlier|] == earlier;
  }

  /** The entry of the pool is what the history says of it. */
  ghost predicate IsTheHistory(events: seq<Event>, pool: string) {
    Holds(After(events), pool, ClosesOf(events, pool), MintOf(events, pool), PoolPauseEnd(events, pool))
  }

  lemma {:induction false} OwnCloseKeepsHistory(earlier: seq<Event>, ev: Event)
    requires ClosesIn(ev, ev.pool) && IsTheHistory(earlier, ev.pool)
    ensures IsTheHistory(earlier + [ev], ev.pool) && ev.pool in After(earlier + [ev])
  {
    OwnHistory(earlier, ev);
    AfterNext(earlier, ev);
    RecordedHolds(After(earlier), ev.pool, ev.mint, ev.close, ev.now, ev.rules,
                  ClosesOf(earlier, ev.pool), MintOf(earlier, ev.pool), PoolPauseEnd(earlier, ev.pool));
  }

  lemma {:induction false} OtherEventKeepsHistory(earlier: seq<Event>, ev: Event, pool: string)
    requires !ClosesIn(ev, pool) && IsTheHistory(earlier, pool)
    ensures IsTheHistory(earlier + [ev], pool)
    ensures pool in After(earlier + [ev]) <==> pool in After(earlier) || (pool != "" && ev == Seen(pool))
  {
    OtherHistory(earlier, ev, pool);
    AfterNext(earlier, ev);
    OthersHold(After(earlier), ev, pool, ClosesOf(earlier, pool), MintOf(earlier, pool), PoolPauseEnd(earlier, pool));
  }

  /**
   Every pool's entry holds exactly its closes in order, figures that are those of the whole history, the
   first token named for it, and the end of the last pause set for it, whatever snapshots and notes came
   in between.
   */
  lemma {:induction false} MemoryIsTheHistory(events: seq<Event>, pool: string)
    ensures Holds(After(events), pool, ClosesOf(events, pool), MintOf(events, pool), PoolPauseEnd(events, pool))
  {
    assert IsTheHistory(events, pool) by {
      if events != [] {
        var earlier, ev := events[..|events| - 1], events[|events| - 1];
        MemoryIsTheHistory(earlier, pool);
        assert earlier + [ev] == events;
        if ClosesIn(ev, pool) { OwnCloseKeepsHistory(earlier, ev); } else { OtherEventKeepsHistory(earlier, ev, pool); }
      }
    }
  }

  lemma {:induction false} SeenOfMore(earlier: seq<Event>, ev: Event, pool: string)
    ensures Seen(pool) in earlier + [ev] <==> Seen(pool) in earlier || ev == Seen(pool)
  {
  }

  /** A pool is known exactly when it was closed in, or entered by a snapshot or a note. */
  lemma {:induction false} KnownIff(events: seq<Event>, pool: string)
    ensures pool in After(events) <==> pool != "" && (Seen(pool) in events || ClosesOf(events, pool) != [])
  {
    if events != [] {
      var earlier, ev := events[..|events| - 1], events[|events| - 1];
      KnownIff(earlier, pool);
      MemoryIsTheHistory(earlier, pool);
      assert earlier + [ev] == events;
      SeenOfMore(earlier, ev, pool);
      if ClosesIn(ev, pool) {
        OwnCloseKeepsHistory(earlier, ev);
        OwnHistory(earlier, ev);
      } else {
        OtherEventKeepsHistory(earlier, ev, pool);
        OtherHistory(earlier, ev, pool);
      }
    }
  }

  /** The end stored in a pool's entry, if it has one. */
  function PausedUntil(memory: map<string, Entry>, pool: string): Option<int> {
    if pool in memory then memory[pool].pausedUntil else None
  }

  lemma StoredEndIsTheLast(events: seq<Event>, pool: string)
    ensures PausedUntil(After(events), pool) == PoolPauseEnd(events, pool)
  {
    MemoryIsTheHistory(events, pool);
  }

  lemma {:induction false} NoAddressNoPause(events: seq<Event>)
    ensures PoolPauseEnd(events, "") == None
  {
    if events != [] { NoAddressNoPause(events[..|events| - 1]); }
  }

  /** A pool is paused exactly until the end that the last pause set for it. */
  lemma PoolIsPausedIff(events: seq<Event>, pool: string, now: int)
    ensures PoolIsPaused(After(events), pool, now)
        <==> PoolPauseEnd(events, pool).Some? && PoolPauseEnd(events, pool).value > now
  {
    MemoryIsTheHistory(events, pool);
    NoAddressNoPause(events);
  }

  // ---------- Which close set a pause ----------

  /** The end of the pool's pause that event `k` set, if it set one. */
  function PoolEndAt(events: seq<Event>, k: nat, pool: string): (end: Option<int>)
    ensures end.Some? ==> k < |events| && ClosesIn(events[k], pool)
  {
    if k < |events| then LastPoolEnd(events[..k + 1], pool) else None
  }

  /** Event `k` set the pool's pause, and no later one set another. */
  ghost predicate SetsLastPoolEnd(events: seq<Event>, k: nat, pool: string) {
    PoolEndAt(events, k, pool).Some? && forall j: nat :: k < j ==> PoolEndAt(events, j, pool).None?
  }

  lemma PoolEndAtEarlier(events: seq<Event>, k: nat, pool: string)
    requires events != []
    ensures PoolEndAt(events[..|events| - 1], k, pool) == if k < |events| - 1 then PoolEndAt(events, k, pool) else None
    ensures k == |events| - 1 ==> PoolEndAt(events, k, pool) == LastPoolEnd(events, pool)
  {
    if k < |events| - 1 { assert events[..|events| - 1][..k + 1] == events[..k + 1]; }
    if k == |events| - 1 { assert events[..k + 1] == events; }
  }

  lemma {:induction false} PoolEndWasSet(events: seq<Event>, pool: string) returns (k: nat)
    requires PoolPauseEnd(events, pool).Some?
    ensures SetsLastPoolEnd(events, k, pool) && PoolEndAt(events, k, pool) == PoolPauseEnd(events, pool)
  {
    var n := |events| - 1;
    forall j: nat
      ensures PoolEndAt(events[..n], j, pool) == if j < n then PoolEndAt(events, j, pool) else None
      ensures j == n ==> PoolEndAt(events, j, pool) == LastPoolEnd(events, pool)
    {
      PoolEndAtEarlier(events, j, pool);
    }
    k := n;
    if LastPoolEnd(events, pool).None? { k := PoolEndWasSet(events[..n], pool); }
  }

  /** There is only one such event, and the end in force is the one that it set. */
  lemma PoolEndIsSetBy(events: seq<Event>, k: nat, pool: string)
    requires SetsLastPoolEnd(events, k, pool)
    ensures PoolPauseEnd(events, pool) == PoolEndAt(events, k, pool)
  {
    PoolEndExists(events, k, pool);
    var j := PoolEndWasSet(events, pool);
    assert j == k;
  }

  lemma {:induction false} PoolEndExists(events: seq<Event>, k: nat, pool: string)
    requires PoolEndAt(events, k, pool).Some?
    ensures PoolPauseEnd(events, pool).Some?
  {
    PoolEndAtEarlier(events, k, pool);
    if k < |events| - 1 { PoolEndExists(events[..|events| - 1], k, pool); }
  }

  /** The end of the token's pause that event `k` set, if it set one. */
  function TokenEndAt(events: seq<Event>, k: nat, mint: string): (end: Option<int>)
    ensures end.Some? ==> k < |events| && ClosesIn(events[k], events[k].pool)
  {
    if k < |events| then LastTokenEnd(events[..k + 1], mint) else None
  }

  /** Event `k` set the token's pause, and no later one set another. */
  ghost predicate SetsLastTokenEnd(events: seq<Event>, k: nat, mint: string) {
    TokenEndAt(events, k, mint).Some? && forall j: nat :: k < j ==> TokenEndAt(events, j, mint).None?
  }

  lemma TokenEndAtEarlier(events: seq<Event>, k: nat, mint: string)
    requires events != []
    ensures TokenEndAt(events[..|events| - 1], k, mint) == if k < |events| - 1 then TokenEndAt(events, k, mint) else None
    ensures k == |events| - 1 ==> TokenEndAt(events, k, mint) == LastTokenEnd(events, mint)
  {
    if k < |events| - 1 { assert events[..|events| - 1][..k + 1] == events[..k + 1]; }
    if k == |events| - 1 { assert events[..k + 1] == events; }
  }

  lemma {:induction false} TokenEndWasSet(events: seq<Event>, mint: string) returns (k: nat)
    requires TokenPauseEnd(events, mint).Some?
    ensures SetsLastTokenEnd(events, k, mint) && TokenEndAt(events, k, mint) == TokenPauseEnd(events, mint)
  {
    var n := |events| - 1;
    forall j: nat
      ensures TokenEndAt(events[..n], j, mint) == if j < n then TokenEndAt(events, j, mint) else None
      ensures j == n ==> TokenEndAt(events, j, mint) == LastTokenEnd(events, mint)
    {
      TokenEndAtEarlier(events, j, mint);
    }
    k := n;
    if LastTokenEnd(events, mint).None? { k := TokenEndWasSet(events[..n], mint); }
  }

  /** There is only one such event, and the end in force is the one that it set. */
  lemma TokenEndIsSetBy(events: seq<Event>, k: nat, mint: string)
    requires SetsLastTokenEnd(events, k, mint)
    ensures TokenPauseEnd(events, mint) == TokenEndAt(events, k, mint)
  {
    TokenEndExists(events, k, mint);
    var j := TokenEndWasSet(events, mint);
    assert j == k;
  }

  lemma {:induction false} TokenEndExists(events: seq<Event>, k: nat, mint: string)
    requires TokenEndAt(events, k, mint).Some?
    ensures TokenPauseEnd(events, mint).Some?
  {
    TokenEndAtEarlier(events, k, mint);
    if k < |events| - 1 { TokenEndExists(events[..|events| - 1], k, mint); }
  }

  // ---------- Paused tokens ----------

  /** Every pause that an entry carries for the token is the last one, and some entry carries it. */
  ghost predicate CarriesLast(memory: map<string, Entry>, mint: string, last: Option<int>) {
    && (forall p :: p in memory && memory[p].baseMint == mint && memory[p].mintPausedUntil.Some? ==> memory[p].mintPausedUntil == last)
    && (last.Some? ==> exists p :: p in memory && memory[p].baseMint == mint && memory[p].mintPausedUntil == last)
  }

  ghost predicate TokenlessAreFree(memory: map<string, Entry>) {
    forall p :: p in memory && memory[p].baseMint == "" ==> memory[p].mintPausedUntil.None?
  }

  lemma NotedCarriesLast(memory: map<string, Entry>, pool: string, mint: string, c: Close, token: string, last: Option<int>)
    requires token != "" && CarriesLast(memory, token, last) && TokenlessAreFree(memory)
    ensures CarriesLast(memory[pool := Noted(memory, pool, mint, c)], token, last)
    ensures TokenlessAreFree(memory[pool := Noted(memory, pool, mint, c)])
  {
    var m := memory[pool := Noted(memory, pool, mint, c)];
    if last.Some? {
      var p :| p in memory && memory[p].baseMint == token && memory[p].mintPausedUntil == last;
      assert p in m && m[p].baseMint == token && m[p].mintPausedUntil == last;
    }
  }

  lemma EnteredCarriesLast(memory: map<string, Entry>, pool: string, token: string, last: Option<int>)
    requires token != "" && CarriesLast(memory, token, last) && TokenlessAreFree(memory)
    ensures CarriesLast(Entered(memory, pool), token, last) && TokenlessAreFree(Entered(memory, pool))
  {
    var m := Entered(memory, pool);
    if last.Some? {
      var p :| p in memory && memory[p].baseMint == token && memory[p].mintPausedUntil == last;
      assert p in m && m[p].baseMint == token && m[p].mintPausedUntil == last;
    }
  }

  lemma PausedCarriesLast(memory: map<string, Entry>, pool: string, poolUntil: Option<int>,
                          mint: string, mintUntil: Option<int>, token: string, last: Option<int>)
    requires token != "" && pool in memory && memory[pool].baseMint == mint && CarriesLast(memory, token, last) && TokenlessAreFree(memory)
    ensures var m := Paused(memory, pool, poolUntil, mint, mintUntil);
            CarriesLast(m, token, if mintUntil.Some? && mint == token then mintUntil else last) && TokenlessAreFree(m)
  {
    var m := Paused(memory, pool, poolUntil, mint, mintUntil);
    if mintUntil.Some? && mint == token {
      assert m[pool].baseMint == token && m[pool].mintPausedUntil == mintUntil;
    } else if last.Some? {
      var p :| p in memory && memory[p].baseMint == token && memory[p].mintPausedUntil == last;
      assert p in m && m[p].baseMint == token && m[p].mintPausedUntil == last;
    }
  }

  function TokenEnd(e: Entry, now: int, mint: string, rules: Rules, last: Option<int>): Option<int>
    requires e.closes != []
  {
    if e.baseMint == mint then NextEnd(now, TokenPause(e.closes, rules), last) else last
  }

  lemma StoredCarriesLast(memory: map<string, Entry>, pool: string, e: Entry, now: int, mint: string, rules: Rules, last: Option<int>)
    requires mint != "" && e.closes != [] && CarriesLast(memory[pool := e], mint, last) && TokenlessAreFree(memory[pool := e])
    ensures CarriesLast(Stored(memory, pool, e, now, rules), mint, TokenEnd(e, now, mint, rules, last))
    ensures TokenlessAreFree(Stored(memory, pool, e, now, rules))
  {
    PausedCarriesLast(memory[pool := e], pool, Ending(now, PoolPause(e.closes, e.baseMint != "", rules)),
                      e.baseMint, Ending(now, TokenPause(e.closes, rules)), mint, last);
  }

  lemma RecordedCarriesLast(memory: map<string, Entry>, ev: Event, mint: string, last: Option<int>)
    requires mint != "" && ClosesIn(ev, ev.pool) && CarriesLast(memory, mint, last) && TokenlessAreFree(memory)
    ensures var m := Recorded(memory, ev.pool, ev.mint, ev.close, ev.now, ev.rules);
            var e := Noted(memory, ev.pool, ev.mint, ev.close);
            CarriesLast(m, mint, TokenEnd(e, ev.now, mint, ev.rules, last)) && TokenlessAreFree(m)
  {
    NotedCarriesLast(memory, ev.pool, ev.mint, ev.close, mint, last);
    StoredCarriesLast(memory, ev.pool, Noted(memory, ev.pool, ev.mint, ev.close), ev.now, mint, ev.rules, last);
  }

  /** The entry that the last close leaves, read off the history. */
  lemma {:induction false} LastEntryIsHistory(earlier: seq<Event>, ev: Event)
    requires ClosesIn(ev, ev.pool)
    ensures var e := Noted(After(earlier), ev.pool, ev.mint, ev.close);
            e.closes == ClosesOf(earlier + [ev], ev.pool) && e.baseMint == MintOf(earlier + [ev], ev.pool)
  {
    MemoryIsTheHistory(earlier, ev.pool);
    NotedHolds(After(earlier), ev.pool, ev.mint, ev.close,
               ClosesOf(earlier, ev.pool), MintOf(earlier, ev.pool), PoolPauseEnd(earlier, ev.pool));
    OwnHistory(earlier, ev);
  }

  lemma {:induction false} NextTokenPauseEnd(earlier: seq<Event>, ev: Event, mint: string)
    ensures var events := earlier + [ev];
            TokenPauseEnd(events, mint)
            == if ClosesIn(ev, ev.pool) && MintOf(events, ev.pool) == mint
               then NextEnd(ev.now, TokenPause(ClosesOf(events, ev.pool), ev.rules), TokenPauseEnd(earlier, mint))
               else TokenPauseEnd(earlier, mint)
  {
    assert (earlier + [ev])[..|earlier|] == earlier;
  }

  lemma {:induction false} EventCarriesLast(earlier: seq<Event>, ev: Event, mint: string)
    requires mint != "" && CarriesLast(After(earlier), mint, TokenPauseEnd(earlier, mint)) && TokenlessAreFree(After(earlier))
    ensures CarriesLast(After(earlier + [ev]), mint, TokenPauseEnd(earlier + [ev], mint)) && TokenlessAreFree(After(earlier + [ev]))
  {
    AfterNext(earlier, ev);
    NextTokenPauseEnd(earlier, ev, mint);
    if ClosesIn(ev, ev.pool) {
      LastEntryIsHistory(earlier, ev);
      RecordedCarriesLast(After(earlier), ev, mint, TokenPauseEnd(earlier, mint));
    } else if ev.Seen? {
      EnteredCarriesLast(After(earlier), ev.pool, mint, TokenPauseEnd(earlier, mint));
    }
  }

  lemma {:induction false} AfterCarriesLast(events: seq<Event>, mint: string)
    requires mint != ""
    ensures CarriesLast(After(events), mint, TokenPauseEnd(events, mint)) && TokenlessAreFree(After(events))
  {
    if events != [] {
      var earlier, ev := events[..|events| - 1], events[|events| - 1];
      AfterCarriesLast(earlier, mint);
      EventCarriesLast(earlier, ev, mint);
      assert earlier + [ev] == events;
    }
  }

  /** A token is paused exactly until the end that the last pause for it set, whichever pool it was set in. */
  lemma TokenIsPausedIff(events: seq<Event>, mint: string, now: int)
    ensures TokenIsPaused(After(events), mint, now)
        <==> mint != "" && TokenPauseEnd(events, mint).Some? && TokenPauseEnd(events, mint).value > now
  {
    if mint != "" { AfterCarriesLast(events, mint); }
  }

  // ---------- Pauses that are cut short ----------

  predicate NoCloseIn(events: seq<Event>, pool: string) {
    forall k :: 0 <= k < |events| ==> !ClosesIn(events[k], pool)
  }

  lemma {:induction false} OthersKeepPause(events: seq<Event>, between: seq<Event>, pool: string)
    requires NoCloseIn(between, pool)
    ensures PoolPauseEnd(events + between, pool) == PoolPauseEnd(events, pool)
    decreases |between|
  {
    if between == [] {
      assert events + between == events;
    } else {
      var n := |between| - 1;
      OthersKeepPause(events, between[..n], pool);
      assert (events + between)[..|events + between| - 1] == events + between[..n];
    }
  }

  predicate IsCut(before: Option<int>, after: Option<int>) {
    before.Some? && after.Some? && after.value < before.value
  }

  /** Until the pool's next close the stored end stays. */
  lemma PauseIsHeld(events: seq<Event>, between: seq<Event>, pool: string)
    requires NoCloseIn(between, pool)
    ensures PausedUntil(After(events + between), pool) == PausedUntil(After(events), pool)
  {
    StoredEndIsTheLast(events, pool);
    StoredEndIsTheLast(events + between, pool);
    OthersKeepPause(events, between, pool);
  }

  lemma NextStoredEnd(events: seq<Event>, ev: Event)
    requires ClosesIn(ev, ev.pool)
    ensures PausedUntil(After(events + [ev]), ev.pool)
         == NextEnd(ev.now, LastPoolPause(events + [ev]), PausedUntil(After(events), ev.pool))
  {
    StoredEndIsTheLast(events, ev.pool);
    StoredEndIsTheLast(events + [ev], ev.pool);
    OwnHistory(events, ev);
  }

  /**
   Whatever snapshots, notes and closes of other pools came in between, a close brings the stored end of its
   pool's pause forward exactly when it sets a pause that ends before it; without one it leaves the end alone.
   */
  lemma PauseIsCutIff(events: seq<Event>, between: seq<Event>, ev: Event)
    requires ClosesIn(ev, ev.pool) && NoCloseIn(between, ev.pool)
    ensures var all := events + between + [ev];
            var before, after, pause := PausedUntil(After(events), ev.pool), PausedUntil(After(all), ev.pool), LastPoolPause(all);
            && (IsCut(before, after) <==> before.Some? && pause.Some? && ev.now + pause.value < before.value)
            && (pause.None? ==> after == before)
  {
    PauseIsHeld(events, between, ev.pool);
    NextStoredEnd(events + between, ev);
  }

  lemma LastClose(events: seq<Event>, ev: Event)
    requires ClosesIn(ev, ev.pool)
    ensures var closes := ClosesOf(events + [ev], ev.pool); closes != [] && closes[|closes| - 1] == ev.close
  {
    assert (events + [ev])[..|events|] == events;
  }

  /** Every stop loss and every low-yield close pauses its pool. */
  lemma BadClosesPause(events: seq<Event>, ev: Event)
    requires ClosesIn(ev, ev.pool) && (ev.close.stopLoss || ev.close.lowYield)
    ensures LastPoolPause(events + [ev]).Some?
  {
    LastClose(events, ev);
  }

  /** A close that pauses its pool stores the end of that pause. */
  lemma PauseIsStored(events: seq<Event>, ev: Event)
    requires ClosesIn(ev, ev.pool) && LastPoolPause(events + [ev]).Some?
    ensures PausedUntil(After(events + [ev]), ev.pool) == Some(ev.now + LastPoolPause(events + [ev]).value)
  {
    StoredEndIsTheLast(events + [ev], ev.pool);
    OwnHistory(events, ev);
  }

  /** The end of the pause that the last of the events, a close at `now`, set. */
  predicate IsEndOf(until: Option<int>, events: seq<Event>, now: int)
    requires events != []
  {
    LastPoolPause(events).Some? && until == Some(now + LastPoolPause(events).value)
  }

  lemma BadCloseIsStored(events: seq<Event>, ev: Event, pool: string)
    requires ClosesIn(ev, pool) && (ev.close.stopLoss || ev.close.lowYield)
    ensures IsEndOf(PausedUntil(After(events + [ev]), pool), events + [ev], ev.now)
  {
    BadClosesPause(events, ev);
    PauseIsStored(events, ev);
  }

  lemma StopIsHeld(events: seq<Event>, stop: Event, between: seq<Event>)
    requires ClosesIn(stop, stop.pool) && stop.close.stopLoss && NoCloseIn(between, stop.pool)
    ensures IsEndOf(PausedUntil(After(events + [stop] + between), stop.pool), events + [stop], stop.now)
  {
    BadCloseIsStored(events, stop, stop.pool);
    PauseIsHeld(events + [stop], between, stop.pool);
  }

  predicate NoRuleRepeats(closes: seq<Close>, rules: Rules) {
    !RepeatedlyEarning(closes, rules) && !RepeatedlyOutOfRange(closes, rules)
  }

  /** The close is for low yield alone, and no repetition rule applies to it. */
  predicate IsPlainLowYield(events: seq<Event>, low: Event) {
    && ClosesIn(low, low.pool) && low.close.lowYield && !low.close.stopLoss
    && NoRuleRepeats(ClosesOf(events + [low], low.pool), low.rules)
  }

  lemma LowYieldPausesFourHours(events: seq<Event>, low: Event)
    requires IsPlainLowYield(events, low)
    ensures LastPoolPause(events + [low]) == Some(LOW_YIELD_PAUSE)
  {
    LastClose(events, low);
  }

  /**
   After a stop loss, under any configuration and with any closes of other pools, snapshots and notes in
   between, the pool's stored pause is still the one the stop loss set; and the pool's next close, if it is
   for low yield, shortens it exactly when its own pause ends first. When it is no stop loss and no
   repetition rule applies to it, that is four hours after it.
   */
  lemma LowYieldCutsPauseIff(events: seq<Event>, stop: Event, between: seq<Event>, low: Event)
    requires ClosesIn(stop, stop.pool) && ClosesIn(low, stop.pool)
    requires stop.close.stopLoss && low.close.lowYield && NoCloseIn(between, stop.pool)
    ensures var stopped, held, all := events + [stop], events + [stop] + between, events + [stop] + between + [low];
            var before, after := PausedUntil(After(held), stop.pool), PausedUntil(After(all), stop.pool);
            && IsEndOf(before, stopped, stop.now) && IsEndOf(after, all, low.now)
            && (IsCut(before, after) <==> low.now + LastPoolPause(all).value < stop.now + LastPoolPause(stopped).value)
            && (IsPlainLowYield(held, low) ==> LastPoolPause(all) == Some(LOW_YIELD_PAUSE))
  {
    var held := events + [stop] + between;
    StopIsHeld(events, stop, between);
    BadCloseIsStored(held, low, stop.pool);
    if IsPlainLowYield(held, low) { LowYieldPausesFourHours(held, low); }
  }

  /** The default settings: three repeats, twelve hours. */
  const DEFAULT_RULES := Rules(3, 43200000, true, 3, 43200000, Both, 0.0)

  function PlainClose(stopLoss: bool, lowYield: bool): Close {
    Close(Some(-5.0), lowYield, stopLoss, false, false, 0.0, 0.0, 0.0)
  }

  const STOPPED := Closed("pool", "mint", PlainClose(true, false), 0, DEFAULT_RULES)

  const LOW := Closed("pool", "mint", PlainClose(false, true), 3600000, DEFAULT_RULES)

  lemma DefaultPauses()
    ensures LastPoolPause([] + [STOPPED]) == Some(43200000)
    ensures LastPoolPause([STOPPED] + [LOW]) == Some(LOW_YIELD_PAUSE)
  {
    assert [] + [STOPPED] == [STOPPED] && ([STOPPED] + [LOW])[..1] == [STOPPED];
    assert ClosesOf([STOPPED], "pool") == [STOPPED.close];
    assert ClosesOf([STOPPED] + [LOW], "pool") == [STOPPED.close, LOW.close];
  }

  /** With the default settings a low-yield close an hour after a stop loss ends the stored pause seven hours early. */
  lemma LowYieldCutsDefaultPause()
    ensures PausedUntil(After([STOPPED]), "pool") == Some(43200000)
    ensures PausedUntil(After([STOPPED] + [LOW]), "pool") == Some(18000000)
  {
    DefaultPauses();
    PauseIsStored([], STOPPED);
    PauseIsStored([STOPPED], LOW);
    assert [] + [STOPPED] == [STOPPED];
  }
}
