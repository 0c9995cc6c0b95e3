/**
 The pool memory as the ledger feeds it: each trade that settles is reported to its pool once, so the
 figures and the pauses of a pool are those of its settled trades. Snapshots of open positions and notes
 enter pools too; they add neither figures nor pauses.
 */
module PoolLedger {
  import opened Ledger
  import opened LedgerTheorems
  import opened Money
  import opened Options
  import opened SettlementTheorems
  import opened Text

  import PM = PoolMemory

  // ---------- The trades that an operation settles ----------

  /** The trades of a settlement as they leave it, in order. */
  function Closed(s: Books, targets: seq<nat>, c: Closing, primary: bool): seq<Trade>
    requires InRange(targets, |s.trades|)
    decreases |targets|
  {
    if targets == [] then []
    else
      assert forall k :: 0 <= k < |targets[1..]| ==> targets[1..][k] == targets[k + 1];
      var t := ClosedOut(s.trades[targets[0]], c, primary);
      [t] + Closed(Finish(s, targets[0], t), targets[1..], c, false)
  }

  function Settled(s: Books, op: Op): seq<Trade> {
    match op
    case BookOp(r, at) => if Rejected(r) || Booked(r, at).Pending() then [] else [Booked(r, at)]
    case SettleOp(mint, position, sale) => Closed(s, Targets(s.trades, mint, position), sale, true)
    case AbandonOp(mint, position, at) => Closed(s, Targets(s.trades, mint, position), WriteDown(at), true)
    case ReconcileOp(pendingMints, at) => Closed(s, Orphans(s.trades, pendingMints), WriteDown(at), true)
    case MarkOp(_, _) => []
  }

  // ---------- What is reported of them ----------

  /** The reason given for a close; `why` is the last error of a sale that was given up. */
  function Reason(op: Op, t: Trade, why: string): string {
    match op
    case AbandonOp(_, _, _) => "abandoned_liquidation: " + why
    case ReconcileOp(_, _) => if t.closeReason != "" then t.closeReason else "abandoned_liquidation (orphaned write-down)"
    case _ => t.closeReason
  }

  predicate IsOutOfRange(reason: string) {
    (|Trim(reason)| == 3 && Mentions(Trim(reason), "oor")) || Mentions(reason, "out of range")
  }

  function CloseOf(t: Trade, reason: string): PM.Close {
    PM.Close(Some(t.pnlPct), Mentions(reason, "low yield"), Mentions(reason, "stop loss"), IsOutOfRange(reason),
             IsOutOfRange(reason) || Mentions(reason, "pumped far above range"), t.feesUsd, t.feesSol, Percent(t.feesUsd, t.initialUsd))
  }

  /** A close keeps its trade's reason, unless the trade was abandoned or written down without one. */
  lemma ReasonIsKeptUnlessAbandoned(op: Op, t: Trade, why: string)
    ensures !op.AbandonOp? && t.closeReason != "" ==> Reason(op, t, why) == t.closeReason
    ensures op.AbandonOp? ==> Reason(op, t, why) == "abandoned_liquidation: " + why
    ensures op.ReconcileOp? && t.closeReason == "" ==> Reason(op, t, why) == "abandoned_liquidation (orphaned write-down)"
  {
  }

  /** The whole reason, but for spaces around it, is the three letters in either case. */
  predicate IsShortForOutOfRange(reason: string) {
    |Trim(reason)| == 3 && SaysAt(Trim(reason), "oor", 0)
  }

  lemma ShortIff(text: string)
    requires |text| == 3
    ensures Mentions(text, "oor") <==> SaysAt(text, "oor", 0)
  {
    MentionsIffSays(text, "oor");
    if Says(text, "oor") {
      var i: nat :| SaysAt(text, "oor", i);
      assert i == 0;
    }
  }

  /** A close is reported with the trade's profit and fees, and with what its reason says in letters of either case. */
  lemma ReportSaysWhatItsReasonSays(t: Trade, reason: string)
    ensures var c := CloseOf(t, reason);
            && c.pnlPct == Some(t.pnlPct) && c.feesUsd == t.feesUsd && c.feesSol == t.feesSol
            && (if t.initialUsd > 0.0 then c.feePct * t.initialUsd == t.feesUsd * 100.0 else c.feePct == 0.0)
            && (c.lowYield <==> Says(reason, "low yield")) && (c.stopLoss <==> Says(reason, "stop loss"))
            && (c.outOfRange <==> Says(reason, "out of range") || IsShortForOutOfRange(reason))
            && (c.excluded <==> c.outOfRange || Says(reason, "pumped far above range"))
  {
    MentionsIffSays(reason, "low yield");
    MentionsIffSays(reason, "stop loss");
    MentionsIffSays(reason, "out of range");
    MentionsIffSays(reason, "pumped far above range");
    if |Trim(reason)| == 3 { ShortIff(Trim(reason)); }
    if t.initialUsd > 0.0 { PercentOfInitial(t.feesUsd, t.initialUsd); }
  }

  function MomentOf(op: Op): int {
    match op
    case BookOp(_, at) => at
    case SettleOp(_, _, sale) => sale.at
    case AbandonOp(_, _, at) => at
    case ReconcileOp(_, at) => at
    case MarkOp(_, _) => 0
  }

  function Reports(trades: seq<Trade>, op: Op, why: string, rules: PM.Rules): seq<PM.Event> {
    if trades == [] then []
    else
      var t := trades[|trades| - 1];
      Reports(trades[..|trades| - 1], op, why, rules)
      + [PM.Closed(t.pool, t.baseMint, CloseOf(t, Reason(op, t, why)), MomentOf(op), rules)]
  }

  /** A ledger operation, with the error text and the configuration of its moment, or a snapshot or a note. */
  datatype Happening =
    | Ledgered(op: Op, why: string, rules: PM.Rules)
    | Looked(pool: string)

  function OpsOf(hs: seq<Happening>): seq<Op> {
    if hs == [] then []
    else OpsOf(hs[..|hs| - 1]) + if hs[|hs| - 1].Ledgered? then [hs[|hs| - 1].op] else []
  }

  /** The books that the operations lead to. */
  function BooksAfter(hs: seq<Happening>): Books {
    Replay(OpsOf(hs))
  }

  function ReportsNext(s: Books, h: Happening): seq<PM.Event> {
    match h
    case Ledgered(op, why, rules) => Reports(Settled(s, op), op, why, rules)
    case Looked(pool) => [PM.Seen(pool)]
  }

  /** Everything the pool memory is told over a history. */
  function ReportsOf(hs: seq<Happening>): seq<PM.Event> {
    if hs == [] then []
    else ReportsOf(hs[..|hs| - 1]) + ReportsNext(BooksAfter(hs[..|hs| - 1]), hs[|hs| - 1])
  }

  lemma BooksOfMore(hs: seq<Happening>)
    requires hs != []
    ensures var s, h := BooksAfter(hs[..|hs| - 1]), hs[|hs| - 1];
            BooksAfter(hs) == if h.Ledgered? then Apply(s, h.op) else s
  {
    var ops, h := OpsOf(hs[..|hs| - 1]), hs[|hs| - 1];
    if h.Ledgered? { assert (ops + [h.op])[..|ops|] == ops; } else { assert ops + [] == ops; }
  }

  // ---------- Reports and history lines agree ----------

  /** The history lines of those of the trades that were in the pool, in order. */
  function Lines(trades: seq<Trade>, pool: string): seq<Deploy> {
    if trades == [] then []
    else Lines(trades[..|trades| - 1], pool) + if trades[|trades| - 1].pool == pool then [DeployOf(trades[|trades| - 1])] else []
  }

  lemma {:induction false} LinesOfMore(t: Trade, trades: seq<Trade>, pool: string)
    ensures Lines([t] + trades, pool) == (if t.pool == pool then [DeployOf(t)] else []) + Lines(trades, pool)
  {
    if trades == [] {
      assert [t] + trades == [t] && [t][..0] == [];
    } else {
      LinesOfMore(t, trades[..|trades| - 1], pool);
      assert ([t] + trades)[..|trades|] == [t] + trades[..|trades| - 1];
    }
  }

  lemma RememberAdds(memory: map<string, seq<Deploy>>, t: Trade, pool: string)
    requires pool != ""
    ensures Deploys(Remember(memory, t.pool, DeployOf(t)), pool)
         == Deploys(memory, pool) + if t.pool == pool then [DeployOf(t)] else []
  {
  }

  lemma FirstLineThenOthers(memory: map<string, seq<Deploy>>, t: Trade, others: seq<Trade>, pool: string)
    requires pool != ""
    ensures Deploys(Remember(memory, t.pool, DeployOf(t)), pool) + Lines(others, pool)
         == Deploys(memory, pool) + Lines([t] + others, pool)
  {
    RememberAdds(memory, t, pool);
    LinesOfMore(t, others, pool);
  }

  lemma {:induction false} ClosingAddsLines(s: Books, targets: seq<nat>, c: Closing, primary: bool, pool: string)
    requires pool != "" && InRange(targets, |s.trades|)
    ensures Deploys(CloseAll(s, targets, c, primary).memory, pool)
         == Deploys(s.memory, pool) + Lines(Closed(s, targets, c, primary), pool)
    decreases |targets|
  {
    if targets != [] {
      assert forall k :: 0 <= k < |targets[1..]| ==> targets[1..][k] == targets[k + 1];
      var t := ClosedOut(s.trades[targets[0]], c, primary);
      var next := Finish(s, targets[0], t);
      ClosingAddsLines(next, targets[1..], c, false, pool);
      FirstLineThenOthers(s.memory, t, Closed(next, targets[1..], c, false), pool);
    }
  }

  lemma OneLine(t: Trade, pool: string)
    ensures Lines([t], pool) == if t.pool == pool then [DeployOf(t)] else []
  {
    assert [t][..0] == [];
  }

  /** An operation adds to a pool's history the lines of the trades it settles, in order. */
  lemma OpAddsLines(s: Books, op: Op, pool: string)
    requires pool != ""
    ensures Deploys(Apply(s, op).memory, pool) == Deploys(s.memory, pool) + Lines(Settled(s, op), pool)
  {
    match op
    case BookOp(r, at) =>
      if !Rejected(r) && !Booked(r, at).Pending() {
        RememberAdds(s.memory, Booked(r, at), pool);
        OneLine(Booked(r, at), pool);
      }
    case SettleOp(mint, position, sale) => ClosingAddsLines(s, Targets(s.trades, mint, position), sale, true, pool);
    case AbandonOp(mint, position, at) => ClosingAddsLines(s, Targets(s.trades, mint, position), WriteDown(at), true, pool);
    case ReconcileOp(pendingMints, at) =>
      ReconciledClosesOrphans(s, 0, pendingMints, at);
      ClosingAddsLines(s, Orphans(s.trades, pendingMints), WriteDown(at), true, pool);
    case MarkOp(_, _) =>
  }

  /** Each close is the one of the line at its place. */
  predicate Match(closes: seq<PM.Close>, lines: seq<Deploy>) {
    |closes| == |lines|
    && forall k :: 0 <= k < |lines| ==> closes[k].pnlPct == Some(lines[k].pnlPct) && closes[k].feesUsd == lines[k].feesUsd
  }

  lemma {:induction false} ReportsMatchLines(trades: seq<Trade>, op: Op, why: string, rules: PM.Rules, pool: string)
    requires pool != ""
    ensures Match(PM.ClosesOf(Reports(trades, op, why, rules), pool), Lines(trades, pool))
  {
    if trades != [] {
      var n := |trades| - 1;
      var earlier := Reports(trades[..n], op, why, rules);
      ReportsMatchLines(trades[..n], op, why, rules, pool);
      var last := PM.Closed(trades[n].pool, trades[n].baseMint, CloseOf(trades[n], Reason(op, trades[n], why)), MomentOf(op), rules);
      assert (earlier + [last])[..|earlier|] == earlier;
    }
  }

  lemma {:induction false} ClosesOfBoth(a: seq<PM.Event>, b: seq<PM.Event>, pool: string)
    ensures PM.ClosesOf(a + b, pool) == PM.ClosesOf(a, pool) + PM.ClosesOf(b, pool)
    decreases |b|
  {
    if b == [] {
      assert a + b == a;
    } else {
      assert (a + b)[..|a + b| - 1] == a + b[..|b| - 1];
      ClosesOfBoth(a, b[..|b| - 1], pool);
    }
  }

  lemma MatchBoth(a: seq<PM.Close>, x: seq<Deploy>, b: seq<PM.Close>, y: seq<Deploy>)
    requires Match(a, x) && Match(b, y)
    ensures Match(a + b, x + y)
  {
  }

  lemma NextReportsMatch(s: Books, h: Happening, pool: string)
    requires pool != ""
    ensures Match(PM.ClosesOf(ReportsNext(s, h), pool), if h.Ledgered? then Lines(Settled(s, h.op), pool) else [])
  {
    match h
    case Ledgered(op, why, rules) => ReportsMatchLines(Settled(s, op), op, why, rules, pool);
    case Looked(seen) => assert PM.ClosesOf([PM.Seen(seen)], pool) == [];
  }

  lemma NextLines(hs: seq<Happening>, pool: string)
    requires hs != [] && pool != ""
    ensures var s, h := BooksAfter(hs[..|hs| - 1]), hs[|hs| - 1];
            Deploys(BooksAfter(hs).memory, pool)
            == Deploys(s.memory, pool) + if h.Ledgered? then Lines(Settled(s, h.op), pool) else []
  {
    BooksOfMore(hs);
    if hs[|hs| - 1].Ledgered? { OpAddsLines(BooksAfter(hs[..|hs| - 1]), hs[|hs| - 1].op, pool); }
  }

  /** Over any history, the closes reported for a pool are its history lines, in the same order. */
  lemma {:induction false} ReportsAreTheLines(hs: seq<Happening>, pool: string)
    requires pool != ""
    ensures Match(PM.ClosesOf(ReportsOf(hs), pool), Deploys(BooksAfter(hs).memory, pool))
  {
    if hs != [] {
      var earlier, h := hs[..|hs| - 1], hs[|hs| - 1];
      var s := BooksAfter(earlier);
      ReportsAreTheLines(earlier, pool);
      NextLines(hs, pool);
      NextReportsMatch(s, h, pool);
      ClosesOfBoth(ReportsOf(earlier), ReportsNext(s, h), pool);
      MatchBoth(PM.ClosesOf(ReportsOf(earlier), pool), Deploys(s.memory, pool),
                PM.ClosesOf(ReportsNext(s, h), pool), if h.Ledgered? then Lines(Settled(s, h.op), pool) else []);
    }
  }

  // ---------- The figures of a pool ----------

  function PnlOf(lines: seq<Deploy>): real {
    if lines == [] then 0.0 else lines[0].pnlPct + PnlOf(lines[1..])
  }

  function WinsOf(lines: seq<Deploy>): nat {
    if lines == [] then 0 else (if lines[0].pnlPct >= 0.0 then 1 else 0) + WinsOf(lines[1..])
  }

  /** The lines of the trades of the pool that have settled, in the order of the ledger. */
  function SettledLines(trades: seq<Trade>, pool: string): seq<Deploy> {
    if trades == [] then []
    else
      var t := trades[|trades| - 1];
      SettledLines(trades[..|trades| - 1], pool) + if !t.Pending() && t.pool == pool then [DeployOf(t)] else []
  }

  lemma {:induction false} SettledLinesAreSettled(trades: seq<Trade>, pool: string)
    ensures multiset(SettledLines(trades, pool)) == SettledDeploys(trades, pool)
  {
    if trades != [] { SettledLinesAreSettled(trades[..|trades| - 1], pool); }
  }

  lemma {:induction false} FiguresOfBoth(a: seq<Deploy>, b: seq<Deploy>)
    ensures PnlOf(a + b) == PnlOf(a) + PnlOf(b) && WinsOf(a + b) == WinsOf(a) + WinsOf(b)
    decreases |a|
  {
    if a == [] {
      assert a + b == b;
    } else {
      assert (a + b)[1..] == a[1..] + b;
      FiguresOfBoth(a[1..], b);
    }
  }

  lemma FiguresWithout(lines: seq<Deploy>, i: nat)
    requires i < |lines|
    ensures var rest := lines[..i] + lines[i + 1..];
            && PnlOf(lines) == lines[i].pnlPct + PnlOf(rest)
            && WinsOf(lines) == (if lines[i].pnlPct >= 0.0 then 1 else 0) + WinsOf(rest)
            && multiset(lines) == multiset{lines[i]} + multiset(rest)
  {
    assert lines == lines[..i] + ([lines[i]] + lines[i + 1..]);
    FiguresOfBoth(lines[..i], [lines[i]] + lines[i + 1..]);
    FiguresOfBoth(lines[..i], lines[i + 1..]);
  }

  lemma SameWithoutOne(line: Deploy, a: multiset<Deploy>, b: multiset<Deploy>)
    requires multiset{line} + a == multiset{line} + b
    ensures a == b
  {
    assert multiset{line} + a - multiset{line} == a;
    assert multiset{line} + b - multiset{line} == b;
  }

  /** The same lines in another order have the same figures. */
  lemma {:induction false} FiguresIgnoreOrder(a: seq<Deploy>, b: seq<Deploy>)
    requires multiset(a) == multiset(b)
    ensures |a| == |b| && PnlOf(a) == PnlOf(b) && WinsOf(a) == WinsOf(b)
    decreases |a|
  {
    if a == [] {
      assert |multiset(b)| == |b|;
    } else {
      var first := a[0];
      assert first in multiset(b);
      var i :| 0 <= i < |b| && b[i] == first;
      var rest := b[..i] + b[i + 1..];
      FiguresWithout(b, i);
      assert a == [first] + a[1..];
      SameWithoutOne(first, multiset(a[1..]), multiset(rest));
      FiguresIgnoreOrder(a[1..], rest);
    }
  }

  lemma {:induction false} MatchingFigures(closes: seq<PM.Close>, lines: seq<Deploy>)
    requires Match(closes, lines)
    ensures PM.TotalPnl(closes) == PnlOf(lines) && PM.Wins(closes) == WinsOf(lines)
    decreases |lines|
  {
    if lines != [] { MatchingFigures(closes[1..], lines[1..]); }
  }

  lemma {:induction false} AllAreKnown(closes: seq<PM.Close>)
    requires forall k :: 0 <= k < |closes| ==> closes[k].pnlPct.Some?
    ensures PM.WithPnl(closes) == closes
  {
    if closes != [] { AllAreKnown(closes[..|closes| - 1]); }
  }

  /** The closes of a pool carry the figures of its settled trades. */
  lemma ClosesHaveSettledFigures(hs: seq<Happening>, pool: string)
    requires pool != ""
    ensures var closes, lines := PM.ClosesOf(ReportsOf(hs), pool), SettledLines(BooksAfter(hs).trades, pool);
            && |closes| == |lines| && PM.WithPnl(closes) == closes
            && PM.TotalPnl(closes) == PnlOf(lines) && PM.Wins(closes) == WinsOf(lines)
  {
    var closes, kept := PM.ClosesOf(ReportsOf(hs), pool), Deploys(BooksAfter(hs).memory, pool);
    ReportsAreTheLines(hs, pool);
    MatchingFigures(closes, kept);
    AllAreKnown(closes);
    ReplayAgrees(OpsOf(hs), pool);
    SettledLinesAreSettled(BooksAfter(hs).trades, pool);
    FiguresIgnoreOrder(kept, SettledLines(BooksAfter(hs).trades, pool));
  }

  lemma {:induction false} ReportsAreCloses(trades: seq<Trade>, op: Op, why: string, rules: PM.Rules, pool: string)
    ensures PM.Seen(pool) !in Reports(trades, op, why, rules)
  {
    if trades != [] { ReportsAreCloses(trades[..|trades| - 1], op, why, rules, pool); }
  }

  lemma SeenInBoth(a: seq<PM.Event>, b: seq<PM.Event>, pool: string)
    ensures PM.Seen(pool) in a + b <==> PM.Seen(pool) in a || PM.Seen(pool) in b
  {
  }

  lemma NextSeen(s: Books, h: Happening, pool: string)
    ensures PM.Seen(pool) in ReportsNext(s, h) <==> h == Looked(pool)
  {
    if h.Ledgered? { ReportsAreCloses(Settled(s, h.op), h.op, h.why, h.rules, pool); }
  }

  lemma LookedInMore(earlier: seq<Happening>, h: Happening, pool: string)
    ensures Looked(pool) in earlier + [h] <==> Looked(pool) in earlier || h == Looked(pool)
  {
  }

  lemma ReportsOfMore(earlier: seq<Happening>, h: Happening)
    ensures ReportsOf(earlier + [h]) == ReportsOf(earlier) + ReportsNext(BooksAfter(earlier), h)
  {
    assert (earlier + [h])[..|earlier|] == earlier;
  }

  /** The memory was told of a snapshot or a note of the pool exactly when there was one. */
  predicate ToldIffLooked(hs: seq<Happening>, events: seq<PM.Event>, pool: string) {
    PM.Seen(pool) in events <==> Looked(pool) in hs
  }

  lemma ToldOfMore(earlier: seq<Happening>, h: Happening, events: seq<PM.Event>, more: seq<PM.Event>, pool: string)
    requires ToldIffLooked(earlier, events, pool) && (PM.Seen(pool) in more <==> h == Looked(pool))
    ensures ToldIffLooked(earlier + [h], events + more, pool)
  {
    SeenInBoth(events, more, pool);
    LookedInMore(earlier, h, pool);
  }

  lemma {:induction false} SeenIffLooked(hs: seq<Happening>, pool: string)
    ensures ToldIffLooked(hs, ReportsOf(hs), pool)
  {
    if hs != [] {
      var earlier, h := hs[..|hs| - 1], hs[|hs| - 1];
      SeenIffLooked(earlier, pool);
      assert hs == earlier + [h];
      ReportsOfMore(earlier, h);
      NextSeen(BooksAfter(earlier), h, pool);
      ToldOfMore(earlier, h, ReportsOf(earlier), ReportsNext(BooksAfter(earlier), h), pool);
    }
  }

  function Average(lines: seq<Deploy>): real {
    if lines == [] then 0.0 else Cents(PnlOf(lines) / |lines| as real)
  }

  function WinRate(lines: seq<Deploy>): real {
    if lines == [] then 0.0 else Cents(WinsOf(lines) as real / |lines| as real)
  }

  /**
   After any history, under any configurations, a pool is known to the memory exactly when a snapshot or a
   note entered it or one of its trades has settled; its count, average and win rate are those of its
   settled trades, and zero as long as there is none.
   */
  lemma PoolFiguresAreItsTrades(hs: seq<Happening>, pool: string)
    requires pool != ""
    ensures var memory, lines := PM.After(ReportsOf(hs)), SettledLines(BooksAfter(hs).trades, pool);
            && (pool in memory <==> Looked(pool) in hs || lines != [])
            && (pool in memory ==>
                  && memory[pool].total == |lines|
                  && memory[pool].avgPnlPct == Average(lines) && memory[pool].winRate == WinRate(lines))
  {
    ClosesHaveSettledFigures(hs, pool);
    PM.MemoryIsTheHistory(ReportsOf(hs), pool);
    PM.KnownIff(ReportsOf(hs), pool);
    SeenIffLooked(hs, pool);
  }

  /** A snapshot makes a pool known before any trade of it has settled. */
  lemma SnapshotMakesKnown(pool: string)
    requires pool != ""
    ensures var memory := PM.After(ReportsOf([Looked(pool)]));
            pool in memory && memory[pool].total == 0 && SettledLines(BooksAfter([Looked(pool)]).trades, pool) == []
  {
    PoolFiguresAreItsTrades([Looked(pool)], pool);
    assert [Looked(pool)][..0] == [];
  }

  // ---------- The trades behind the pauses ----------

  /** The trade has settled, and the event reports it as it stands in the ledger. */
  ghost predicate Reported(ev: PM.Event, t: Trade) {
    && !t.Pending() && ev.Closed? && ev.pool == t.pool && ev.mint == t.baseMint
    && exists reason :: ev.close == CloseOf(t, reason)
  }

  ghost predicate IsReportedTrade(ev: PM.Event, trades: seq<Trade>) {
    exists i :: 0 <= i < |trades| && Reported(ev, trades[i])
  }

  ghost predicate AllReported(events: seq<PM.Event>, trades: seq<Trade>) {
    forall k :: 0 <= k < |events| && events[k].Closed? ==> IsReportedTrade(events[k], trades)
  }

  lemma {:induction false} ClosedAreKept(s: Books, targets: seq<nat>, c: Closing, primary: bool)
    requires InRange(targets, |s.trades|) && Ascending(targets)
    ensures var closed, after := Closed(s, targets, c, primary), CloseAll(s, targets, c, primary).trades;
            |closed| == |targets| && |after| == |s.trades|
            && forall k :: 0 <= k < |targets| ==> closed[k] == after[targets[k]] && !closed[k].Pending()
    decreases |targets|
  {
    CloseAllPointwise(s, targets, c, primary);
    if targets != [] {
      var rest := targets[1..];
      assert forall k :: 0 <= k < |rest| ==> rest[k] == targets[k + 1];
      var t := ClosedOut(s.trades[targets[0]], c, primary);
      ClosedAreKept(Finish(s, targets[0], t), rest, c, false);
    }
  }

  ghost predicate AllKept(settled: seq<Trade>, trades: seq<Trade>) {
    forall k :: 0 <= k < |settled| ==> settled[k] in trades && !settled[k].Pending()
  }

  /** The trades that an operation settles are in the ledger after it, as they were settled. */
  lemma SettledAreKept(s: Books, op: Op)
    ensures AllKept(Settled(s, op), Apply(s, op).trades)
  {
    match op
    case BookOp(r, at) =>
      if !Rejected(r) { assert (s.trades + [Booked(r, at)])[|s.trades|] == Booked(r, at); }
    case SettleOp(mint, position, sale) =>
      TargetsArePending(s.trades, mint, position);
      ClosedAreKept(s, Targets(s.trades, mint, position), sale, true);
    case AbandonOp(mint, position, at) =>
      TargetsArePending(s.trades, mint, position);
      ClosedAreKept(s, Targets(s.trades, mint, position), WriteDown(at), true);
    case ReconcileOp(pendingMints, at) =>
      OrphansArePending(s.trades, pendingMints);
      ReconciledClosesOrphans(s, 0, pendingMints, at);
      ClosedAreKept(s, Orphans(s.trades, pendingMints), WriteDown(at), true);
    case MarkOp(_, _) =>
  }

  lemma {:induction false} ReportsAreReported(settled: seq<Trade>, op: Op, why: string, rules: PM.Rules, trades: seq<Trade>)
    requires AllKept(settled, trades)
    ensures AllReported(Reports(settled, op, why, rules), trades)
  {
    if settled != [] {
      var n := |settled| - 1;
      ReportsAreReported(settled[..n], op, why, rules, trades);
      var i :| 0 <= i < |trades| && trades[i] == settled[n];
      assert Reported(Reports(settled, op, why, rules)[|Reports(settled, op, why, rules)| - 1], trades[i]);
    }
  }

  lemma StillReported(events: seq<PM.Event>, before: seq<Trade>, after: seq<Trade>)
    requires AllReported(events, before) && Extends(before, after)
    ensures AllReported(events, after)
  {
    forall k | 0 <= k < |events| && events[k].Closed? ensures IsReportedTrade(events[k], after) {
      var i :| 0 <= i < |before| && Reported(events[k], before[i]);
      assert Reported(events[k], after[i]);
    }
  }

  lemma NextReported(s: Books, h: Happening, after: seq<Trade>)
    requires after == if h.Ledgered? then Apply(s, h.op).trades else s.trades
    ensures AllReported(ReportsNext(s, h), after) && Extends(s.trades, after)
  {
    if h.Ledgered? {
      SettledAreKept(s, h.op);
      ReportsAreReported(Settled(s, h.op), h.op, h.why, h.rules, after);
      ApplyExtends(s, h.op);
    }
  }

  /** Every close that the memory was told of is that of a settled trade, as it still stands in the ledger. */
  lemma {:induction false} ReportsAreOfSettledTrades(hs: seq<Happening>)
    ensures AllReported(ReportsOf(hs), BooksAfter(hs).trades)
  {
    if hs != [] {
      var earlier, h := hs[..|hs| - 1], hs[|hs| - 1];
      ReportsAreOfSettledTrades(earlier);
      BooksOfMore(hs);
      NextReported(BooksAfter(earlier), h, BooksAfter(hs).trades);
      StillReported(ReportsOf(earlier), BooksAfter(earlier).trades, BooksAfter(hs).trades);
    }
  }

  /** The pool's pause in force is the one that report `k` set, the report of a settled trade. */
  ghost predicate IsPoolPausedBy(hs: seq<Happening>, k: nat, pool: string) {
    && k < |ReportsOf(hs)| && PM.SetsLastPoolEnd(ReportsOf(hs), k, pool)
    && IsReportedTrade(ReportsOf(hs)[k], BooksAfter(hs).trades)
  }

  ghost predicate IsTokenPausedBy(hs: seq<Happening>, k: nat, mint: string) {
    && k < |ReportsOf(hs)| && PM.SetsLastTokenEnd(ReportsOf(hs), k, mint)
    && IsReportedTrade(ReportsOf(hs)[k], BooksAfter(hs).trades)
  }

  predicate IsLater(until: Option<int>, now: int) {
    until.Some? && until.value > now
  }

  lemma CloseIsReported(hs: seq<Happening>, k: nat)
    requires k < |ReportsOf(hs)| && ReportsOf(hs)[k].Closed?
    ensures IsReportedTrade(ReportsOf(hs)[k], BooksAfter(hs).trades)
  {
    ReportsAreOfSettledTrades(hs);
  }

  lemma PoolPauseHasItsTrade(hs: seq<Happening>, pool: string) returns (k: nat)
    requires PM.PoolPauseEnd(ReportsOf(hs), pool).Some?
    ensures IsPoolPausedBy(hs, k, pool) && PM.PoolEndAt(ReportsOf(hs), k, pool) == PM.PoolPauseEnd(ReportsOf(hs), pool)
  {
    k := PM.PoolEndWasSet(ReportsOf(hs), pool);
    CloseIsReported(hs, k);
  }

  lemma TokenPauseHasItsTrade(hs: seq<Happening>, mint: string) returns (k: nat)
    requires PM.TokenPauseEnd(ReportsOf(hs), mint).Some?
    ensures IsTokenPausedBy(hs, k, mint) && PM.TokenEndAt(ReportsOf(hs), k, mint) == PM.TokenPauseEnd(ReportsOf(hs), mint)
  {
    k := PM.TokenEndWasSet(ReportsOf(hs), mint);
    CloseIsReported(hs, k);
  }

  /** Some settled trade set the pool's pause in force, by the rules of its moment, and the pause still runs. */
  ghost predicate IsPausedByATrade(hs: seq<Happening>, pool: string, now: int) {
    exists k :: IsPoolPausedBy(hs, k, pool) && IsLater(PM.PoolEndAt(ReportsOf(hs), k, pool), now)
  }

  ghost predicate IsTokenPausedByATrade(hs: seq<Happening>, mint: string, now: int) {
    exists k :: IsTokenPausedBy(hs, k, mint) && IsLater(PM.TokenEndAt(ReportsOf(hs), k, mint), now)
  }

  /**
   A pool is paused exactly while the pause runs that the report of one of its settled trades set, by the
   rules of its moment, and no later report replaced.
   */
  lemma PoolIsPausedByItsTrades(hs: seq<Happening>, pool: string, now: int)
    ensures PM.PoolIsPaused(PM.After(ReportsOf(hs)), pool, now) <==> IsPausedByATrade(hs, pool, now)
  {
    PM.PoolIsPausedIff(ReportsOf(hs), pool, now);
    if PM.PoolPauseEnd(ReportsOf(hs), pool).Some? { var k := PoolPauseHasItsTrade(hs, pool); }
    if IsPausedByATrade(hs, pool, now) {
      var k :| IsPoolPausedBy(hs, k, pool) && IsLater(PM.PoolEndAt(ReportsOf(hs), k, pool), now);
      PM.PoolEndIsSetBy(ReportsOf(hs), k, pool);
    }
  }

  /** The same for a token, whose pause a settled trade in any of its pools may have set. */
  lemma TokenIsPausedByItsTrades(hs: seq<Happening>, mint: string, now: int)
    ensures PM.TokenIsPaused(PM.After(ReportsOf(hs)), mint, now) <==> mint != "" && IsTokenPausedByATrade(hs, mint, now)
  {
    PM.TokenIsPausedIff(ReportsOf(hs), mint, now);
    if PM.TokenPauseEnd(ReportsOf(hs), mint).Some? { var k := TokenPauseHasItsTrade(hs, mint); }
    if IsTokenPausedByATrade(hs, mint, now) {
      var k :| IsTokenPausedBy(hs, k, mint) && IsLater(PM.TokenEndAt(ReportsOf(hs), k, mint), now);
      PM.TokenEndIsSetBy(ReportsOf(hs), k, mint);
    }
  }
}
