/**
 What every history of bookings, settlements, write-offs, reconciliations and markings guarantees.
 */
module LedgerTheorems {
  import opened Money
  import opened Ledger
  import opened Options

  predicate Ascending(targets: seq<nat>) {
    forall j, k :: 0 <= j < k < |targets| ==> targets[j] < targets[k]
  }

  predicate AllPending(trades: seq<Trade>, targets: seq<nat>)
    requires InRange(targets, |trades|)
  {
    forall k :: 0 <= k < |targets| ==> trades[targets[k]].Pending()
  }

  /** Each target is closed once, the first as the primary one if asked for, and no other trade changes. */
  ghost predicate ClosedAt(before: seq<Trade>, after: seq<Trade>, targets: seq<nat>, c: Closing, primary: bool)
    requires InRange(targets, |before|)
  {
    && |after| == |before|
    && (forall i :: 0 <= i < |after| && i !in targets ==> after[i] == before[i])
    && (forall k :: 0 <= k < |targets| ==> after[targets[k]] == ClosedOut(before[targets[k]], c, primary && k == 0))
  }

  lemma ClosedAfterFirst(before: seq<Trade>, after: seq<Trade>, targets: seq<nat>, c: Closing, primary: bool)
    requires targets != [] && InRange(targets, |before|) && InRange(targets[1..], |before|) && Ascending(targets)
    requires ClosedAt(before[targets[0] := ClosedOut(before[targets[0]], c, primary)], after, targets[1..], c, false)
    ensures ClosedAt(before, after, targets, c, primary)
  {
    var rest := targets[1..];
    var next := before[targets[0] := ClosedOut(before[targets[0]], c, primary)];
    assert forall i :: i in targets <==> i == targets[0] || i in rest;
    forall k | 0 < k < |targets| ensures next[targets[k]] == before[targets[k]] && targets[k] == rest[k - 1] {
    }
    assert targets[0] !in rest;
  }

  /** Closing out touches exactly the targets, and each of them once. */
  lemma {:induction false} CloseAllPointwise(s: Books, targets: seq<nat>, c: Closing, primary: bool)
    requires InRange(targets, |s.trades|) && Ascending(targets)
    ensures ClosedAt(s.trades, CloseAll(s, targets, c, primary).trades, targets, c, primary)
    decreases |targets|
  {
    if targets != [] {
      assert forall k :: 0 <= k < |targets[1..]| ==> targets[1..][k] == targets[k + 1];
      CloseAllPointwise(Finish(s, targets[0], ClosedOut(s.trades[targets[0]], c, primary)), targets[1..], c, false);
      ClosedAfterFirst(s.trades, CloseAll(s, targets, c, primary).trades, targets, c, primary);
    }
  }

  lemma TargetsArePending(trades: seq<Trade>, mint: string, position: string)
    ensures var targets := Targets(trades, mint, position);
            InRange(targets, |trades|) && Ascending(targets) && AllPending(trades, targets)
  {
    WhereIsWanted(trades, AwaitingSaleOf(mint), 0);
  }

  lemma OrphansArePending(trades: seq<Trade>, pendingMints: set<string>)
    ensures var targets := Orphans(trades, pendingMints);
            InRange(targets, |trades|) && Ascending(targets) && AllPending(trades, targets)
  {
    WhereIsWanted(trades, OrphanedFrom(pendingMints), 0);
  }

  /** Only a sale treats its first trade differently. */
  lemma WriteDownsAreAlike(s: Books, targets: seq<nat>, at: int)
    requires InRange(targets, |s.trades|)
    ensures CloseAll(s, targets, WriteDown(at), true) == CloseAll(s, targets, WriteDown(at), false)
  {
  }

  /** Writing down a list of trades begins with its first. */
  lemma CloseFirst(s: Books, i: nat, rest: seq<nat>, at: int)
    requires i < |s.trades| && InRange([i] + rest, |s.trades|) && InRange(rest, |s.trades|)
    ensures CloseAll(s, [i] + rest, WriteDown(at), true)
         == CloseAll(Finish(s, i, WrittenDown(s.trades[i], at)), rest, WriteDown(at), true)
  {
    assert ([i] + rest)[0] == i && ([i] + rest)[1..] == rest;
    WriteDownsAreAlike(Finish(s, i, WrittenDown(s.trades[i], at)), rest, at);
  }

  /** The orphans still ahead, once trade `i` was looked at. */
  lemma OrphansAhead(s: Books, i: nat, pendingMints: set<string>, at: int)
    requires i < |s.trades|
    ensures var rest := Where(OrphanWrittenDown(s, i, pendingMints, at).trades, OrphanedFrom(pendingMints), i + 1);
            Where(s.trades, OrphanedFrom(pendingMints), i) == if Orphan(s.trades[i], pendingMints) then [i] + rest else rest
  {
    WhereFrame(s.trades, OrphanWrittenDown(s, i, pendingMints, at).trades, OrphanedFrom(pendingMints), i + 1);
  }

  lemma OrphanClosesFirst(s: Books, i: nat, pendingMints: set<string>, at: int, rest: seq<nat>)
    requires i < |s.trades| && InRange(rest, |s.trades|)
    ensures var targets := if Orphan(s.trades[i], pendingMints) then [i] + rest else rest;
            && InRange(targets, |s.trades|)
            && CloseAll(s, targets, WriteDown(at), true)
               == CloseAll(OrphanWrittenDown(s, i, pendingMints, at), rest, WriteDown(at), true)
  {
    if Orphan(s.trades[i], pendingMints) { CloseFirst(s, i, rest, at); }
  }

  /** What is left to write down once trade `i` was looked at is what is left of the list. */
  lemma OrphanStepCloses(s: Books, i: nat, pendingMints: set<string>, at: int, rest: seq<nat>, targets: seq<nat>)
    requires i < |s.trades| && InRange(rest, |s.trades|) && InRange(targets, |s.trades|)
    requires targets == if Orphan(s.trades[i], pendingMints) then [i] + rest else rest
    requires var next := OrphanWrittenDown(s, i, pendingMints, at);
             ReconciledFrom(next, i + 1, pendingMints, at) == CloseAll(next, rest, WriteDown(at), true)
    ensures ReconciledFrom(s, i, pendingMints, at) == CloseAll(s, targets, WriteDown(at), true)
  {
    OrphanClosesFirst(s, i, pendingMints, at, rest);
  }

  /** Writing orphans down while scanning is closing out the orphans found beforehand. */
  lemma {:induction false} ReconciledClosesOrphans(s: Books, i: nat, pendingMints: set<string>, at: int)
    requires i <= |s.trades|
    ensures ReconciledFrom(s, i, pendingMints, at) ==
            CloseAll(s, Where(s.trades, OrphanedFrom(pendingMints), i), WriteDown(at), true)
    decreases |s.trades| - i
  {
    if i < |s.trades| {
      var next := OrphanWrittenDown(s, i, pendingMints, at);
      ReconciledClosesOrphans(next, i + 1, pendingMints, at);
      OrphansAhead(s, i, pendingMints, at);
      OrphanStepCloses(s, i, pendingMints, at, Where(next.trades, OrphanedFrom(pendingMints), i + 1),
                       Where(s.trades, OrphanedFrom(pendingMints), i));
    }
  }

  // ---------- The summary adds up ----------

  /** Net profit is cash profit plus unsold value, to within a cent. */
  ghost predicate Balanced(t: Trade) {
    -0.01 <= t.netPnlUsd - t.CashPnl() - t.OpenResidual() <= 0.01
  }

  ghost predicate AllBalanced(trades: seq<Trade>) {
    forall i :: 0 <= i < |trades| ==> Balanced(trades[i])
  }

  /** The reported value is cash plus unsold value, to within half a cent. */
  ghost predicate ArrivesBalanced(r: CloseReport) {
    var t := Booked(r, 0);
    -0.005 <= t.finalUsd - t.cashUsd - t.OpenResidual() <= 0.005
  }

  ghost predicate BookingsBalanced(history: seq<Op>) {
    forall i :: 0 <= i < |history| && history[i].BookOp? && !Rejected(history[i].report) ==>
                  ArrivesBalanced(history[i].report)
  }

  lemma ClosedOutIsBalanced(t: Trade, c: Closing, primary: bool)
    ensures Balanced(ClosedOut(t, c, primary))
  {
    var after := ClosedOut(t, c, primary);
    CentsIsClose(after.finalUsd - after.initialUsd + after.feesUsd);
  }

  lemma MarkedIsBalanced(t: Trade, prices: map<string, real>, balances: Option<seq<Token>>)
    requires Balanced(t)
    ensures Balanced(Marked(t, prices, balances))
  {
    if Revalues(t, prices, balances) {
      var after := Marked(t, prices, balances);
      CentsIsClose(t.cashUsd + after.residualUsd);
      CentsIsClose(after.finalUsd - t.initialUsd + t.feesUsd);
    }
  }

  lemma CloseAllIsBalanced(s: Books, targets: seq<nat>, c: Closing)
    requires InRange(targets, |s.trades|) && Ascending(targets) && AllBalanced(s.trades)
    ensures AllBalanced(CloseAll(s, targets, c, true).trades)
  {
    CloseAllPointwise(s, targets, c, true);
    var after := CloseAll(s, targets, c, true).trades;
    forall i | 0 <= i < |after| ensures Balanced(after[i]) {
      if i in targets {
        var k :| 0 <= k < |targets| && targets[k] == i;
        ClosedOutIsBalanced(s.trades[i], c, k == 0);
      }
    }
  }

  lemma ApplyIsBalanced(s: Books, op: Op)
    requires AllBalanced(s.trades)
    requires op.BookOp? && !Rejected(op.report) ==> ArrivesBalanced(op.report)
    ensures AllBalanced(Apply(s, op).trades)
  {
    match op
    case BookOp(r, at) =>
      if !Rejected(r) {
        var t := Booked(r, at);
        CentsIsClose(t.finalUsd - t.initialUsd + t.feesUsd);
        assert Balanced(t);
      }
    case SettleOp(mint, position, sale) =>
      TargetsArePending(s.trades, mint, position);
      CloseAllIsBalanced(s, Targets(s.trades, mint, position), sale);
    case AbandonOp(mint, position, at) =>
      TargetsArePending(s.trades, mint, position);
      CloseAllIsBalanced(s, Targets(s.trades, mint, position), WriteDown(at));
    case ReconcileOp(pending, at) =>
      OrphansArePending(s.trades, pending);
      ReconciledClosesOrphans(s, 0, pending, at);
      CloseAllIsBalanced(s, Orphans(s.trades, pending), WriteDown(at));
    case MarkOp(prices, balances) =>
      forall i | 0 <= i < |s.trades| ensures Balanced(Marked(s.trades[i], prices, balances)) {
        MarkedIsBalanced(s.trades[i], prices, balances);
      }
  }

  lemma {:induction false} ReplayIsBalanced(history: seq<Op>)
    requires BookingsBalanced(history)
    ensures AllBalanced(Replay(history).trades)
  {
    if history != [] {
      ReplayIsBalanced(history[..|history| - 1]);
      ApplyIsBalanced(Replay(history[..|history| - 1]), history[|history| - 1]);
    }
  }

  lemma {:induction false} SumsBalance(trades: seq<Trade>)
    requires AllBalanced(trades)
    ensures -0.01 * |trades| as real <= TotalsOf(trades).net - TotalsOf(trades).cash - TotalsOf(trades).residual <= 0.01 * |trades| as real
  {
    if trades != [] {
      SumsBalance(trades[..|trades| - 1]);
      assert Balanced(trades[|trades| - 1]);
    }
  }

  /**
   After any history, total profit equals cash-realized profit plus unsold value, to within one cent
   per trade and the rounding of the three figures themselves.
   */
  lemma SummaryAddsUp(history: seq<Op>)
    requires BookingsBalanced(history) && Replay(history).trades != []
    ensures var trades := Replay(history).trades;
            var summary := Summarize(trades);
            var gap := summary.totalPnlUsd - summary.cashRealizedPnlUsd - summary.unrealizedResidualUsd;
            -0.01 * |trades| as real - 0.015 <= gap <= 0.01 * |trades| as real + 0.015
  {
    var trades := Replay(history).trades;
    ReplayIsBalanced(history);
    SumsBalance(trades);
    var x := TotalsOf(trades);
    CentsIsClose(x.net);
    CentsIsClose(x.cash);
    CentsIsClose(x.residual);
  }

  // ---------- The figures of a trade agree with each other ----------

  lemma PercentOfInitial(gain: real, initial: real)
    requires initial > 0.0
    ensures Percent(gain, initial) * initial == gain * 100.0
  {
  }

  /** The percentage, taken of the cost, gives back the net profit up to both roundings. */
  ghost predicate PercentMatches(pct: real, initial: real, net: real) {
    initial > 0.0 ==> -0.5 - 0.005 * initial <= pct * initial - net * 100.0 <= 0.5 + 0.005 * initial
  }

  /** Profit is value less cost, with and without fees, in dollars and percent; a trade settled later is worth exactly its cash. */
  ghost predicate FiguresAgree(t: Trade) {
    && t.pnlUsd == t.netPnlUsd
    && -0.005 <= t.netPnlUsd - (t.finalUsd - t.initialUsd + t.feesUsd) <= 0.005
    && -0.005 <= t.pricePnlUsd - (t.finalUsd - t.initialUsd) <= 0.005
    && PercentMatches(t.pnlPct, t.initialUsd, t.netPnlUsd)
    && PercentMatches(t.pricePnlPct, t.initialUsd, t.pricePnlUsd)
    && (t.settledAt.Some? ==> !t.Pending() && t.finalUsd == t.cashUsd && t.residualUsd == 0.0 && t.residualTokens == 0.0)
    && (t.Pending() ==> t.settledAt.None?)
  }

  lemma ProductIsNonNegative(x: real, y: real)
    requires x >= 0.0 && y >= 0.0
    ensures x * y >= 0.0
  {
  }

  /** Scaling two amounts scales the bound on their gap. */
  lemma CloseProducts(a: real, b: real, bound: real, factor: real, scaled: real)
    requires factor > 0.0 && -bound <= a - b <= bound && scaled == bound * factor
    ensures -scaled <= a * factor - b * factor <= scaled
  {
    ProductIsNonNegative(bound - (a - b), factor);
    ProductIsNonNegative(bound + (a - b), factor);
  }

  /** Rounding a percentage to a cent keeps it matching. */
  lemma RoundedPercentMatches(exact: real, initial: real, net: real)
    requires initial > 0.0 ==> -0.5 <= exact * initial - net * 100.0 <= 0.5
    ensures PercentMatches(Cents(exact), initial, net)
  {
    if initial > 0.0 {
      CentsIsClose(exact);
      CloseProducts(Cents(exact), exact, 0.005, initial, 0.005 * initial);
    }
  }

  lemma WithPnlAgrees(t: Trade)
    requires t.settledAt.Some? ==> !t.Pending() && t.finalUsd == t.cashUsd && t.residualUsd == 0.0 && t.residualTokens == 0.0
    requires t.Pending() ==> t.settledAt.None?
    ensures FiguresAgree(WithPnl(t))
  {
    var net := t.finalUsd - t.initialUsd + t.feesUsd;
    CentsIsClose(t.finalUsd - t.initialUsd);
    CentsIsClose(net);
    GainMatches(net, t.initialUsd);
    GainMatches(t.finalUsd - t.initialUsd, t.initialUsd);
  }

  /** The rounded percentage of a gain matches the rounded gain. */
  lemma GainMatches(gain: real, initial: real)
    ensures PercentMatches(Cents(Percent(gain, initial)), initial, Cents(gain))
  {
    CentsIsClose(gain);
    if initial > 0.0 { PercentOfInitial(gain, initial); }
    RoundedPercentMatches(Percent(gain, initial), initial, Cents(gain));
  }

  lemma MarkedPercentMatches(net: real, initial: real)
    requires initial != 0.0
    ensures PercentMatches(Round(net / initial * 10000.0) as real / 100.0, initial, net)
  {
    var exact := net / initial * 100.0;
    assert net / initial * 10000.0 == exact * 100.0;
    if initial > 0.0 {
      PercentOfInitial(net, initial);
    }
    RoundedPercentMatches(exact, initial, net);
  }

  lemma RevaluedAgrees(t: Trade, prices: map<string, real>, balances: Option<seq<Token>>)
    requires FiguresAgree(t) && Revalues(t, prices, balances)
    ensures FiguresAgree(Marked(t, prices, balances))
  {
    var after := Marked(t, prices, balances);
    assert after.initialUsd == t.initialUsd && after.settledAt == t.settledAt && after.status == t.status;
    CentsIsClose(after.finalUsd - t.initialUsd);
    CentsIsClose(after.finalUsd - t.initialUsd + t.feesUsd);
    GainMatches(after.finalUsd - t.initialUsd, t.initialUsd);
    assert PercentMatches(after.pnlPct, t.initialUsd, after.netPnlUsd) by {
      if t.initialUsd != 0.0 {
        MarkedPercentMatches(after.netPnlUsd, t.initialUsd);
      }
    }
  }

  lemma MarkedAgrees(t: Trade, prices: map<string, real>, balances: Option<seq<Token>>)
    requires FiguresAgree(t)
    ensures FiguresAgree(Marked(t, prices, balances))
  {
    if Revalues(t, prices, balances) {
      RevaluedAgrees(t, prices, balances);
    }
  }

  ghost predicate AllAgree(trades: seq<Trade>) {
    forall i :: 0 <= i < |trades| ==> FiguresAgree(trades[i])
  }

  lemma ClosedOutAgrees(t: Trade, c: Closing, primary: bool)
    ensures FiguresAgree(ClosedOut(t, c, primary))
  {
    var after := ClosedOut(t, c, primary);
    WithPnlAgrees(after);
  }

  lemma CloseAllFiguresAgree(s: Books, targets: seq<nat>, c: Closing)
    requires InRange(targets, |s.trades|) && Ascending(targets) && AllAgree(s.trades)
    ensures AllAgree(CloseAll(s, targets, c, true).trades)
  {
    CloseAllPointwise(s, targets, c, true);
    var after := CloseAll(s, targets, c, true).trades;
    forall i | 0 <= i < |after| ensures FiguresAgree(after[i]) {
      if i in targets {
        var k :| 0 <= k < |targets| && targets[k] == i;
        ClosedOutAgrees(s.trades[i], c, k == 0);
      }
    }
  }

  lemma NextFiguresAgree(s: Books, op: Op)
    requires AllAgree(s.trades)
    ensures AllAgree(Apply(s, op).trades)
  {
    match op
    case BookOp(r, at) =>
      if !Rejected(r) { WithPnlAgrees(Booked(r, at)); }
    case SettleOp(mint, position, sale) =>
      TargetsArePending(s.trades, mint, position);
      CloseAllFiguresAgree(s, Targets(s.trades, mint, position), sale);
    case AbandonOp(mint, position, at) =>
      TargetsArePending(s.trades, mint, position);
      CloseAllFiguresAgree(s, Targets(s.trades, mint, position), WriteDown(at));
    case ReconcileOp(pending, at) =>
      OrphansArePending(s.trades, pending);
      ReconciledClosesOrphans(s, 0, pending, at);
      CloseAllFiguresAgree(s, Orphans(s.trades, pending), WriteDown(at));
    case MarkOp(prices, balances) =>
      forall i | 0 <= i < |s.trades| ensures FiguresAgree(Marked(s.trades[i], prices, balances)) {
        MarkedAgrees(s.trades[i], prices, balances);
      }
  }

  /** In every reachable ledger the figures of every trade agree with each other. */
  lemma {:induction false} FiguresAlwaysAgree(history: seq<Op>)
    ensures AllAgree(Replay(history).trades)
  {
    if history != [] {
      FiguresAlwaysAgree(history[..|history| - 1]);
      NextFiguresAgree(Replay(history[..|history| - 1]), history[|history| - 1]);
    }
  }

  lemma {:induction false} PricesAndFeesSum(trades: seq<Trade>)
    requires AllAgree(trades)
    ensures var x := TotalsOf(trades); -0.01 * |trades| as real <= x.net - x.price - x.fees <= 0.01 * |trades| as real
  {
    if trades != [] {
      PricesAndFeesSum(trades[..|trades| - 1]);
      assert FiguresAgree(trades[|trades| - 1]);
    }
  }

  /**
   After any history, without a condition on what was booked, total profit equals price profit plus fees,
   to within one cent per trade and the rounding of the three figures themselves.
   */
  lemma PriceAndFeesAddUp(history: seq<Op>)
    requires Replay(history).trades != []
    ensures var trades := Replay(history).trades;
            var summary := Summarize(trades);
            var gap := summary.totalPnlUsd - summary.totalPricePnlUsd - summary.totalFeesUsd;
            -0.01 * |trades| as real - 0.015 <= gap <= 0.01 * |trades| as real + 0.015
  {
    var trades := Replay(history).trades;
    FiguresAlwaysAgree(history);
    PricesAndFeesSum(trades);
    var x := TotalsOf(trades);
    CentsIsClose(x.net);
    CentsIsClose(x.price);
    CentsIsClose(x.fees);
  }

  // ---------- Where a close report's figures come from ----------

  datatype CloseAccounting = CloseAccounting(status: Status, cashUsd: real, residualUsd: real, tokens: real)

  predicate HasUnsoldInventory(unsoldAmount: real, unsoldUsd: real, minUsd: real) {
    Max(0.0, unsoldAmount) > 0.0 && Max(0.0, unsoldUsd) >= Max(0.0, minUsd)
  }

  /** Splits a closed position's value between returned cash and tokens still held. */
  function ResolveCloseAccounting(finalUsd: real, unsoldAmount: real, unsoldUsd: real, minUsd: real): CloseAccounting {
    var final := Max(0.0, finalUsd);
    var unsold := Max(0.0, unsoldUsd);
    if !HasUnsoldInventory(unsoldAmount, unsoldUsd, minUsd) then
      CloseAccounting(Realized, Cents(final), 0.0, 0.0)
    else
      var residual := Cents(Min(unsold, if final > 0.0 then final else unsold));
      CloseAccounting(ClosedPendingSwap, Cents(Max(0.0, final - residual)), residual, Max(0.0, unsoldAmount))
  }

  ghost predicate UsesAccounting(r: CloseReport, a: CloseAccounting) {
    && r.status == Some(a.status) && r.cashUsd == Some(a.cashUsd)
    && r.residualUsd == Some(a.residualUsd) && r.residualTokens == Some(a.tokens)
  }

  /**
   A report built from the close accounting arrives balanced exactly when a positive final value was
   known, or the final value is zero to the half cent and no inventory worth half a cent is held. A
   close whose final value was never fetched (zero) while priced tokens are held books a net loss
   that the cash and unsold figures do not explain.
   */
  lemma AccountingArrivesBalanced(r: CloseReport, unsoldAmount: real, unsoldUsd: real, minUsd: real)
    requires UsesAccounting(r, ResolveCloseAccounting(r.finalUsd, unsoldAmount, unsoldUsd, minUsd))
    ensures ArrivesBalanced(r) <==>
            || r.finalUsd > 0.0
            || (r.finalUsd >= -0.005 && (!HasUnsoldInventory(unsoldAmount, unsoldUsd, minUsd) || unsoldUsd < 0.005))
  {
    var final := Max(0.0, r.finalUsd);
    var unsold := Max(0.0, unsoldUsd);
    var residual := Cents(Min(unsold, if final > 0.0 then final else unsold));
    CentsIsClose(final);
    CentsIsClose(Min(unsold, if final > 0.0 then final else unsold));
    CentsIsClose(Max(0.0, final - residual));
    assert Cents(0.0) == 0.0;
    assert unsold < 0.005 ==> Cents(unsold) == 0.0;
    assert unsold >= 0.005 ==> Cents(unsold) >= 0.01 by {
      assert unsold >= 0.005 ==> Round(unsold * 100.0) >= 1;
    }
  }

  /** A hundred dollars went in, tokens worth forty are held, and the final value was never fetched. */
  const UNFETCHED := CloseReport(
    "position", "pool", "mint", "mint", Some(ClosedPendingSwap),
    1.0, 100.0, 2.0, 0.02, 0.0, Some(0.0), Some(0.0), Some(40.0), Some(5.0), "take profit")

  /** Such a close arrives with forty dollars more in its parts than in its value. */
  lemma UnfetchedValueArrivesUnbalanced()
    ensures UsesAccounting(UNFETCHED, ResolveCloseAccounting(UNFETCHED.finalUsd, 5.0, 40.0, 0.5))
    ensures !ArrivesBalanced(UNFETCHED)
  {
    assert Cents(0.0) == 0.0;
    assert Round(4000.0) == 4000;
    assert Cents(40.0) == 40.0;
  }

  // ---------- Every settled trade reaches its pool's history exactly once ----------

  /** The line that a settled trade has in the pool's history. */
  ghost function LineOf(t: Trade, pool: string): multiset<Deploy> {
    if t.status == ClosedPendingSwap || t.pool != pool then multiset{}
    else multiset{Deploy(t.pricePnlUsd, t.pricePnlPct, t.netPnlUsd, t.pnlPct, t.pnlUsd, t.feesUsd,
                         if t.settledAt.Some? then t.settledAt.value else t.recordedAt)}
  }

  /** The history lines of the settled trades of a pool. */
  ghost function SettledDeploys(trades: seq<Trade>, pool: string): multiset<Deploy> {
    if trades == [] then multiset{} else
      var t := trades[|trades| - 1];
      SettledDeploys(trades[..|trades| - 1], pool) + LineOf(t, pool)
  }

  ghost function SettledCount(trades: seq<Trade>, pool: string): nat {
    if trades == [] then 0 else
      var t := trades[|trades| - 1];
      SettledCount(trades[..|trades| - 1], pool) + (if !t.Pending() && t.pool == pool then 1 else 0)
  }

  /** The pool's history is that of its settled trades. */
  ghost predicate PoolAgrees(s: Books, pool: string) {
    multiset(Deploys(s.memory, pool)) == SettledDeploys(s.trades, pool)
  }

  ghost predicate MemoryAgrees(s: Books) {
    forall pool :: pool != "" ==> PoolAgrees(s, pool)
  }

  lemma AddedBeforeTheLast(before: multiset<Deploy>, after: multiset<Deploy>, first: multiset<Deploy>, firstAfter: multiset<Deploy>,
                           last: multiset<Deploy>, added: multiset<Deploy>)
    requires before == first + last && after == firstAfter + last && firstAfter == first + added
    ensures after == before + added
  {
  }

  lemma LastSettles(trades: seq<Trade>, t: Trade, pool: string)
    requires trades != [] && trades[|trades| - 1].Pending()
    ensures SettledDeploys(trades[|trades| - 1 := t], pool) == SettledDeploys(trades, pool) + LineOf(t, pool)
  {
    var n := |trades| - 1;
    assert trades[n := t][..n] == trades[..n];
    assert LineOf(trades[n], pool) == multiset{};
  }

  /** An earlier trade settles: what it adds comes before the line of the last one. */
  lemma EarlierSettles(trades: seq<Trade>, i: nat, t: Trade, pool: string)
    requires i < |trades| - 1
    requires var first := trades[..|trades| - 1];
             SettledDeploys(first[i := t], pool) == SettledDeploys(first, pool) + LineOf(t, pool)
    ensures SettledDeploys(trades[i := t], pool) == SettledDeploys(trades, pool) + LineOf(t, pool)
  {
    var first, last := trades[..|trades| - 1], trades[|trades| - 1];
    assert trades[i := t][..|trades| - 1] == first[i := t];
    AddedBeforeTheLast(SettledDeploys(trades, pool), SettledDeploys(trades[i := t], pool), SettledDeploys(first, pool),
                       SettledDeploys(first[i := t], pool), LineOf(last, pool), LineOf(t, pool));
  }

  lemma {:induction false} SettlingAddsOneDeploy(trades: seq<Trade>, i: nat, t: Trade, pool: string)
    requires i < |trades| && trades[i].Pending()
    ensures SettledDeploys(trades[i := t], pool) == SettledDeploys(trades, pool) + LineOf(t, pool)
    decreases |trades|
  {
    if i < |trades| - 1 {
      SettlingAddsOneDeploy(trades[..|trades| - 1], i, t, pool);
      EarlierSettles(trades, i, t, pool);
    } else {
      LastSettles(trades, t, pool);
    }
  }

  lemma RememberedIn(memory: map<string, seq<Deploy>>, t: Trade, pool: string)
    requires pool != "" && !t.Pending()
    ensures multiset(Deploys(Remember(memory, t.pool, DeployOf(t)), pool)) == multiset(Deploys(memory, pool)) + LineOf(t, pool)
  {
  }

  lemma FinishAgrees(s: Books, i: nat, t: Trade, pool: string)
    requires i < |s.trades| && s.trades[i].Pending() && !t.Pending() && pool != "" && PoolAgrees(s, pool)
    ensures PoolAgrees(Finish(s, i, t), pool)
  {
    RememberedIn(s.memory, t, pool);
    SettlingAddsOneDeploy(s.trades, i, t, pool);
  }

  /** Once the first target is closed, the others are still pending, in ascending order. */
  lemma OthersStayPending(trades: seq<Trade>, targets: seq<nat>, t: Trade)
    requires targets != [] && InRange(targets, |trades|) && Ascending(targets) && AllPending(trades, targets)
    ensures var rest, after := targets[1..], trades[targets[0] := t];
            InRange(rest, |after|) && Ascending(rest) && AllPending(after, rest)
  {
    var rest := targets[1..];
    assert forall k :: 0 <= k < |rest| ==> rest[k] == targets[k + 1];
  }

  lemma {:induction false} CloseAllAgrees(s: Books, targets: seq<nat>, c: Closing, primary: bool, pool: string)
    requires InRange(targets, |s.trades|) && Ascending(targets) && AllPending(s.trades, targets)
    requires pool != "" && PoolAgrees(s, pool)
    ensures PoolAgrees(CloseAll(s, targets, c, primary), pool)
    decreases |targets|
  {
    if targets != [] {
      var t := ClosedOut(s.trades[targets[0]], c, primary);
      FinishAgrees(s, targets[0], t, pool);
      OthersStayPending(s.trades, targets, t);
      CloseAllAgrees(Finish(s, targets[0], t), targets[1..], c, false, pool);
    }
  }

  lemma {:induction false} MarkingSettlesNothing(before: seq<Trade>, after: seq<Trade>, pool: string)
    requires |before| == |after|
    requires forall i :: 0 <= i < |before| ==>
                           after[i] == before[i] || (before[i].Pending() && after[i].Pending())
    ensures SettledDeploys(after, pool) == SettledDeploys(before, pool)
  {
    if before != [] {
      MarkingSettlesNothing(before[..|before| - 1], after[..|after| - 1], pool);
    }
  }

  lemma SettledDeploysOfMore(trades: seq<Trade>, t: Trade, pool: string)
    ensures SettledDeploys(trades + [t], pool) == SettledDeploys(trades, pool) + LineOf(t, pool)
  {
    assert (trades + [t])[..|trades|] == trades;
  }

  lemma AppendAgrees(s: Books, t: Trade, pool: string)
    requires pool != "" && PoolAgrees(s, pool)
    ensures PoolAgrees(Books(s.trades + [t], if t.Pending() then s.memory else Remember(s.memory, t.pool, DeployOf(t))), pool)
  {
    SettledDeploysOfMore(s.trades, t, pool);
    if !t.Pending() { RememberedIn(s.memory, t, pool); }
  }

  lemma CloseMintAgrees(s: Books, mint: string, position: string, c: Closing, pool: string)
    requires pool != "" && PoolAgrees(s, pool)
    ensures PoolAgrees(CloseMint(s, mint, position, c), pool)
  {
    TargetsArePending(s.trades, mint, position);
    CloseAllAgrees(s, Targets(s.trades, mint, position), c, true, pool);
  }

  lemma ReconciledAgrees(s: Books, pending: set<string>, at: int, pool: string)
    requires pool != "" && PoolAgrees(s, pool)
    ensures PoolAgrees(Reconciled(s, pending, at), pool)
  {
    OrphansArePending(s.trades, pending);
    ReconciledClosesOrphans(s, 0, pending, at);
    CloseAllAgrees(s, Orphans(s.trades, pending), WriteDown(at), true, pool);
  }

  lemma MarkingKeepsStatus(t: Trade, prices: map<string, real>, balances: Option<seq<Token>>)
    ensures var after := Marked(t, prices, balances); after == t || (t.Pending() && after.Pending())
  {
  }

  lemma MarkedBooksAgree(s: Books, prices: map<string, real>, balances: Option<seq<Token>>, pool: string)
    requires PoolAgrees(s, pool)
    ensures PoolAgrees(MarkedBooks(s, prices, balances), pool)
  {
    var after := MarkAll(s.trades, prices, balances);
    forall i | 0 <= i < |s.trades| ensures after[i] == s.trades[i] || (s.trades[i].Pending() && after[i].Pending()) {
      MarkingKeepsStatus(s.trades[i], prices, balances);
    }
    MarkingSettlesNothing(s.trades, after, pool);
  }

  lemma ApplyAgrees(s: Books, op: Op, pool: string)
    requires pool != "" && PoolAgrees(s, pool)
    ensures PoolAgrees(Apply(s, op), pool)
  {
    match op
    case BookOp(r, at) => if !Rejected(r) { AppendAgrees(s, Booked(r, at), pool); }
    case SettleOp(mint, position, sale) => CloseMintAgrees(s, mint, position, sale, pool);
    case AbandonOp(mint, position, at) => CloseMintAgrees(s, mint, position, WriteDown(at), pool);
    case ReconcileOp(pending, at) => ReconciledAgrees(s, pending, at, pool);
    case MarkOp(prices, balances) => MarkedBooksAgree(s, prices, balances, pool);
  }

  lemma {:induction false} ReplayAgrees(history: seq<Op>, pool: string)
    requires pool != ""
    ensures PoolAgrees(Replay(history), pool)
  {
    if history != [] {
      ReplayAgrees(history[..|history| - 1], pool);
      ApplyAgrees(Replay(history[..|history| - 1]), history[|history| - 1], pool);
    }
  }

  lemma {:induction false} CountIsSize(trades: seq<Trade>, pool: string)
    ensures |SettledDeploys(trades, pool)| == SettledCount(trades, pool)
  {
    if trades != [] {
      CountIsSize(trades[..|trades| - 1], pool);
    }
  }

  /**
   After any history, a pool's deploy history holds the final figures of each of its settled trades
   exactly once, and nothing else; so its length is the number of those trades.
   */
  lemma EachSettledTradeIsRememberedOnce(history: seq<Op>)
    ensures MemoryAgrees(Replay(history))
    ensures forall pool :: pool != "" ==>
              |Deploys(Replay(history).memory, pool)| == SettledCount(Replay(history).trades, pool)
  {
    var s := Replay(history);
    forall pool | pool != "" ensures PoolAgrees(s, pool) && |Deploys(s.memory, pool)| == SettledCount(s.trades, pool) {
      ReplayAgrees(history, pool);
      CountIsSize(s.trades, pool);
      assert |Deploys(s.memory, pool)| == |multiset(Deploys(s.memory, pool))|;
    }
  }

  // ---------- Settled trades are final ----------

  /** What identifies a trade, its cost and its fees. */
  ghost predicate SameTrade(t: Trade, u: Trade) {
    && t.position == u.position && t.pool == u.pool && t.baseMint == u.baseMint
    && t.liquidationMint == u.liquidationMint && t.amountSol == u.amountSol
    && t.initialUsd == u.initialUsd && t.feesUsd == u.feesUsd && t.feesSol == u.feesSol
    && t.closeReason == u.closeReason && t.recordedAt == u.recordedAt
  }

  ghost predicate Extends(before: seq<Trade>, after: seq<Trade>) {
    && |before| <= |after|
    && forall i :: 0 <= i < |before| ==>
                     && SameTrade(before[i], after[i])
                     && (!before[i].Pending() ==> after[i] == before[i])
  }

  lemma CloseAllExtends(s: Books, targets: seq<nat>, c: Closing)
    requires InRange(targets, |s.trades|) && Ascending(targets) && AllPending(s.trades, targets)
    ensures Extends(s.trades, CloseAll(s, targets, c, true).trades)
  {
    CloseAllPointwise(s, targets, c, true);
  }

  lemma ApplyExtends(s: Books, op: Op)
    ensures Extends(s.trades, Apply(s, op).trades)
  {
    match op
    case BookOp(r, at) =>
    case SettleOp(mint, position, sale) =>
      TargetsArePending(s.trades, mint, position);
      CloseAllExtends(s, Targets(s.trades, mint, position), sale);
    case AbandonOp(mint, position, at) =>
      TargetsArePending(s.trades, mint, position);
      CloseAllExtends(s, Targets(s.trades, mint, position), WriteDown(at));
    case ReconcileOp(pending, at) =>
      OrphansArePending(s.trades, pending);
      ReconciledClosesOrphans(s, 0, pending, at);
      CloseAllExtends(s, Orphans(s.trades, pending), WriteDown(at));
    case MarkOp(prices, balances) =>
  }

  /** No later operation changes a settled trade, and none drops or renames a trade. */
  lemma {:induction false} SettledTradesAreFinal(history: seq<Op>, later: seq<Op>)
    ensures Extends(Replay(history).trades, Replay(history + later).trades)
    decreases |later|
  {
    if later == [] {
      assert history + later == history;
    } else {
      var n := |later| - 1;
      SettledTradesAreFinal(history, later[..n]);
      assert (history + later)[..|history + later| - 1] == history + later[..n];
      ApplyExtends(Replay(history + later[..n]), later[n]);
    }
  }

  // ---------- Settlement conserves value ----------

  ghost function CashTotal(trades: seq<Trade>): real {
    if trades == [] then 0.0 else CashTotal(trades[..|trades| - 1]) + trades[|trades| - 1].cashUsd
  }

  /** What a sale adds to a trade's cash before rounding. */
  ghost function Gain(t: Trade, sale: Closing, primary: bool): real
    requires sale.Sale?
  {
    Proceeds(if primary then sale.amountOutSol else 0.0, SolPrice(t, sale.solPrice))
    + KeptResidual(t, primary, sale.amountOutSol)
  }

  /** The residuals that the listed trades turn into cash at face value. */
  ghost function Residuals(trades: seq<Trade>, targets: seq<nat>): real
    requires InRange(targets, |trades|)
    decreases |targets|
  {
    if targets == [] then 0.0 else
      assert forall k :: 0 <= k < |targets[1..]| ==> targets[1..][k] == targets[k + 1];
      Max(0.0, trades[targets[0]].residualUsd) + Residuals(trades, targets[1..])
  }

  lemma {:induction false} CashTotalUpdate(trades: seq<Trade>, i: nat, t: Trade)
    requires i < |trades|
    ensures CashTotal(trades[i := t]) == CashTotal(trades) - trades[i].cashUsd + t.cashUsd
    decreases |trades|
  {
    var n := |trades| - 1;
    if i < n {
      assert trades[i := t][..n] == trades[..n][i := t];
      CashTotalUpdate(trades[..n], i, t);
    } else {
      assert trades[i := t][..n] == trades[..n];
    }
  }

  lemma {:induction false} ResidualsFrame(trades: seq<Trade>, targets: seq<nat>, i: nat, t: Trade)
    requires InRange(targets, |trades|) && i < |trades| && i !in targets
    ensures Residuals(trades[i := t], targets) == Residuals(trades, targets)
    decreases |targets|
  {
    if targets != [] {
      assert forall k :: 0 <= k < |targets[1..]| ==> targets[1..][k] == targets[k + 1];
      ResidualsFrame(trades, targets[1..], i, t);
    }
  }

  lemma NoProceeds(price: real)
    ensures Proceeds(0.0, price) == 0.0
  {
  }

  /** The trades after the first keep their residuals, to half a cent each. */
  lemma {:induction false} FollowersKeepValue(s: Books, targets: seq<nat>, sale: Closing)
    requires sale.Sale? && InRange(targets, |s.trades|) && Ascending(targets)
    ensures var gain := CashTotal(CloseAll(s, targets, sale, false).trades) - CashTotal(s.trades);
            -0.005 * |targets| as real <= gain - Residuals(s.trades, targets) <= 0.005 * |targets| as real
    decreases |targets|
  {
    if targets != [] {
      var i, rest := targets[0], targets[1..];
      assert forall k :: 0 <= k < |rest| ==> rest[k] == targets[k + 1];
      var t := ClosedOut(s.trades[i], sale, false);
      NoProceeds(SolPrice(s.trades[i], sale.solPrice));
      CentsIsClose(s.trades[i].cashUsd + Gain(s.trades[i], sale, false));
      CashTotalUpdate(s.trades, i, t);
      ResidualsFrame(s.trades, rest, i, t);
      FollowersKeepValue(Finish(s, i, t), rest, sale);
    }
  }

  /**
   A settlement credits its proceeds to exactly one trade, the first target, and turns the residuals
   of the other targets into cash at face value: the group's cash rises by exactly that, to half a cent
   per trade. The first trade's own residual is replaced by real proceeds and kept without them.
   */
  lemma SettlementConservesValue(s: Books, mint: string, position: string, sale: Closing)
    requires sale.Sale? && Targets(s.trades, mint, position) != []
    ensures var targets := Targets(s.trades, mint, position);
            var first := s.trades[targets[0]];
            var gain := CashTotal(CloseMint(s, mint, position, sale).trades) - CashTotal(s.trades);
            var due := Proceeds(sale.amountOutSol, SolPrice(first, sale.solPrice))
                       + (if sale.amountOutSol > 0.000001 then 0.0 else Max(0.0, first.residualUsd))
                       + Residuals(s.trades, targets[1..]);
            -0.005 * |targets| as real <= gain - due <= 0.005 * |targets| as real
  {
    var targets := Targets(s.trades, mint, position);
    TargetsArePending(s.trades, mint, position);
    var i, rest := targets[0], targets[1..];
    assert forall k :: 0 <= k < |rest| ==> rest[k] == targets[k + 1];
    var t := ClosedOut(s.trades[i], sale, true);
    CentsIsClose(s.trades[i].cashUsd + Gain(s.trades[i], sale, true));
    CashTotalUpdate(s.trades, i, t);
    ResidualsFrame(s.trades, rest, i, t);
    FollowersKeepValue(Finish(s, i, t), rest, sale);
  }

  lemma RoundedSolIsClose(x: real)
    ensures -0.00005 <= Round(x * 10000.0) as real / 10000.0 - x <= 0.00005
  {
    var n := Round(x * 10000.0);
    assert n as real / 10000.0 * 10000.0 == n as real;
  }

  /** The SOL a trade's kept residual stands for. */
  ghost function KeptSol(kept: real, price: real): real {
    if kept > 0.0 && price > 0.0 then kept / price else 0.0
  }

  lemma SoldCash(t: Trade, sale: Closing, primary: bool)
    requires sale.Sale?
    ensures var price := SolPrice(t, sale.solPrice);
            var sol := if primary then sale.amountOutSol else 0.0;
            var kept := KeptResidual(t, primary, sale.amountOutSol);
            var after := Sold(t, sale, primary);
            && -0.00005 <= after.cashSol - t.cashSol - (sol + KeptSol(kept, price)) <= 0.00005
            && -0.005 <= after.cashUsd - t.cashUsd - (Proceeds(sol, price) + kept) <= 0.005
  {
    var price := SolPrice(t, sale.solPrice);
    var sol := if primary then sale.amountOutSol else 0.0;
    var kept := KeptResidual(t, primary, sale.amountOutSol);
    CentsIsClose(t.cashUsd + Proceeds(sol, price) + kept);
    RoundedSolIsClose(t.cashSol + sol + KeptSol(kept, price));
  }

  /** A sale books the same value in SOL as in dollars, up to the rounding of either figure. */
  lemma SaleBooksOneValue(t: Trade, sale: Closing, primary: bool)
    requires sale.Sale? && SolPrice(t, sale.solPrice) > 0.0
    ensures var after := Sold(t, sale, primary);
            var price := SolPrice(t, sale.solPrice);
            var slack := 0.005 + 0.00005 * price;
            -slack <= (after.cashSol - t.cashSol) * price - (after.cashUsd - t.cashUsd) <= slack
  {
    SoldCash(t, sale, primary);
    OneValue(Sold(t, sale, primary).cashSol - t.cashSol, Sold(t, sale, primary).cashUsd - t.cashUsd,
             if primary then sale.amountOutSol else 0.0, KeptResidual(t, primary, sale.amountOutSol),
             SolPrice(t, sale.solPrice), 0.00005 * SolPrice(t, sale.solPrice));
  }

  lemma OneValue(movedSol: real, movedUsd: real, sol: real, kept: real, price: real, slip: real)
    requires price > 0.0 && kept >= 0.0 && slip == 0.00005 * price
    requires -0.00005 <= movedSol - (sol + KeptSol(kept, price)) <= 0.00005
    requires -0.005 <= movedUsd - (Proceeds(sol, price) + kept) <= 0.005
    ensures -0.005 - slip <= movedSol * price - movedUsd <= 0.005 + slip
  {
    var keptSol := KeptSol(kept, price);
    assert keptSol * price == kept;
    var whole := sol + keptSol;
    CloseProducts(movedSol, whole, 0.00005, price, slip);
    var booked := whole * price;
    assert booked == sol * price + keptSol * price == Proceeds(sol, price) + kept;
    assert -slip <= movedSol * price - booked;
  }

  /** Without proceeds, every settled trade keeps its cash plus unsold value, to half a cent. */
  lemma EmptySettlementKeepsEachTrade(s: Books, mint: string, position: string, sale: Closing, i: nat)
    requires sale.Sale? && sale.amountOutSol == 0.0
    requires i in Targets(s.trades, mint, position)
    ensures var after := CloseMint(s, mint, position, sale).trades;
            && |after| == |s.trades|
            && after[i].status == Realized && after[i].residualUsd == 0.0
            && -0.005 <= after[i].cashUsd - s.trades[i].cashUsd - Max(0.0, s.trades[i].residualUsd) <= 0.005
  {
    var targets := Targets(s.trades, mint, position);
    TargetsArePending(s.trades, mint, position);
    CloseAllPointwise(s, targets, sale, true);
    var k :| 0 <= k < |targets| && targets[k] == i;
    NoProceeds(SolPrice(s.trades[i], sale.solPrice));
    CentsIsClose(s.trades[i].cashUsd + Gain(s.trades[i], sale, k == 0));
  }

  // ---------- Which trades are left pending ----------

  /** Whether the named position has a pending trade that a settlement would single out. */
  predicate SinglesOut(trades: seq<Trade>, position: string) {
    position != "" && FirstPendingOf(trades, position, 0) < |trades|
  }

  /**
   Settling or abandoning a mint leaves no trade awaiting it exactly when no position is singled out,
   or the singled-out trade was the only one awaiting the mint. The siblings of a singled-out trade
   stay pending.
   */
  lemma ClosingAMintClearsItIff(s: Books, mint: string, position: string, c: Closing)
    ensures var after := CloseMint(s, mint, position, c).trades;
            (forall i :: 0 <= i < |after| ==> !after[i].AwaitsSaleOf(mint)) <==>
            || !SinglesOut(s.trades, position)
            || (forall i :: 0 <= i < |s.trades| && s.trades[i].AwaitsSaleOf(mint) ==>
                              i == FirstPendingOf(s.trades, position, 0))
  {
    var targets := Targets(s.trades, mint, position);
    TargetsArePending(s.trades, mint, position);
    CloseAllPointwise(s, targets, c, true);
    var after := CloseMint(s, mint, position, c).trades;
    if SinglesOut(s.trades, position) {
      var first := FirstPendingOf(s.trades, position, 0);
      assert targets == [first];
      assert !after[targets[0]].Pending();
      forall i | 0 <= i < |after| && i != first ensures after[i] == s.trades[i] {
      }
    } else {
      forall i | 0 <= i < |after| ensures !after[i].AwaitsSaleOf(mint) {
        if s.trades[i].AwaitsSaleOf(mint) { WhereFindsAll(s.trades, AwaitingSaleOf(mint), 0, i); }
        if i in targets {
          var k :| 0 <= k < |targets| && targets[k] == i;
          assert !after[targets[k]].Pending();
        }
      }
    }
  }

  /** A close that left five tokens of the mint to sell. */
  function Unsold(position: string): CloseReport {
    CloseReport(position, "pool", "mint", "mint", Some(ClosedPendingSwap),
                1.0, 100.0, 2.0, 0.02, 100.0, Some(0.0), Some(60.0), Some(40.0), Some(5.0), "take profit")
  }

  /** Two closes left tokens of one mint; selling them for the first position leaves the second trade pending. */
  lemma SiblingStaysPending(sale: Closing)
    ensures var s := Books([Booked(Unsold("first"), 0), Booked(Unsold("second"), 0)], map[]);
            var after := CloseMint(s, "mint", "first", sale).trades;
            |after| == 2 && !after[0].Pending() && after[1].AwaitsSaleOf("mint")
  {
    var s := Books([Booked(Unsold("first"), 0), Booked(Unsold("second"), 0)], map[]);
    assert FirstPendingOf(s.trades, "first", 0) == 0;
    assert Targets(s.trades, "mint", "first") == [0];
    CloseAllPointwise(s, [0], sale, true);
  }

  lemma OrphanTargetsIff(trades: seq<Trade>, pendingMints: set<string>, i: nat)
    requires i < |trades|
    ensures i in Orphans(trades, pendingMints) <==> Orphan(trades[i], pendingMints)
  {
    WhereIsWanted(trades, OrphanedFrom(pendingMints), 0);
    if Orphan(trades[i], pendingMints) { WhereFindsAll(trades, OrphanedFrom(pendingMints), 0, i); }
  }

  lemma ReconciledAt(s: Books, pendingMints: set<string>, now: int, after: seq<Trade>, i: nat)
    requires i < |after| == |s.trades|
    requires var targets := Orphans(s.trades, pendingMints);
             && (i !in targets ==> after[i] == s.trades[i])
             && forall k :: 0 <= k < |targets| ==> after[targets[k]] == WrittenDown(s.trades[targets[k]], now)
    ensures after[i] == if Orphan(s.trades[i], pendingMints) then WrittenDown(s.trades[i], now) else s.trades[i]
  {
    OrphanTargetsIff(s.trades, pendingMints, i);
  }

  /**
   After a reconciliation every pending trade awaits a pending mint. Trades that did so before are
   untouched; every other pending trade is a loss worth only the cash it had, even if its tokens were
   sold without the queue knowing them.
   */
  lemma ReconciliationLeavesOnlyTracked(s: Books, pendingMints: set<string>, now: int)
    ensures var after := Reconciled(s, pendingMints, now).trades;
            && |after| == |s.trades|
            && forall i :: 0 <= i < |after| ==>
                 && (after[i].Pending() ==> after[i].Mint() in pendingMints)
                 && after[i] == if Orphan(s.trades[i], pendingMints) then WrittenDown(s.trades[i], now) else s.trades[i]
  {
    var after := Reconciled(s, pendingMints, now).trades;
    OrphansArePending(s.trades, pendingMints);
    ReconciledClosesOrphans(s, 0, pendingMints, now);
    CloseAllPointwise(s, Orphans(s.trades, pendingMints), WriteDown(now), true);
    forall i | 0 <= i < |after|
      ensures (after[i].Pending() ==> after[i].Mint() in pendingMints)
           && after[i] == if Orphan(s.trades[i], pendingMints) then WrittenDown(s.trades[i], now) else s.trades[i]
    {
      ReconciledAt(s, pendingMints, now, after, i);
    }
  }
}
