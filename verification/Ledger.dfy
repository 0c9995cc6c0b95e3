/**
 The ledger of closed trades (lessons.json) and the per-pool deploy history (pool-memory.json).

 A trade is booked when its position closes. A booked trade is either settled at once or waits
 as `ClosedPendingSwap` until its base tokens are sold (`Realized`) or written off
 (`AbandonedLoss`). Every trade that settles is copied once into its pool's history.

 An absent address is the empty string; moments are milliseconds.
 */
module Ledger {
  import opened Money
  import opened Options

  datatype Status = Realized | ClosedPendingSwap | AbandonedLoss

  datatype Trade = Trade(
    position: string, pool: string, baseMint: string, liquidationMint: string,
    status: Status,
    amountSol: real, initialUsd: real, feesUsd: real, feesSol: real, finalUsd: real,
    cashSol: real, cashUsd: real, residualUsd: real, residualTokens: real,
    pricePnlUsd: real, pricePnlPct: real, netPnlUsd: real, pnlUsd: real, pnlPct: real,
    closeReason: string, recordedAt: int, settledAt: Option<int>, liquidationTx: string)
  {
    predicate Pending() {
      status == ClosedPendingSwap
    }

    /** The mint whose sale would settle this trade. */
    function Mint(): string {
      if liquidationMint != "" then liquidationMint else baseMint
    }

    predicate AwaitsSaleOf(mint: string) {
      Pending() && mint != "" && (liquidationMint == mint || baseMint == mint)
    }

    /** What the summary still counts as unsold. */
    function OpenResidual(): real {
      if Pending() then residualUsd else 0.0
    }

    function CashPnl(): real {
      cashUsd - initialUsd + feesUsd
    }
  }

  /** What a closing position reports. Fields that may be left out are options. */
  datatype CloseReport = CloseReport(
    position: string, pool: string, baseMint: string, liquidationMint: string,
    status: Option<Status>,
    amountSol: real, initialUsd: real, feesUsd: real, feesSol: real, finalUsd: real,
    cashSol: Option<real>, cashUsd: Option<real>, residualUsd: Option<real>, residualTokens: Option<real>,
    closeReason: string)

  /** One line of a pool's deploy history. */
  datatype Deploy = Deploy(
    pricePnlUsd: real, pricePnlPct: real, netPnlUsd: real, pnlPct: real, pnlUsd: real, feesUsd: real,
    closedAt: int)

  datatype Token = Token(mint: string, symbol: string, balance: Option<real>, usd: Option<real>, decimals: Option<nat>)

  datatype Books = Books(trades: seq<Trade>, memory: map<string, seq<Deploy>>)

  const EmptyBooks := Books([], map[])

  // ---------- Booking a closed position ----------

  function Lower(c: char): char {
    if 'A' <= c <= 'Z' then (c as int + 32) as char else c
  }

  /** Whether the lower-cased text contains the phrase. */
  predicate Mentions(text: string, phrase: string)
    decreases |text|
  {
    || (|phrase| <= |text| && forall k :: 0 <= k < |phrase| ==> Lower(text[k]) == phrase[k])
    || (|text| > 0 && Mentions(text[1..], phrase))
  }

  /** A SOL-sized final value in a USD field. */
  predicate LooksUnitMixed(r: CloseReport) {
    && r.initialUsd >= 20.0 && r.amountSol >= 0.25
    && 0.0 < r.finalUsd <= r.amountSol * 2.0
  }

  predicate LooksAbsurd(r: CloseReport) {
    && r.initialUsd >= 20.0
    && Percent(r.finalUsd - r.initialUsd + r.feesUsd, r.initialUsd) <= -90.0
    && !Mentions(r.closeReason, "stop loss")
  }

  /** Reports that are dropped: only those that claim to be settled are vetted. */
  predicate Rejected(r: CloseReport) {
    r.status.GetOr(Realized) == Realized && (LooksUnitMixed(r) || LooksAbsurd(r))
  }

  /** The trade with its profit figures recomputed from its value, cost and fees. */
  function WithPnl(t: Trade): Trade {
    var price := t.finalUsd - t.initialUsd;
    var net := price + t.feesUsd;
    t.(pricePnlUsd := Cents(price), pricePnlPct := Cents(Percent(price, t.initialUsd)),
       netPnlUsd := Cents(net), pnlUsd := Cents(net), pnlPct := Cents(Percent(net, t.initialUsd)))
  }

  function Booked(r: CloseReport, now: int): Trade {
    var status := r.status.GetOr(Realized);
    var settled := status == Realized;
    WithPnl(Trade(
              r.position, r.pool, r.baseMint, if r.liquidationMint != "" then r.liquidationMint else r.baseMint,
              status, r.amountSol, r.initialUsd, r.feesUsd, r.feesSol, r.finalUsd,
              r.cashSol.GetOr(if settled then r.amountSol else 0.0),
              r.cashUsd.GetOr(if settled then r.finalUsd else 0.0),
              r.residualUsd.GetOr(0.0), r.residualTokens.GetOr(0.0),
              0.0, 0.0, 0.0, 0.0, 0.0, r.closeReason, now, None, ""))
  }

  function DeployOf(t: Trade): Deploy {
    Deploy(t.pricePnlUsd, t.pricePnlPct, t.netPnlUsd, t.pnlPct, t.pnlUsd, t.feesUsd, t.settledAt.GetOr(t.recordedAt))
  }

  function Deploys(memory: map<string, seq<Deploy>>, pool: string): seq<Deploy> {
    if pool in memory then memory[pool] else []
  }

  /** A pool without an address keeps no history. */
  function Remember(memory: map<string, seq<Deploy>>, pool: string, d: Deploy): map<string, seq<Deploy>> {
    if pool == "" then memory else memory[pool := Deploys(memory, pool) + [d]]
  }

  function Book(s: Books, r: CloseReport, now: int): Books {
    if Rejected(r) then s else
      var t := Booked(r, now);
      Books(s.trades + [t], if t.Pending() then s.memory else Remember(s.memory, t.pool, DeployOf(t)))
  }

  // ---------- Closing out pending trades ----------

  /** How pending trades leave the ledger: their tokens were sold, or are given up. */
  datatype Closing =
    | Sale(amountOutSol: real, solPrice: Option<real>, tx: string, at: int)
    | WriteDown(at: int)

  /** The given price if there is one, else the price implied by the entry, else 150 dollars. */
  function SolPrice(t: Trade, given: Option<real>): real {
    if given.Some? && given.value != 0.0 then given.value
    else if t.amountSol > 0.0 && t.initialUsd > 0.0 then t.initialUsd / t.amountSol
    else 150.0
  }

  function Proceeds(sol: real, price: real): real {
    sol * price
  }

  /** The residual value a sold trade keeps: none once real proceeds replace it. */
  function KeptResidual(t: Trade, primary: bool, amountOutSol: real): real {
    if primary && amountOutSol > 0.000001 then 0.0 else Max(0.0, t.residualUsd)
  }

  /** Only the primary trade of a sale is credited with its proceeds. */
  function Sold(t: Trade, c: Closing, primary: bool): Trade
    requires c.Sale?
  {
    var sol := if primary then c.amountOutSol else 0.0;
    var price := SolPrice(t, c.solPrice);
    var kept := KeptResidual(t, primary, c.amountOutSol);
    var keptSol := if kept > 0.0 && price > 0.0 then kept / price else 0.0;
    var cash := Cents(t.cashUsd + Proceeds(sol, price) + kept);
    WithPnl(t.(cashSol := Round((t.cashSol + sol + keptSol) * 10000.0) as real / 10000.0,
               cashUsd := cash, residualUsd := 0.0, residualTokens := 0.0, finalUsd := cash,
               status := Realized, settledAt := Some(c.at),
               liquidationTx := if primary && c.tx != "" then c.tx else t.liquidationTx))
  }

  /** Recognises the loss of everything that never became cash. */
  function WrittenDown(t: Trade, at: int): Trade {
    WithPnl(t.(status := AbandonedLoss, settledAt := Some(at), residualUsd := 0.0, residualTokens := 0.0,
               finalUsd := t.cashUsd))
  }

  function ClosedOut(t: Trade, c: Closing, primary: bool): Trade {
    if c.Sale? then Sold(t, c, primary) else WrittenDown(t, c.at)
  }

  /** Replaces trade `i` by its settled form and copies it into its pool's history. */
  function Finish(s: Books, i: nat, t: Trade): Books
    requires i < |s.trades|
  {
    Books(s.trades[i := t], Remember(s.memory, t.pool, DeployOf(t)))
  }

  predicate InRange(targets: seq<nat>, n: nat) {
    forall k :: 0 <= k < |targets| ==> targets[k] < n
  }

  function CloseAll(s: Books, targets: seq<nat>, c: Closing, primary: bool): Books
    requires InRange(targets, |s.trades|)
    decreases |targets|
  {
    if targets == [] then s else
      assert forall k :: 0 <= k < |targets[1..]| ==> targets[1..][k] == targets[k + 1];
      CloseAll(Finish(s, targets[0], ClosedOut(s.trades[targets[0]], c, primary)), targets[1..], c, false)
  }

  /** The first pending trade of the position at or after `from`, or `|trades|`. */
  function FirstPendingOf(trades: seq<Trade>, position: string, from: nat): (i: nat)
    requires from <= |trades|
    ensures from <= i <= |trades|
    ensures i < |trades| ==> trades[i].Pending() && trades[i].position == position
    ensures forall j :: from <= j < i ==> !(trades[j].Pending() && trades[j].position == position)
    decreases |trades| - from
  {
    if from == |trades| || (trades[from].Pending() && trades[from].position == position) then from
    else FirstPendingOf(trades, position, from + 1)
  }

  /** A pending trade that no pending queue entry will ever sell. */
  predicate Orphan(t: Trade, pendingMints: set<string>) {
    t.Pending() && (t.Mint() == "" || t.Mint() !in pendingMints)
  }

  /** Which trades a settlement, or a reconciliation, looks for. */
  datatype Wanted = AwaitingSaleOf(mint: string) | OrphanedFrom(pendingMints: set<string>)

  predicate Meets(t: Trade, wanted: Wanted) {
    match wanted
    case AwaitingSaleOf(mint) => t.AwaitsSaleOf(mint)
    case OrphanedFrom(pendingMints) => Orphan(t, pendingMints)
  }

  /** The indices at or after `from` of the wanted trades, in order. */
  function Where(trades: seq<Trade>, wanted: Wanted, from: nat): (targets: seq<nat>)
    requires from <= |trades|
    ensures InRange(targets, |trades|)
    decreases |trades| - from
  {
    if from == |trades| then []
    else if Meets(trades[from], wanted) then [from] + Where(trades, wanted, from + 1)
    else Where(trades, wanted, from + 1)
  }

  /** No target before `from`, all of them wanted, in ascending order. */
  predicate AreWanted(targets: seq<nat>, trades: seq<Trade>, wanted: Wanted, from: nat)
    requires InRange(targets, |trades|)
  {
    && (forall k :: 0 <= k < |targets| ==> from <= targets[k] && Meets(trades[targets[k]], wanted))
    && (forall j, k :: 0 <= j < k < |targets| ==> targets[j] < targets[k])
  }

  lemma FirstIsWanted(targets: seq<nat>, trades: seq<Trade>, wanted: Wanted, from: nat)
    requires from < |trades| && Meets(trades[from], wanted) && InRange(targets, |trades|) && AreWanted(targets, trades, wanted, from + 1)
    ensures InRange([from] + targets, |trades|) && AreWanted([from] + targets, trades, wanted, from)
  {
    var all := [from] + targets;
    forall k | 0 <= k < |all| ensures all[k] == if k == 0 then from else targets[k - 1] {
    }
  }

  lemma {:induction false} WhereIsWanted(trades: seq<Trade>, wanted: Wanted, from: nat)
    requires from <= |trades|
    ensures AreWanted(Where(trades, wanted, from), trades, wanted, from)
    decreases |trades| - from
  {
    if from < |trades| {
      WhereIsWanted(trades, wanted, from + 1);
      if Meets(trades[from], wanted) { FirstIsWanted(Where(trades, wanted, from + 1), trades, wanted, from); }
    }
  }

  lemma {:induction false} WhereFindsAll(trades: seq<Trade>, wanted: Wanted, from: nat, i: nat)
    requires from <= i < |trades| && Meets(trades[i], wanted)
    ensures i in Where(trades, wanted, from)
    decreases i - from
  {
    if from == i {
      assert ([i] + Where(trades, wanted, i + 1))[0] == i;
    } else {
      WhereFindsAll(trades, wanted, from + 1, i);
    }
  }

  /** One step of a loop that collects indices in order. */
  lemma WhereStep(trades: seq<Trade>, wanted: Wanted, from: nat, found: seq<nat>)
    requires from < |trades|
    ensures found + Where(trades, wanted, from) ==
            (if Meets(trades[from], wanted) then found + [from] else found) + Where(trades, wanted, from + 1)
  {
    if Meets(trades[from], wanted) {
      assert found + ([from] + Where(trades, wanted, from + 1)) == (found + [from]) + Where(trades, wanted, from + 1);
    }
  }

  /** Which indices are collected depends on the trades still ahead only. */
  lemma {:induction false} WhereFrame(before: seq<Trade>, after: seq<Trade>, wanted: Wanted, from: nat)
    requires from <= |before| == |after|
    requires forall i :: from <= i < |before| ==> after[i] == before[i]
    ensures Where(after, wanted, from) == Where(before, wanted, from)
    decreases |before| - from
  {
    if from < |before| {
      WhereFrame(before, after, wanted, from + 1);
    }
  }

  /** A pending trade of the named position stands alone; otherwise every trade awaiting the mint. */
  function Targets(trades: seq<Trade>, mint: string, position: string): seq<nat> {
    var i := FirstPendingOf(trades, position, 0);
    if position != "" && i < |trades| then [i] else Where(trades, AwaitingSaleOf(mint), 0)
  }

  function CloseMint(s: Books, mint: string, position: string, c: Closing): Books {
    CloseAll(s, Targets(s.trades, mint, position), c, true)
  }

  function Orphans(trades: seq<Trade>, pendingMints: set<string>): seq<nat> {
    Where(trades, OrphanedFrom(pendingMints), 0)
  }

  function OrphanWrittenDown(s: Books, i: nat, pendingMints: set<string>, at: int): (r: Books)
    requires i < |s.trades|
    ensures |r.trades| == |s.trades|
  {
    if Orphan(s.trades[i], pendingMints) then Finish(s, i, WrittenDown(s.trades[i], at)) else s
  }

  /** Reconciliation meets the trades in order and writes each orphan down. */
  function ReconciledFrom(s: Books, i: nat, pendingMints: set<string>, at: int): Books
    requires i <= |s.trades|
    decreases |s.trades| - i
  {
    if i == |s.trades| then s else ReconciledFrom(OrphanWrittenDown(s, i, pendingMints, at), i + 1, pendingMints, at)
  }

  /** One step of the reconciliation: a written-down orphan is one of those still to be counted. */
  lemma OneOrphanLess(before: Books, after: Books, i: nat, pendingMints: set<string>, at: int, count: nat)
    requires i < |before.trades| && after == OrphanWrittenDown(before, i, pendingMints, at)
    ensures count + |Where(before.trades, OrphanedFrom(pendingMints), i)|
         == count + (if Orphan(before.trades[i], pendingMints) then 1 else 0) + |Where(after.trades, OrphanedFrom(pendingMints), i + 1)|
    ensures ReconciledFrom(before, i, pendingMints, at) == ReconciledFrom(after, i + 1, pendingMints, at)
  {
    WhereFrame(before.trades, after.trades, OrphanedFrom(pendingMints), i + 1);
  }

  function Reconciled(s: Books, pendingMints: set<string>, at: int): Books {
    ReconciledFrom(s, 0, pendingMints, at)
  }

  // ---------- Marking pending trades to market ----------

  function FindToken(tokens: seq<Token>, mint: string): Option<Token> {
    if tokens == [] then None
    else if tokens[0].mint == mint then Some(tokens[0])
    else FindToken(tokens[1..], mint)
  }

  /** The first token of the mint in the wallet. */
  predicate IsFirstToken(tokens: seq<Token>, mint: string, j: nat) {
    j < |tokens| && tokens[j].mint == mint && forall k :: 0 <= k < j ==> tokens[k].mint != mint
  }

  lemma {:induction false} FindTokenIsFirst(tokens: seq<Token>, mint: string)
    ensures FindToken(tokens, mint).None? ==> forall j :: 0 <= j < |tokens| ==> tokens[j].mint != mint
    ensures forall j: nat :: IsFirstToken(tokens, mint, j) ==> FindToken(tokens, mint) == Some(tokens[j])
  {
    if tokens != [] {
      FindTokenIsFirst(tokens[1..], mint);
      assert forall j :: 0 < j < |tokens| ==> tokens[j] == tokens[1..][j - 1];
      forall j: nat | IsFirstToken(tokens, mint, j) ensures FindToken(tokens, mint) == Some(tokens[j]) {
        if j > 0 {
          assert tokens[0].mint != mint;
          assert IsFirstToken(tokens[1..], mint, j - 1);
        }
      }
    }
  }

  lemma {:induction false} FindTokenIsThere(tokens: seq<Token>, mint: string)
    requires FindToken(tokens, mint).Some?
    ensures exists j: nat :: IsFirstToken(tokens, mint, j)
  {
    if tokens[0].mint == mint {
      assert IsFirstToken(tokens, mint, 0);
    } else {
      FindTokenIsThere(tokens[1..], mint);
      var j: nat :| IsFirstToken(tokens[1..], mint, j);
      assert forall k :: 0 < k < |tokens| ==> tokens[k] == tokens[1..][k - 1];
      assert IsFirstToken(tokens, mint, j + 1);
    }
  }

  /** The unsold amount, refreshed from the wallet when its contents are known. */
  function LiveAmount(t: Trade, balances: Option<seq<Token>>): real {
    if balances.None? then t.residualTokens else
      match FindToken(balances.value, t.Mint())
      case None => 0.0
      case Some(token) => token.balance.GetOr(t.residualTokens)
  }

  function MarketValue(amount: real, price: real): real {
    amount * price
  }

  function Marked(t: Trade, prices: map<string, real>, balances: Option<seq<Token>>): Trade {
    if !t.Pending() || t.Mint() == "" then t else
      var held := t.(residualTokens := LiveAmount(t, balances));
      if !(held.residualTokens > 0.0) || t.Mint() !in prices || prices[t.Mint()] < 0.0 then held else
        var residual := Cents(MarketValue(held.residualTokens, prices[t.Mint()]));
        var final := Cents(t.cashUsd + residual);
        var price := final - t.initialUsd;
        var net := Cents(price + t.feesUsd);
        var cost := if t.initialUsd == 0.0 then 1.0 else t.initialUsd;
        held.(residualUsd := residual, finalUsd := final,
              pricePnlUsd := Cents(price), pricePnlPct := Cents(Percent(price, t.initialUsd)),
              netPnlUsd := net, pnlUsd := net, pnlPct := Round(net / cost * 10000.0) as real / 100.0)
  }

  /** Whether marking revalues the trade, rather than at most refreshing its amount. */
  predicate Revalues(t: Trade, prices: map<string, real>, balances: Option<seq<Token>>) {
    && t.Pending() && t.Mint() != ""
    && LiveAmount(t, balances) > 0.0
    && t.Mint() in prices && prices[t.Mint()] >= 0.0
  }

  function MarkAll(trades: seq<Trade>, prices: map<string, real>, balances: Option<seq<Token>>): (marked: seq<Trade>)
    ensures |marked| == |trades|
    ensures forall i :: 0 <= i < |trades| ==> marked[i] == Marked(trades[i], prices, balances)
  {
    seq(|trades|, i requires 0 <= i < |trades| => Marked(trades[i], prices, balances))
  }

  /** The file is written back only when some trade was revalued. */
  function MarkedBooks(s: Books, prices: map<string, real>, balances: Option<seq<Token>>): Books {
    if exists i :: 0 <= i < |s.trades| && Revalues(s.trades[i], prices, balances)
    then Books(MarkAll(s.trades, prices, balances), s.memory)
    else s
  }

  // ---------- Histories ----------

  datatype Op =
    | BookOp(report: CloseReport, at: int)
    | SettleOp(mint: string, position: string, sale: Closing)
    | AbandonOp(mint: string, position: string, at: int)
    | ReconcileOp(pendingMints: set<string>, at: int)
    | MarkOp(prices: map<string, real>, balances: Option<seq<Token>>)

  function Apply(s: Books, op: Op): Books {
    match op
    case BookOp(r, at) => Book(s, r, at)
    case SettleOp(mint, position, sale) => CloseMint(s, mint, position, sale)
    case AbandonOp(mint, position, at) => CloseMint(s, mint, position, WriteDown(at))
    case ReconcileOp(pending, at) => Reconciled(s, pending, at)
    case MarkOp(prices, balances) => MarkedBooks(s, prices, balances)
  }

  function Replay(history: seq<Op>): Books {
    if history == [] then EmptyBooks else Apply(Replay(history[..|history| - 1]), history[|history| - 1])
  }

  // ---------- The summary ----------

  /** What the summary adds up, over all trades and over those that have settled. */
  datatype Totals = Totals(
    net: real, cash: real, residual: real, price: real, fees: real, pct: real, pricePct: real,
    pending: nat, settled: nat, wins: nat)

  const NothingYet := Totals(0.0, 0.0, 0.0, 0.0, 0.0, 0.0, 0.0, 0, 0, 0)

  function Plus(x: Totals, t: Trade): Totals {
    Totals(x.net + t.netPnlUsd, x.cash + t.CashPnl(), x.residual + t.OpenResidual(),
           x.price + t.pricePnlUsd, x.fees + t.feesUsd, x.pct + t.pnlPct, x.pricePct + t.pricePnlPct,
           x.pending + (if t.Pending() then 1 else 0), x.settled + (if t.Pending() then 0 else 1),
           x.wins + (if !t.Pending() && t.pnlPct >= 0.0 then 1 else 0))
  }

  function TotalsOf(trades: seq<Trade>): (x: Totals)
    ensures x.pending + x.settled == |trades| && x.wins <= x.settled
  {
    if trades == [] then NothingYet else Plus(TotalsOf(trades[..|trades| - 1]), trades[|trades| - 1])
  }

  /** The range efficiency and the number of lessons are not part of this model. */
  datatype Summary = Summary(
    closed: nat, pendingSwaps: nat, settled: nat,
    totalPnlUsd: real, cashRealizedPnlUsd: real, unrealizedResidualUsd: real, totalPricePnlUsd: real, totalFeesUsd: real,
    avgPnlPct: real, avgPricePnlPct: real, winRatePct: int)

  function WinRatePct(wins: nat, settled: nat): (pct: int)
    requires wins <= settled
    ensures 0 <= pct <= 100
  {
    if settled == 0 then 0
    else
      assert 0.0 <= wins as real / settled as real <= 1.0;
      Round(wins as real / settled as real * 100.0)
  }

  function Summarize(trades: seq<Trade>): Summary
    requires trades != []
  {
    var x, n := TotalsOf(trades), |trades| as real;
    Summary(|trades|, x.pending, x.settled,
            Cents(x.net), Cents(x.cash), Cents(x.residual), Cents(x.price), Cents(x.fees),
            Cents(x.pct / n), Cents(x.pricePct / n), WinRatePct(x.wins, x.settled))
  }

  // ---------- The ledger itself ----------

  class TradeLedger {
    var trades: seq<Trade>
    var memory: map<string, seq<Deploy>>
    /** Every operation so far. */
    ghost var history: seq<Op>

    function State(): Books
      reads this
    {
      Books(trades, memory)
    }

    /** The two files are exactly what the recorded operations produce. */
    ghost predicate Valid()
      reads this
    {
      State() == Replay(history)
    }

    constructor ()
      ensures Valid() && trades == [] && memory == map[] && history == []
    {
      trades, memory, history := [], map[], [];
    }

    ghost method Log(op: Op)
      requires State() == Apply(Replay(history), op)
      modifies this`history
      ensures Valid() && history == old(history) + [op]
    {
      assert (history + [op])[..|history|] == history;
      history := history + [op];
    }

    method RecordPoolDeploy(pool: string, d: Deploy)
      modifies this`memory
      ensures memory == Remember(old(memory), pool, d)
    {
      if pool == "" {
        return;
      }
      if pool !in memory {
        memory := memory[pool := []];
      }
      memory := memory[pool := memory[pool] + [d]];
    }

    method RecordPerformance(r: CloseReport, now: int)
      requires Valid()
      modifies this
      ensures Valid() && history == old(history) + [BookOp(r, now)]
      ensures State() == Book(old(State()), r, now)
    {
      if !Rejected(r) {
        var t := Booked(r, now);
        trades := trades + [t];
        if !t.Pending() {
          RecordPoolDeploy(t.pool, DeployOf(t));
        }
      }
      Log(BookOp(r, now));
    }

    method FindTargets(mint: string, position: string) returns (targets: seq<nat>)
      ensures targets == Targets(trades, mint, position)
    {
      targets := [];
      if position != "" {
        var i := 0;
        while i < |trades| && !(trades[i].Pending() && trades[i].position == position)
          invariant i <= |trades|
          invariant FirstPendingOf(trades, position, i) == FirstPendingOf(trades, position, 0)
        {
          i := i + 1;
        }
        if i < |trades| {
          return [i];
        }
      }
      targets := Collect(AwaitingSaleOf(mint));
    }

    method Collect(wanted: Wanted) returns (targets: seq<nat>)
      ensures targets == Where(trades, wanted, 0)
    {
      targets := [];
      var ts := trades;
      for i := 0 to |ts|
        invariant targets + Where(ts, wanted, i) == Where(ts, wanted, 0)
      {
        WhereStep(ts, wanted, i, targets);
        if Meets(ts[i], wanted) {
          targets := targets + [i];
        }
      }
    }

    method CloseTargets(targets: seq<nat>, c: Closing)
      requires InRange(targets, |trades|)
      modifies this`trades, this`memory
      ensures State() == CloseAll(old(State()), targets, c, true)
    {
      var k := 0;
      while k < |targets|
        invariant k <= |targets|
        invariant |trades| == |old(trades)|
        invariant CloseAll(State(), targets[k..], c, k == 0) == CloseAll(old(State()), targets, c, true)
      {
        var i := targets[k];
        var t := ClosedOut(trades[i], c, k == 0);
        assert targets[k..][0] == i && targets[k..][1..] == targets[k + 1..];
        trades := trades[i := t];
        RecordPoolDeploy(t.pool, DeployOf(t));
        k := k + 1;
      }
    }

    method SettleTradeLiquidation(mint: string, position: string, sale: Closing) returns (settled: bool)
      requires Valid() && sale.Sale?
      modifies this
      ensures Valid() && history == old(history) + [SettleOp(mint, position, sale)]
      ensures State() == CloseMint(old(State()), mint, position, sale)
      ensures settled == (Targets(old(trades), mint, position) != [])
    {
      var targets := FindTargets(mint, position);
      CloseTargets(targets, sale);
      settled := targets != [];
      Log(SettleOp(mint, position, sale));
    }

    method AbandonTradeLiquidation(mint: string, position: string, now: int) returns (abandoned: bool)
      requires Valid()
      modifies this
      ensures Valid() && history == old(history) + [AbandonOp(mint, position, now)]
      ensures State() == CloseMint(old(State()), mint, position, WriteDown(now))
      ensures abandoned == (Targets(old(trades), mint, position) != [])
    {
      var targets := FindTargets(mint, position);
      CloseTargets(targets, WriteDown(now));
      abandoned := targets != [];
      Log(AbandonOp(mint, position, now));
    }

    method WriteDownOrphan(i: nat, pendingMints: set<string>, now: int) returns (written: bool)
      requires i < |trades|
      modifies this`trades, this`memory
      ensures written == Orphan(old(trades)[i], pendingMints)
      ensures State() == OrphanWrittenDown(old(State()), i, pendingMints, now)
    {
      written := Orphan(trades[i], pendingMints);
      if written {
        var t := WrittenDown(trades[i], now);
        trades := trades[i := t];
        RecordPoolDeploy(t.pool, DeployOf(t));
      }
    }

    method ReconcileOrphanedPendingSwaps(pendingMints: set<string>, now: int) returns (reconciled: nat)
      requires Valid()
      modifies this
      ensures Valid() && history == old(history) + [ReconcileOp(pendingMints, now)]
      ensures State() == Reconciled(old(State()), pendingMints, now)
      ensures reconciled == |Orphans(old(trades), pendingMints)|
    {
      reconciled := 0;
      for i := 0 to |trades|
        invariant |trades| == |old(trades)| && history == old(history)
        invariant reconciled + |Where(trades, OrphanedFrom(pendingMints), i)| == |Orphans(old(trades), pendingMints)|
        invariant ReconciledFrom(State(), i, pendingMints, now) == Reconciled(old(State()), pendingMints, now)
      {
        ghost var before := State();
        var written := WriteDownOrphan(i, pendingMints, now);
        OneOrphanLess(before, State(), i, pendingMints, now, reconciled);
        reconciled := reconciled + if written then 1 else 0;
      }
      Log(ReconcileOp(pendingMints, now));
    }

    method UpdatePendingTradesMarkToMarket(prices: map<string, real>, balances: Option<seq<Token>>)
      returns (updated: nat)
      requires Valid()
      modifies this
      ensures Valid() && history == old(history) + [MarkOp(prices, balances)]
      ensures State() == MarkedBooks(old(State()), prices, balances)
      ensures updated > 0 <==> exists i :: 0 <= i < |old(trades)| && Revalues(old(trades)[i], prices, balances)
    {
      var ts := trades;
      var marked := [];
      updated := 0;
      for i := 0 to |ts|
        invariant |marked| == i
        invariant forall j :: 0 <= j < i ==> marked[j] == Marked(ts[j], prices, balances)
        invariant updated > 0 <==> exists j :: 0 <= j < i && Revalues(ts[j], prices, balances)
      {
        marked := marked + [Marked(ts[i], prices, balances)];
        if Revalues(ts[i], prices, balances) {
          updated := updated + 1;
        }
      }
      if updated > 0 {
        assert marked == MarkAll(ts, prices, balances);
        trades := marked;
      }
      Log(MarkOp(prices, balances));
    }

    method GetPerformanceSummary() returns (summary: Option<Summary>)
      ensures summary == if trades == [] then None else Some(Summarize(trades))
    {
      if trades == [] {
        return None;
      }
      var x := NothingYet;
      for i := 0 to |trades|
        invariant x == TotalsOf(trades[..i])
      {
        assert trades[..i + 1][..i] == trades[..i];
        x := Plus(x, trades[i]);
      }
      assert trades[..|trades|] == trades;
      var n := |trades| as real;
      summary := Some(Summary(|trades|, x.pending, x.settled,
                              Cents(x.net), Cents(x.cash), Cents(x.residual), Cents(x.price), Cents(x.fees),
                              Cents(x.pct / n), Cents(x.pricePct / n), WinRatePct(x.wins, x.settled)));
    }
  }
}
