/**
 The sweep: it reconciles the wallet with the backlog, tries to sell every pending token, drops old
 settled entries and finally writes down the trades nobody will sell.
 */
module Sweeper {
  import opened Ledger
  import opened Options
  import opened LedgerTheorems
  import opened LiquidationQueue
  import opened Swaps

  const SOL_MINTS := {"So11111111111111111111111111111111111111111", "So11111111111111111111111111111111111111112"}
  const USDC_MINT := "EPjFWdd5AufqSSqeM2qN1xzybapC8G4wEGGkZwyTDt1v"
  const RETENTION_HOURS := 24.0
  const RAW_UNIT_DUST_FLOOR := 1.0

  /** Everything a sweep learns from outside: the wallet, the settings, the clock and the venues. */
  datatype Sweep = Sweep(
    tokens: Option<seq<Token>>, scanIncomplete: bool, skipMints: set<string>,
    minUsd: real, limits: Limits, swapAttempts: nat,
    startedAt: int, handledAt: string -> int, finishedAt: int,
    feeds: string -> nat -> Probe)
  {
    function Skips(): set<string> {
      SOL_MINTS + {USDC_MINT} + skipMints
    }
  }

  datatype Verdict = Skipped | Successful | Failed | GivenUp

  datatype Report = Report(total: nat, successful: nat, failed: nat, abandoned: nat, skipped: nat)

  function UpperAscii(s: string): string {
    seq(|s|, i requires 0 <= i < |s| => if 'a' <= s[i] <= 'z' then (s[i] as int - 32) as char else s[i])
  }

  predicate IsSolOrUsdc(symbol: string) {
    UpperAscii(symbol) in {"SOL", "WSOL", "USDC"}
  }

  function BalanceOf(t: Token): real {
    t.balance.GetOr(0.0)
  }

  function HeldMints(tokens: seq<Token>): set<string> {
    set i | 0 <= i < |tokens| && BalanceOf(tokens[i]) > 0.0 :: tokens[i].mint
  }

  // ---------- Reconciling the wallet with the backlog ----------

  predicate Sellable(t: Token, skips: set<string>) {
    t.mint !in skips && !IsSolOrUsdc(t.symbol) && BalanceOf(t) > 0.0
  }

  predicate Untracked(existing: Option<Entry>) {
    existing.None? || existing.value.stage == Liquidated
  }

  function Found(t: Token): Request {
    Request(BalanceOf(t), t.usd, None, "", "", Pending)
  }

  /** Registers every sellable token that is not tracked yet; tombstones are left alone. */
  function Track(entries: map<string, Entry>, tokens: seq<Token>, skips: set<string>, now: int): map<string, Entry> {
    if tokens == [] then entries else
      var known := Track(entries, tokens[..|tokens| - 1], skips, now);
      var t := tokens[|tokens| - 1];
      if Sellable(t, skips) && Untracked(Lookup(known, t.mint))
      then known[t.mint := Enqueued(Lookup(known, t.mint), Found(t), now)]
      else known
  }

  function FirstSellable(tokens: seq<Token>, mint: string, skips: set<string>): Option<Token> {
    if tokens == [] then None else
      var earlier := FirstSellable(tokens[..|tokens| - 1], mint, skips);
      var t := tokens[|tokens| - 1];
      if earlier.Some? then earlier else if t.mint == mint && Sellable(t, skips) then Some(t) else None
  }

  /** What tracking does to one mint, whatever happens to the others. */
  function Tracked(existing: Option<Entry>, mint: string, tokens: seq<Token>, skips: set<string>, now: int): Option<Entry> {
    var t := FirstSellable(tokens, mint, skips);
    if t.Some? && Untracked(existing) then Some(Enqueued(existing, Found(t.value), now)) else existing
  }

  lemma {:induction false} TrackIsPerMint(
    entries: map<string, Entry>, tokens: seq<Token>, skips: set<string>, now: int, mint: string)
    ensures Lookup(Track(entries, tokens, skips, now), mint) == Tracked(Lookup(entries, mint), mint, tokens, skips, now)
  {
    if tokens != [] {
      TrackIsPerMint(entries, tokens[..|tokens| - 1], skips, now, mint);
    }
  }

  /** The last priced token of a mint decides its price. */
  function PriceMap(tokens: seq<Token>): map<string, real> {
    if tokens == [] then map[] else
      var earlier := PriceMap(tokens[..|tokens| - 1]);
      var t := tokens[|tokens| - 1];
      if t.mint != "" && t.usd.Some? && BalanceOf(t) > 0.0 then earlier[t.mint := t.usd.value / BalanceOf(t)] else earlier
  }

  // ---------- Handling one pending entry ----------

  function Pow10(n: nat): real {
    if n == 0 then 1.0 else 10.0 * Pow10(n - 1)
  }

  predicate IsRawUnitDust(t: Token) {
    && t.usd.None? && BalanceOf(t) > 0.0 && t.decimals.Some?
    && BalanceOf(t) * Pow10(t.decimals.value) <= RAW_UNIT_DUST_FLOOR
  }

  predicate IsDust(t: Token, minUsd: real) {
    (t.usd.Some? && 0.0 <= t.usd.value < minUsd) || IsRawUnitDust(t)
  }

  predicate InWallet(w: Sweep, mint: string)
    requires w.tokens.Some?
  {
    var t := FindToken(w.tokens.value, mint);
    t.Some? && BalanceOf(t.value) > 0.0
  }

  /** Whether a pending entry of the mint is handed to a swap. */
  predicate HandedToSwap(w: Sweep, mint: string)
    requires w.tokens.Some?
  {
    && mint !in w.Skips() && InWallet(w, mint)
    && !IsDust(FindToken(w.tokens.value, mint).value, w.minUsd)
  }

  function Live(w: Sweep, mint: string, e: Entry): Entry
    requires w.tokens.Some? && InWallet(w, mint)
  {
    var t := FindToken(w.tokens.value, mint).value;
    Refreshed(e, BalanceOf(t), t.usd)
  }

  function OutcomeFor(w: Sweep, mint: string, pool: string): Outcome {
    SaleOf(w.feeds(mint), w.swapAttempts, w.minUsd, pool != "").outcome
  }

  /** What a sweep does to the entry of one pending mint, and how it counts it. */
  function Handled(w: Sweep, mint: string, e: Entry): (Entry, Verdict)
    requires w.tokens.Some?
  {
    var now := w.handledAt(mint);
    if mint in w.Skips() then (e, Skipped)
    else if !InWallet(w, mint) then (SoldEntry(e, "", None, WalletEmpty, now), Skipped)
    else if IsDust(FindToken(w.tokens.value, mint).value, w.minUsd) then (Dusted(Live(w, mint, e), now), Skipped)
    else SoldOrTried(w, mint, Live(w, mint, e), e.pool)
  }

  /** The entry and the verdict once a sale of the live entry was tried. */
  function SoldOrTried(w: Sweep, mint: string, live: Entry, pool: string): (Entry, Verdict) {
    var now := w.handledAt(mint);
    var outcome := OutcomeFor(w, mint, pool);
    var left := Swapper.EntryAfter(Some(live), outcome, pool, "", now).value;
    match outcome
    case Bought(_, _) => (left, Successful)
    case NothingLeft(true) => (left, Successful)
    case NothingLeft(false) => Tried(left, w.limits, false, now)
    case GaveUp(_, immediately) => Tried(left, w.limits, immediately, now)
  }

  function Tried(e: Entry, limits: Limits, immediately: bool, now: int): (Entry, Verdict) {
    var after := Attempted(e, limits, immediately, now);
    (after, if after.stage == Abandoned then GivenUp else Failed)
  }

  // ---------- What handling an entry books in the ledger ----------

  /** Giving an entry up writes its trades down. */
  function TrialOps(mint: string, e: Entry, limits: Limits, immediately: bool, now: int): seq<Op> {
    if Attempted(e, limits, immediately, now).stage != Abandoned then []
    else [AbandonOp(mint, if GivesUp(e, limits, immediately, now) then e.position else "", now)]
  }

  function SaleOps(w: Sweep, mint: string, live: Entry, pool: string): seq<Op> {
    var now := w.handledAt(mint);
    var outcome := OutcomeFor(w, mint, pool);
    var left := Swapper.EntryAfter(Some(live), outcome, pool, "", now).value;
    match outcome
    case Bought(amountOut, tx) => [SettleOp(mint, live.position, Ledger.Sale(amountOut.GetOr(0.0), None, tx, now))]
    case NothingLeft(true) => []
    case NothingLeft(false) => TrialOps(mint, left, w.limits, false, now)
    case GaveUp(_, immediately) => TrialOps(mint, left, w.limits, immediately, now)
  }

  /** A token found gone settles its trades without proceeds; a sold one with them; dust books nothing. */
  function OpsFor(w: Sweep, mint: string, e: Entry): seq<Op>
    requires w.tokens.Some?
  {
    if mint in w.Skips() then []
    else if !InWallet(w, mint) then [SettleOp(mint, e.position, Ledger.Sale(0.0, None, "", w.handledAt(mint)))]
    else if IsDust(FindToken(w.tokens.value, mint).value, w.minUsd) then []
    else SaleOps(w, mint, Live(w, mint, e), e.pool)
  }

  /** Everything that handling one entry does. */
  datatype Treatment = Treatment(after: Entry, verdict: Verdict, listed: bool, swapped: bool, ops: seq<Op>)

  function Treated(w: Sweep, mint: string, e: Entry): Treatment
    requires w.tokens.Some?
  {
    Treatment(Handled(w, mint, e).0, Handled(w, mint, e).1, mint !in w.Skips(), HandedToSwap(w, mint), OpsFor(w, mint, e))
  }

  type Plan = map<string, Treatment>

  function PlanOf(w: Sweep, entries: map<string, Entry>): Plan
    requires w.tokens.Some?
  {
    map mint | mint in entries :: Treated(w, mint, entries[mint])
  }

  /** Every one of the mints once, in some order. */
  predicate Lists(order: seq<string>, mints: set<string>) {
    if order == [] then mints == {}
    else
      var mint := order[|order| - 1];
      mint in mints && Lists(order[..|order| - 1], mints - {mint})
  }

  lemma ListsOneMore(order: seq<string>, mints: set<string>, mint: string)
    requires Lists(order, mints) && mint !in mints
    ensures Lists(order + [mint], mints + {mint})
  {
    assert (order + [mint])[..|order|] == order;
    assert mints + {mint} - {mint} == mints;
  }

  lemma {:induction false} ListsExactly(order: seq<string>, mints: set<string>)
    requires Lists(order, mints)
    ensures forall mint :: mint in order <==> mint in mints
  {
    if order != [] {
      var n := |order| - 1;
      ListsExactly(order[..n], mints - {order[n]});
      assert order == order[..n] + [order[n]];
    }
  }

  // ---------- The whole sweep, seen from one mint ----------

  function Kept(w: Sweep, mint: string, existing: Option<Entry>): Option<Entry>
    requires w.tokens.Some?
  {
    if existing.Some? && !w.scanIncomplete
       && Prunable(mint, existing.value, RETENTION_HOURS, HeldMints(w.tokens.value), w.finishedAt)
    then None else existing
  }

  function TrackedBy(w: Sweep, mint: string, existing: Option<Entry>): Option<Entry>
    requires w.tokens.Some?
  {
    Tracked(existing, mint, w.tokens.value, w.Skips(), w.startedAt)
  }

  predicate PendingIn(existing: Option<Entry>) {
    existing.Some? && existing.value.stage == Pending
  }

  function AfterSweep(w: Sweep, mint: string, existing: Option<Entry>): Option<Entry> {
    if w.tokens.None? then existing else
      var tracked := TrackedBy(w, mint, existing);
      Kept(w, mint, if PendingIn(tracked) then Some(Handled(w, mint, tracked.value).0) else tracked)
  }

  /** Whether the sweep hands the mint to a swap. */
  predicate TriesToSell(w: Sweep, mint: string, existing: Option<Entry>) {
    w.tokens.Some? && PendingIn(TrackedBy(w, mint, existing)) && HandedToSwap(w, mint)
  }

  // ---------- A loop over some of the entries ----------

  /** The entries once those among `done` were handled. */
  function HandledAll(entries: map<string, Entry>, plan: Plan, done: set<string>): map<string, Entry> {
    map mint | mint in entries :: if mint in done && mint in plan then plan[mint].after else entries[mint]
  }

  function HandedAmong(plan: Plan, done: set<string>): set<string> {
    set mint | mint in done && mint in plan && plan[mint].swapped
  }

  /** The mints among `done` that the report names. */
  function ListedAmong(plan: Plan, done: set<string>): set<string> {
    set mint | mint in done && mint in plan && plan[mint].listed
  }

  /** The mints among `done` that have the verdict. */
  function Counted(plan: Plan, done: set<string>, verdict: Verdict): set<string> {
    set mint | mint in done && mint in plan && plan[mint].verdict == verdict
  }

  /** The bookings for some of the entries, handled in this order. */
  function OpsInOrder(plan: Plan, order: seq<string>): seq<Op> {
    if order == [] then []
    else
      var n := |order| - 1;
      OpsInOrder(plan, order[..n]) + if order[n] in plan then plan[order[n]].ops else []
  }

  /** The report counts every handled entry under its verdict. */
  predicate Counts(report: Report, plan: Plan, done: set<string>) {
    && report.successful == |Counted(plan, done, Successful)|
    && report.failed == |Counted(plan, done, Failed)|
    && report.abandoned == |Counted(plan, done, GivenUp)|
    && report.skipped == |Counted(plan, done, Skipped)|
    && report.total == |ListedAmong(plan, done)|
    && report.successful + report.failed + report.abandoned + report.skipped == |done|
  }

  function Tally(report: Report, verdict: Verdict, listed: bool): Report {
    var r := if listed then report.(total := report.total + 1) else report;
    match verdict
    case Successful => r.(successful := r.successful + 1)
    case Failed => r.(failed := r.failed + 1)
    case GivenUp => r.(abandoned := r.abandoned + 1)
    case Skipped => r.(skipped := r.skipped + 1)
  }

  lemma OneMore(few: set<string>, more: set<string>, mint: string, added: bool)
    requires mint !in few && more == if added then few + {mint} else few
    ensures |more| == |few| + if added then 1 else 0
  {
  }

  lemma CountStep(plan: Plan, done: set<string>, mint: string, verdict: Verdict)
    requires mint in plan && mint !in done
    ensures |Counted(plan, done + {mint}, verdict)| == |Counted(plan, done, verdict)| + if plan[mint].verdict == verdict then 1 else 0
  {
    OneMore(Counted(plan, done, verdict), Counted(plan, done + {mint}, verdict), mint, plan[mint].verdict == verdict);
  }

  lemma ListStep(plan: Plan, done: set<string>, mint: string)
    requires mint in plan && mint !in done
    ensures |ListedAmong(plan, done + {mint})| == |ListedAmong(plan, done)| + if plan[mint].listed then 1 else 0
  {
    OneMore(ListedAmong(plan, done), ListedAmong(plan, done + {mint}), mint, plan[mint].listed);
  }

  lemma TallyCounts(report: Report, plan: Plan, done: set<string>, mint: string)
    requires mint in plan && mint !in done && Counts(report, plan, done)
    ensures Counts(Tally(report, plan[mint].verdict, plan[mint].listed), plan, done + {mint})
  {
    CountStep(plan, done, mint, Successful);
    CountStep(plan, done, mint, Failed);
    CountStep(plan, done, mint, GivenUp);
    CountStep(plan, done, mint, Skipped);
    ListStep(plan, done, mint);
  }

  /** The queue as it stands, the report, the mints handed to a swap, and the bookings. */
  datatype Progress = Progress(entries: map<string, Entry>, report: Report, handed: set<string>, ops: seq<Op>)

  function HandledNext(p: Progress, mint: string, t: Treatment): Progress {
    Progress(p.entries[mint := t.after], Tally(p.report, t.verdict, t.listed),
             p.handed + (if t.swapped then {mint} else {}), p.ops + t.ops)
  }

  function HandledInOrder(entries: map<string, Entry>, plan: Plan, order: seq<string>): Progress {
    if order == [] then Progress(entries, Report(0, 0, 0, 0, 0), {}, [])
    else
      var n := |order| - 1;
      var p := HandledInOrder(entries, plan, order[..n]);
      if order[n] in plan then HandledNext(p, order[n], plan[order[n]]) else p
  }

  lemma {:induction false} UnlistedIsUntouched(entries: map<string, Entry>, plan: Plan, order: seq<string>, mint: string)
    requires mint !in order
    ensures var after := HandledInOrder(entries, plan, order).entries;
            (mint in after <==> mint in entries) && (mint in entries ==> after[mint] == entries[mint])
  {
    if order != [] {
      assert order[|order| - 1] in order;
      UnlistedIsUntouched(entries, plan, order[..|order| - 1], mint);
    }
  }

  lemma HandledOneMore(entries: map<string, Entry>, plan: Plan, order: seq<string>, mint: string)
    requires mint in plan
    ensures HandledInOrder(entries, plan, order + [mint]) == HandledNext(HandledInOrder(entries, plan, order), mint, plan[mint])
  {
    assert (order + [mint])[..|order|] == order;
  }

  lemma BookedNext(first: seq<Op>, ops: seq<Op>, history: seq<Op>, more: seq<Op>)
    requires history == first + ops
    ensures history + more == first + (ops + more)
  {
  }

  /** The loop has handled the mints in `order`, and has those in `todo` to go. */
  predicate IsUnderWay(p: Progress, before: map<string, Entry>, plan: Plan, pending: set<string>, todo: set<string>, order: seq<string>) {
    todo <= pending && Lists(order, pending - todo) && p == HandledInOrder(before, plan, order)
  }

  lemma OneTurn(p: Progress, before: map<string, Entry>, plan: Plan, pending: set<string>, todo: set<string>, order: seq<string>, mint: string)
    requires mint in todo && mint in before && mint in plan && IsUnderWay(p, before, plan, pending, todo, order)
    ensures mint in p.entries && p.entries[mint] == before[mint]
    ensures IsUnderWay(HandledNext(p, mint, plan[mint]), before, plan, pending, todo - {mint}, order + [mint])
  {
    ListsExactly(order, pending - todo);
    UnlistedIsUntouched(before, plan, order, mint);
    HandledOneMore(before, plan, order, mint);
    ListsOneMore(order, pending - todo, mint);
    assert pending - todo + {mint} == pending - (todo - {mint});
  }

  /** Whatever the order, each entry listed is handled once, as it was before the loop. */
  predicate IsProgress(p: Progress, entries: map<string, Entry>, plan: Plan, done: set<string>, order: seq<string>) {
    && p.entries == HandledAll(entries, plan, done)
    && Counts(p.report, plan, done)
    && p.handed == HandedAmong(plan, done)
    && p.ops == OpsInOrder(plan, order)
  }

  lemma OpsOfOneMore(plan: Plan, order: seq<string>, mint: string)
    requires mint in plan
    ensures OpsInOrder(plan, order + [mint]) == OpsInOrder(plan, order) + plan[mint].ops
  {
    assert (order + [mint])[..|order|] == order;
  }

  lemma HandleStep(entries: map<string, Entry>, plan: Plan, done: set<string>, mint: string)
    requires mint in entries && mint in plan && mint !in done
    ensures HandledAll(entries, plan, done)[mint := plan[mint].after] == HandledAll(entries, plan, done + {mint})
    ensures HandedAmong(plan, done + {mint}) == HandedAmong(plan, done) + if plan[mint].swapped then {mint} else {}
  {
  }

  lemma ProgressGrows(p: Progress, entries: map<string, Entry>, plan: Plan, done: set<string>, order: seq<string>, mint: string)
    requires mint in entries && mint in plan && mint !in done && IsProgress(p, entries, plan, done, order)
    ensures IsProgress(HandledNext(p, mint, plan[mint]), entries, plan, done + {mint}, order + [mint])
  {
    HandleStep(entries, plan, done, mint);
    TallyCounts(p.report, plan, done, mint);
    OpsOfOneMore(plan, order, mint);
  }

  lemma NothingIsProgress(entries: map<string, Entry>, plan: Plan)
    ensures IsProgress(Progress(entries, Report(0, 0, 0, 0, 0), {}, []), entries, plan, {}, [])
  {
    assert Counted(plan, {}, Successful) == Counted(plan, {}, Failed) == {};
    assert Counted(plan, {}, GivenUp) == Counted(plan, {}, Skipped) == {};
    assert ListedAmong(plan, {}) == {};
  }

  lemma {:induction false} OrderIsIrrelevant(entries: map<string, Entry>, plan: Plan, done: set<string>, order: seq<string>)
    requires done <= entries.Keys && done <= plan.Keys && Lists(order, done)
    ensures IsProgress(HandledInOrder(entries, plan, order), entries, plan, done, order)
    decreases |order|
  {
    if order == [] {
      NothingIsProgress(entries, plan);
    } else {
      var rest, mint := order[..|order| - 1], order[|order| - 1];
      OrderIsIrrelevant(entries, plan, done - {mint}, rest);
      ProgressGrows(HandledInOrder(entries, plan, rest), entries, plan, done - {mint}, rest, mint);
      assert done - {mint} + {mint} == done && rest + [mint] == order;
    }
  }

  /** The entries left once old settled ones are dropped; an incomplete scan drops none. */
  function Remaining(w: Sweep, entries: map<string, Entry>): map<string, Entry>
    requires w.tokens.Some?
  {
    if w.scanIncomplete then entries
    else Pruned(entries, RETENTION_HOURS, HeldMints(w.tokens.value), w.finishedAt)
  }

  /** No trade waits for a mint that nobody will sell. */
  ghost predicate AllTracked(trades: seq<Trade>, entries: map<string, Entry>) {
    forall i :: 0 <= i < |trades| && trades[i].Pending() ==> trades[i].Mint() in PendingMints(entries)
  }

  lemma SweepIsPerMint(w: Sweep, before: map<string, Entry>, mint: string)
    requires w.tokens.Some?
    ensures var tracked := Track(before, w.tokens.value, w.Skips(), w.startedAt);
            && Lookup(Remaining(w, HandledAll(tracked, PlanOf(w, tracked), PendingMints(tracked))), mint) ==
               AfterSweep(w, mint, Lookup(before, mint))
            && (mint in HandedAmong(PlanOf(w, tracked), PendingMints(tracked)) <==> TriesToSell(w, mint, Lookup(before, mint)))
  {
    TrackIsPerMint(before, w.tokens.value, w.Skips(), w.startedAt, mint);
  }

  /** How a sale ends, for the entry and for the ledger. */
  lemma SaleEnds(w: Sweep, mint: string, live: Entry, pool: string, outcome: Outcome)
    requires outcome == OutcomeFor(w, mint, pool)
    ensures var left := Swapper.EntryAfter(Some(live), outcome, pool, "", w.handledAt(mint)).value;
            if outcome.Bought? then
              && SoldOrTried(w, mint, live, pool) == (left, Successful)
              && SaleOps(w, mint, live, pool)
                 == [SettleOp(mint, live.position, Ledger.Sale(outcome.amountOut.GetOr(0.0), None, outcome.tx, w.handledAt(mint)))]
            else if outcome.NothingLeft? && outcome.swapped then
              SoldOrTried(w, mint, live, pool) == (left, Successful) && SaleOps(w, mint, live, pool) == []
            else
              var immediately := outcome.GaveUp? && outcome.immediately;
              && SoldOrTried(w, mint, live, pool) == Tried(left, w.limits, immediately, w.handledAt(mint))
              && SaleOps(w, mint, live, pool) == TrialOps(mint, left, w.limits, immediately, w.handledAt(mint))
  {
  }

  function MarkOps(w: Sweep): seq<Op>
    requires w.tokens.Some?
  {
    if PriceMap(w.tokens.value) == map[] then [] else [MarkOp(PriceMap(w.tokens.value), w.tokens)]
  }

  function TidyOps(w: Sweep, entries: map<string, Entry>): seq<Op> {
    if w.scanIncomplete then [] else [ReconcileOp(PendingMints(entries), w.finishedAt)]
  }

  /** Everything a sweep books: values first, then entry by entry, then the trades nobody will sell. */
  function SweepOps(w: Sweep, tracked: map<string, Entry>, order: seq<string>, left: map<string, Entry>): seq<Op>
    requires w.tokens.Some?
  {
    MarkOps(w) + OpsInOrder(PlanOf(w, tracked), order) + TidyOps(w, left)
  }

  class TokenSweeper {
    const swapper: Swapper
    const queue: TokenQueue
    const ledger: TradeLedger

    ghost predicate Valid()
      reads queue, ledger
    {
      swapper.queue == queue && queue.ledger == ledger && queue.Valid()
    }

    constructor (swapper: Swapper)
      ensures this.swapper == swapper && queue == swapper.queue && ledger == swapper.queue.ledger
    {
      this.swapper, queue, ledger := swapper, swapper.queue, swapper.queue.ledger;
    }

    method ReconcileWallet(w: Sweep) returns (prices: map<string, real>)
      requires Valid() && w.tokens.Some?
      modifies queue
      ensures Valid()
      ensures queue.entries == Track(old(queue.entries), w.tokens.value, w.Skips(), w.startedAt)
      ensures prices == PriceMap(w.tokens.value)
    {
      prices := map[];
      var tokens := w.tokens.value;
      for i := 0 to |tokens|
        invariant Valid()
        invariant queue.entries == Track(old(queue.entries), tokens[..i], w.Skips(), w.startedAt)
        invariant prices == PriceMap(tokens[..i])
      {
        assert tokens[..i + 1][..i] == tokens[..i];
        var t := tokens[i];
        if t.mint != "" && t.usd.Some? && BalanceOf(t) > 0.0 {
          prices := prices[t.mint := t.usd.value / BalanceOf(t)];
        }
        if Sellable(t, w.Skips()) && Untracked(Lookup(queue.entries, t.mint)) {
          var _ := queue.Enqueue(t.mint, Found(t), w.startedAt);
        }
      }
      assert tokens[..|tokens|] == tokens;
    }

    method RecordFailure(w: Sweep, mint: string, immediately: bool) returns (verdict: Verdict)
      requires Valid() && mint in queue.entries
      modifies queue, ledger
      ensures Valid()
      ensures ledger.history == old(ledger.history) + TrialOps(mint, old(queue.entries)[mint], w.limits, immediately, w.handledAt(mint))
      ensures var tried := Tried(old(queue.entries)[mint], w.limits, immediately, w.handledAt(mint));
              queue.entries == old(queue.entries)[mint := tried.0] && verdict == tried.1
    {
      var stage, _ := queue.MarkAttempt(mint, w.limits, immediately, w.handledAt(mint));
      verdict := if stage == Abandoned then GivenUp else Failed;
    }

    method SellEntry(w: Sweep, mint: string, pool: string) returns (verdict: Verdict)
      requires Valid() && mint in queue.entries
      modifies queue, ledger
      ensures Valid() && ledger.history == old(ledger.history) + SaleOps(w, mint, old(queue.entries)[mint], pool)
      ensures queue.entries == old(queue.entries)[mint := SoldOrTried(w, mint, old(queue.entries)[mint], pool).0]
      ensures verdict == SoldOrTried(w, mint, old(queue.entries)[mint], pool).1
    {
      ghost var live := queue.entries[mint];
      var outcome, _ := swapper.SwapBaseToSolWithRetry(
        mint, w.feeds(mint), w.swapAttempts, w.minUsd, pool, "", w.handledAt(mint));
      ghost var left := Swapper.EntryAfter(Some(live), outcome, pool, "", w.handledAt(mint)).value;
      assert queue.entries == old(queue.entries)[mint := left];
      SaleEnds(w, mint, live, pool, outcome);
      if outcome.Bought? || (outcome.NothingLeft? && outcome.swapped) {
        verdict := Successful;
      } else {
        verdict := RecordFailure(w, mint, outcome.GaveUp? && outcome.immediately);
      }
    }

    method HandleEntry(w: Sweep, mint: string) returns (verdict: Verdict, swapped: bool)
      requires Valid() && w.tokens.Some? && mint in PendingMints(queue.entries)
      modifies queue, ledger
      ensures Valid() && ledger.history == old(ledger.history) + OpsFor(w, mint, old(queue.entries)[mint])
      ensures queue.entries == old(queue.entries)[mint := Handled(w, mint, old(queue.entries)[mint]).0]
      ensures verdict == Handled(w, mint, old(queue.entries)[mint]).1
      ensures swapped == HandedToSwap(w, mint)
    {
      var now := w.handledAt(mint);
      if mint in w.Skips() {
        return Skipped, false;
      }
      var pool := queue.entries[mint].pool;
      var token := FindToken(w.tokens.value, mint);
      if token.None? || BalanceOf(token.value) <= 0.0 {
        var _ := queue.MarkSuccess(mint, "", None, WalletEmpty, now);
        return Skipped, false;
      }
      var _ := queue.Refresh(mint, BalanceOf(token.value), token.value.usd);
      if IsDust(token.value, w.minUsd) {
        var _ := queue.MarkDust(mint, now);
        return Skipped, false;
      }
      verdict := SellEntry(w, mint, pool);
      swapped := true;
    }

    /** One turn of the loop over the pending entries. */
    method HandleNext(w: Sweep, mint: string, report: Report, handed: set<string>, ghost t: Treatment, ghost p: Progress)
      returns (counted: Report, swaps: set<string>)
      requires Valid() && w.tokens.Some? && mint in PendingMints(queue.entries) && t == Treated(w, mint, queue.entries[mint])
      requires p.entries == queue.entries && p.report == report && p.handed == handed
      modifies queue, ledger
      ensures Valid() && ledger.history == old(ledger.history) + t.ops
      ensures Progress(queue.entries, counted, swaps, p.ops + t.ops) == HandledNext(p, mint, t)
    {
      var verdict, swapped := HandleEntry(w, mint);
      counted := Tally(report, verdict, mint !in w.Skips());
      swaps := handed + (if swapped then {mint} else {});
    }

    /** Handles the pending entries, in whatever order the store lists them. */
    method HandlePending(w: Sweep, ghost plan: Plan) returns (report: Report, handed: set<string>, ghost order: seq<string>)
      requires Valid() && w.tokens.Some? && plan == PlanOf(w, queue.entries)
      modifies queue, ledger
      ensures Valid() && Lists(order, PendingMints(old(queue.entries)))
      ensures var p := HandledInOrder(old(queue.entries), plan, order);
              && queue.entries == p.entries && report == p.report && handed == p.handed
              && ledger.history == old(ledger.history) + p.ops
    {
      ghost var before := queue.entries;
      var pending := PendingMints(queue.entries);
      report, handed, order := Report(0, 0, 0, 0, 0), {}, [];
      var todo := pending;
      ghost var p := Progress(before, report, handed, []);
      while todo != {}
        invariant Valid() && ledger.history == old(ledger.history) + p.ops
        invariant queue.entries == p.entries && report == p.report && handed == p.handed
        invariant IsUnderWay(p, before, plan, pending, todo, order)
        decreases todo
      {
        var mint :| mint in todo;
        BookedNext(old(ledger.history), p.ops, ledger.history, plan[mint].ops);
        OneTurn(p, before, plan, pending, todo, order, mint);
        report, handed := HandleNext(w, mint, report, handed, plan[mint], p);
        p, todo, order := HandledNext(p, mint, plan[mint]), todo - {mint}, order + [mint];
      }
      assert pending - {} == pending;
    }

    /** Drops old entries and writes down the trades left without a pending entry. */
    method Tidy(w: Sweep)
      requires Valid() && w.tokens.Some?
      modifies queue, ledger
      ensures Valid() && ledger.history == old(ledger.history) + TidyOps(w, queue.entries)
      ensures queue.entries == Remaining(w, old(queue.entries))
      ensures !w.scanIncomplete ==> AllTracked(ledger.trades, queue.entries)
    {
      if !w.scanIncomplete {
        var _ := queue.Prune(RETENTION_HOURS, HeldMints(w.tokens.value), w.finishedAt);
        ReconciliationLeavesOnlyTracked(ledger.State(), PendingMints(queue.entries), w.finishedAt);
        var _ := ledger.ReconcileOrphanedPendingSwaps(PendingMints(queue.entries), w.finishedAt);
      }
    }

    method RevalueTrades(w: Sweep, prices: map<string, real>)
      requires Valid() && w.tokens.Some? && prices == PriceMap(w.tokens.value)
      modifies ledger
      ensures Valid() && ledger.history == old(ledger.history) + MarkOps(w)
    {
      if prices != map[] {
        var _ := ledger.UpdatePendingTradesMarkToMarket(prices, w.tokens);
      }
    }

    /** A sweep of a readable wallet. */
    method SweepWallet(w: Sweep, ghost tracked: map<string, Entry>, ghost plan: Plan)
      returns (report: Report, handed: set<string>, ghost order: seq<string>)
      requires Valid() && w.tokens.Some? && plan == PlanOf(w, tracked)
      requires tracked == Track(queue.entries, w.tokens.value, w.Skips(), w.startedAt)
      modifies queue, ledger
      ensures Valid() && Lists(order, PendingMints(tracked))
      ensures var p := HandledInOrder(tracked, plan, order);
              && queue.entries == Remaining(w, p.entries) && report == p.report && handed == p.handed
              && ledger.history == old(ledger.history) + (MarkOps(w) + p.ops + TidyOps(w, queue.entries))
      ensures !w.scanIncomplete ==> AllTracked(ledger.trades, queue.entries)
    {
      var prices := ReconcileWallet(w);
      RevalueTrades(w, prices);
      ghost var revalued := ledger.history;
      report, handed, order := HandlePending(w, plan);
      ghost var ops := HandledInOrder(tracked, plan, order).ops;
      BookedNext(old(ledger.history), MarkOps(w), revalued, ops);
      ghost var handled := ledger.history;
      Tidy(w);
      BookedNext(old(ledger.history), MarkOps(w) + ops, handled, TidyOps(w, queue.entries));
    }

    method SweepUnsoldTokens(w: Sweep) returns (report: Report, handed: set<string>, ghost order: seq<string>)
      requires Valid()
      modifies queue, ledger
      ensures Valid()
      ensures forall mint :: Lookup(queue.entries, mint) == AfterSweep(w, mint, Lookup(old(queue.entries), mint))
      ensures forall mint :: mint in handed <==> TriesToSell(w, mint, Lookup(old(queue.entries), mint))
      ensures w.tokens.None? ==> report == Report(0, 0, 0, 0, 0) && ledger.history == old(ledger.history)
      ensures w.tokens.Some? ==>
                var tracked := Track(old(queue.entries), w.tokens.value, w.Skips(), w.startedAt);
                && Counts(report, PlanOf(w, tracked), PendingMints(tracked))
                && Lists(order, PendingMints(tracked))
                && ledger.history == old(ledger.history) + SweepOps(w, tracked, order, queue.entries)
      ensures w.tokens.Some? && !w.scanIncomplete ==> AllTracked(ledger.trades, queue.entries)
    {
      ghost var before := queue.entries;
      if w.tokens.None? {
        return Report(0, 0, 0, 0, 0), {}, [];
      }
      ghost var tracked := Track(before, w.tokens.value, w.Skips(), w.startedAt);
      report, handed, order := SweepWallet(w, tracked, PlanOf(w, tracked));
      OrderIsIrrelevant(tracked, PlanOf(w, tracked), PendingMints(tracked), order);
      forall mint
        ensures Lookup(queue.entries, mint) == AfterSweep(w, mint, Lookup(before, mint))
        ensures mint in handed <==> TriesToSell(w, mint, Lookup(before, mint))
      {
        SweepIsPerMint(w, before, mint);
      }
    }
  }
}
