/**
 What holds over any number of sweeps, whatever the wallet, the venues and the clock do.
 */
module SweepTheorems {
  import opened Ledger
  import opened Options
  import opened LiquidationQueue
  import opened Sweeper

  /** The entry of a mint after a run of sweeps. */
  function Evolved(mint: string, e: Option<Entry>, sweeps: seq<Sweep>): Option<Entry> {
    if sweeps == [] then e
    else AfterSweep(sweeps[|sweeps| - 1], mint, Evolved(mint, e, sweeps[..|sweeps| - 1]))
  }

  predicate IsTombstone(e: Entry) {
    e.stage == Abandoned || e.stage == Dust
  }

  /** The sweep saw the token in the wallet, or could not see the whole wallet. */
  predicate MayBeHeld(w: Sweep, mint: string) {
    w.tokens.None? || w.scanIncomplete || Shows(w.tokens.value, mint)
  }

  predicate Shows(tokens: seq<Token>, mint: string) {
    exists j :: 0 <= j < |tokens| && tokens[j].mint == mint && IsShown(tokens[j])
  }

  lemma HeldIffShown(tokens: seq<Token>, mint: string)
    ensures mint in HeldMints(tokens) <==> Shows(tokens, mint)
  {
  }

  /**
   A sweep drops a tombstone exactly when a complete scan no longer shows the token and the last
   action on it is a retention period old; otherwise the tombstone is untouched. In neither case is
   the token handed to a swap.
   */
  lemma TombstoneIsDroppedIff(w: Sweep, mint: string, e: Entry)
    requires IsTombstone(e)
    ensures !TriesToSell(w, mint, Some(e))
    ensures AfterSweep(w, mint, Some(e)) ==
            if !MayBeHeld(w, mint) && e.lastAttemptAt > 0
               && e.lastAttemptAt as real <= w.finishedAt as real - 24.0 * 3600000.0
            then None else Some(e)
  {
    if w.tokens.Some? { HeldIffShown(w.tokens.value, mint); }
  }

  /** While the token may still be held, its tombstone stays as it is and no sweep tries to sell it. */
  lemma {:induction false} TombstonesStay(mint: string, e: Entry, sweeps: seq<Sweep>)
    requires IsTombstone(e)
    requires forall i :: 0 <= i < |sweeps| ==> MayBeHeld(sweeps[i], mint)
    ensures Evolved(mint, Some(e), sweeps) == Some(e)
    ensures forall i :: 0 <= i < |sweeps| ==> !TriesToSell(sweeps[i], mint, Evolved(mint, Some(e), sweeps[..i]))
  {
    if sweeps != [] {
      var n := |sweeps| - 1;
      TombstonesStay(mint, e, sweeps[..n]);
      TombstoneIsDroppedIff(sweeps[n], mint, e);
      forall i | 0 <= i < |sweeps| ensures !TriesToSell(sweeps[i], mint, Evolved(mint, Some(e), sweeps[..i])) {
        if i < n {
          assert sweeps[..n][i] == sweeps[i] && sweeps[..n][..i] == sweeps[..i];
        }
      }
    }
  }

  // ---------- Attempts ----------

  /** An entry that is, or may become, pending has attempts left. */
  ghost predicate HasAttemptsLeft(e: Option<Entry>, limit: nat) {
    e.Some? && (e.value.stage == Pending || e.value.stage == Liquidated) ==> e.value.attempts < limit
  }

  ghost predicate SameLimit(sweeps: seq<Sweep>, limit: nat) {
    limit >= 1 && forall i :: 0 <= i < |sweeps| ==> sweeps[i].limits.maxAttempts == limit
  }

  /** Whether the sweep counts a failed attempt, the last one included, for the mint. */
  predicate Fails(w: Sweep, mint: string, e: Option<Entry>) {
    && w.tokens.Some?
    && var tracked := TrackedBy(w, mint, e);
       PendingIn(tracked) && IsFailure(Handled(w, mint, tracked.value).1)
  }

  function Attempts(e: Option<Entry>): nat {
    if e.Some? then e.value.attempts else 0
  }

  predicate IsFailure(v: Verdict) {
    v == Failed || v == GivenUp
  }

  /** Trying to sell counts an attempt exactly when it fails, and leaves the entry pending only below the limit. */
  lemma TrialCountsAttempts(w: Sweep, mint: string, live: Entry, pool: string)
    requires w.limits.maxAttempts >= 1 && live.stage == Pending && live.attempts < w.limits.maxAttempts
    ensures var (after, verdict) := SoldOrTried(w, mint, live, pool);
            && after.attempts == live.attempts + (if IsFailure(verdict) then 1 else 0)
            && HasAttemptsLeft(Some(after), w.limits.maxAttempts)
  {
  }

  /** The same for a pending entry, whether or not it is handed to a swap. */
  lemma HandlingCountsAttempts(w: Sweep, mint: string, e: Entry)
    requires w.tokens.Some? && w.limits.maxAttempts >= 1 && e.stage == Pending && e.attempts < w.limits.maxAttempts
    ensures var (after, verdict) := Handled(w, mint, e);
            && after.attempts == e.attempts + (if IsFailure(verdict) then 1 else 0)
            && HasAttemptsLeft(Some(after), w.limits.maxAttempts)
  {
    if mint !in w.Skips() && InWallet(w, mint) && !IsDust(FindToken(w.tokens.value, mint).value, w.minUsd) {
      TrialCountsAttempts(w, mint, Live(w, mint, e), e.pool);
    }
  }

  lemma TrackingKeepsAttempts(w: Sweep, mint: string, e: Option<Entry>)
    requires w.tokens.Some? && w.limits.maxAttempts >= 1 && HasAttemptsLeft(e, w.limits.maxAttempts)
    ensures Attempts(TrackedBy(w, mint, e)) == Attempts(e) && HasAttemptsLeft(TrackedBy(w, mint, e), w.limits.maxAttempts)
  {
  }

  lemma SweepCountsAttempts(w: Sweep, mint: string, e: Option<Entry>)
    requires w.limits.maxAttempts >= 1 && HasAttemptsLeft(e, w.limits.maxAttempts)
    ensures HasAttemptsLeft(AfterSweep(w, mint, e), w.limits.maxAttempts)
    ensures Fails(w, mint, e) ==> Attempts(e) < w.limits.maxAttempts
    ensures PendingIn(AfterSweep(w, mint, e)) && (e.None? || PendingIn(e)) ==>
              Attempts(AfterSweep(w, mint, e)) == Attempts(e) + (if Fails(w, mint, e) then 1 else 0)
  {
    if w.tokens.Some? {
      TrackingKeepsAttempts(w, mint, e);
      var tracked := TrackedBy(w, mint, e);
      if PendingIn(tracked) { HandlingCountsAttempts(w, mint, tracked.value); }
    }
  }

  /**
   With a fixed limit, and starting without an entry or with attempts left, every pending entry has
   attempts left after any run of sweeps.
   */
  lemma {:induction false} PendingEntriesHaveAttemptsLeft(mint: string, e: Option<Entry>, sweeps: seq<Sweep>, limit: nat)
    requires SameLimit(sweeps, limit) && HasAttemptsLeft(e, limit)
    ensures HasAttemptsLeft(Evolved(mint, e, sweeps), limit)
  {
    if sweeps != [] {
      var n := |sweeps| - 1;
      PendingEntriesHaveAttemptsLeft(mint, e, sweeps[..n], limit);
      SweepCountsAttempts(sweeps[n], mint, Evolved(mint, e, sweeps[..n]));
    }
  }

  /** How many sweeps of a run fail to sell the mint. */
  ghost function Failures(mint: string, e: Option<Entry>, sweeps: seq<Sweep>): nat {
    if sweeps == [] then 0 else
      var n := |sweeps| - 1;
      Failures(mint, e, sweeps[..n]) + (if Fails(sweeps[n], mint, Evolved(mint, e, sweeps[..n])) then 1 else 0)
  }

  /** The entry was pending between any two sweeps of the run. */
  ghost predicate PendingThroughout(mint: string, e: Option<Entry>, sweeps: seq<Sweep>) {
    && (e.None? || PendingIn(e))
    && forall i :: 0 < i < |sweeps| ==> PendingIn(Evolved(mint, e, sweeps[..i]))
  }

  lemma {:induction false} FailuresAreAttempts(mint: string, e: Option<Entry>, sweeps: seq<Sweep>, limit: nat)
    requires SameLimit(sweeps, limit) && HasAttemptsLeft(e, limit)
    requires PendingThroughout(mint, e, sweeps)
    ensures sweeps == [] || PendingIn(Evolved(mint, e, sweeps)) ==>
              Attempts(Evolved(mint, e, sweeps)) == Attempts(e) + Failures(mint, e, sweeps)
    ensures Attempts(e) + Failures(mint, e, sweeps) <= limit
  {
    if sweeps != [] {
      var n := |sweeps| - 1;
      forall i | 0 < i < n ensures PendingIn(Evolved(mint, e, sweeps[..n][..i])) {
        assert sweeps[..n][..i] == sweeps[..i];
      }
      FailuresAreAttempts(mint, e, sweeps[..n], limit);
      PendingEntriesHaveAttemptsLeft(mint, e, sweeps[..n], limit);
      assert n > 0 ==> PendingIn(Evolved(mint, e, sweeps[..n]));
      SweepCountsAttempts(sweeps[n], mint, Evolved(mint, e, sweeps[..n]));
    }
  }

  /** An entry fails at most `limit` times before it stops being pending, counting the failures it had. */
  lemma FailuresAreBounded(mint: string, e: Option<Entry>, sweeps: seq<Sweep>, limit: nat)
    requires SameLimit(sweeps, limit) && HasAttemptsLeft(e, limit)
    requires PendingThroughout(mint, e, sweeps)
    ensures Failures(mint, e, sweeps) <= limit - Attempts(e)
    ensures Failures(mint, e, sweeps) == limit - Attempts(e) && sweeps != [] ==> !PendingIn(Evolved(mint, e, sweeps))
  {
    FailuresAreAttempts(mint, e, sweeps, limit);
    PendingEntriesHaveAttemptsLeft(mint, e, sweeps, limit);
  }

  // ---------- What sweeps book in the ledger ----------

  predicate IsAbout(op: Op, mint: string) {
    (op.SettleOp? || op.AbandonOp?) && op.mint == mint
  }

  /** The settlements and write-downs of one mint. */
  function About(ops: seq<Op>, mint: string): seq<Op> {
    if ops == [] then []
    else About(ops[..|ops| - 1], mint) + if IsAbout(ops[|ops| - 1], mint) then [ops[|ops| - 1]] else []
  }

  lemma {:induction false} AboutBoth(a: seq<Op>, b: seq<Op>, mint: string)
    ensures About(a + b, mint) == About(a, mint) + About(b, mint)
    decreases |b|
  {
    if b == [] {
      assert a + b == a;
    } else {
      assert (a + b)[..|a + b| - 1] == a + b[..|b| - 1];
      AboutBoth(a, b[..|b| - 1], mint);
    }
  }

  lemma AboutOne(op: Op, mint: string)
    ensures About([op], mint) == if IsAbout(op, mint) then [op] else []
  {
    assert [op][..0] == [];
  }

  /** Handling an entry books at most one operation, and that about its own mint. */
  lemma EntryBooksItsOwn(w: Sweep, mint: string, e: Entry)
    requires w.tokens.Some?
    ensures |OpsFor(w, mint, e)| <= 1 && forall i :: 0 <= i < |OpsFor(w, mint, e)| ==> IsAbout(OpsFor(w, mint, e)[i], mint)
  {
    if HandedToSwap(w, mint) { SaleEnds(w, mint, Live(w, mint, e), e.pool, OutcomeFor(w, mint, e.pool)); }
  }

  ghost predicate BookTheirOwn(plan: Plan) {
    forall mint :: mint in plan ==> |plan[mint].ops| <= 1 && (plan[mint].ops != [] ==> IsAbout(plan[mint].ops[0], mint))
  }

  lemma AboutOwn(ops: seq<Op>, own: string, mint: string)
    requires |ops| <= 1 && (ops != [] ==> IsAbout(ops[0], own))
    ensures About(ops, mint) == if mint == own then ops else []
  {
    if ops != [] {
      AboutOne(ops[0], mint);
      assert ops == [ops[0]];
    }
  }

  lemma {:induction false} OrderBooksEachOnce(plan: Plan, order: seq<string>, mints: set<string>, mint: string)
    requires mints <= plan.Keys && Lists(order, mints) && BookTheirOwn(plan)
    ensures About(OpsInOrder(plan, order), mint) == if mint in mints then plan[mint].ops else []
    decreases |order|
  {
    if order != [] {
      var n := |order| - 1;
      OrderBooksEachOnce(plan, order[..n], mints - {order[n]}, mint);
      AboutOwn(plan[order[n]].ops, order[n], mint);
      AboutBoth(OpsInOrder(plan, order[..n]), plan[order[n]].ops, mint);
    }
  }

  /** What a sweep books about one mint, seen from the mint's entry. */
  function Bookings(w: Sweep, mint: string, existing: Option<Entry>): seq<Op> {
    if w.tokens.Some? && PendingIn(TrackedBy(w, mint, existing)) then OpsFor(w, mint, TrackedBy(w, mint, existing).value) else []
  }

  lemma PlansBookTheirOwn(w: Sweep, entries: map<string, Entry>)
    requires w.tokens.Some?
    ensures BookTheirOwn(PlanOf(w, entries))
  {
    var plan := PlanOf(w, entries);
    forall m | m in plan ensures |plan[m].ops| <= 1 && (plan[m].ops != [] ==> IsAbout(plan[m].ops[0], m)) {
      EntryBooksItsOwn(w, m, entries[m]);
    }
  }

  lemma AboutMiddle(a: seq<Op>, b: seq<Op>, c: seq<Op>, mint: string)
    requires |a| <= 1 && (a != [] ==> a[0].MarkOp? || a[0].ReconcileOp?)
    requires |c| <= 1 && (c != [] ==> c[0].MarkOp? || c[0].ReconcileOp?)
    ensures About(a + b + c, mint) == About(b, mint)
  {
    NothingAbout(a, mint);
    NothingAbout(c, mint);
    AboutBoth(a, b, mint);
    AboutBoth(a + b, c, mint);
  }

  lemma SweepBooksByPlan(w: Sweep, tracked: map<string, Entry>, order: seq<string>, left: map<string, Entry>, mint: string)
    requires w.tokens.Some? && Lists(order, PendingMints(tracked))
    ensures About(SweepOps(w, tracked, order, left), mint)
         == if mint in PendingMints(tracked) then OpsFor(w, mint, tracked[mint]) else []
  {
    PlansBookTheirOwn(w, tracked);
    OrderBooksEachOnce(PlanOf(w, tracked), order, PendingMints(tracked), mint);
    AboutMiddle(MarkOps(w), OpsInOrder(PlanOf(w, tracked), order), TidyOps(w, left), mint);
  }

  lemma NothingAbout(ops: seq<Op>, mint: string)
    requires |ops| <= 1 && (ops != [] ==> ops[0].MarkOp? || ops[0].ReconcileOp?)
    ensures About(ops, mint) == []
  {
    if ops != [] {
      AboutOne(ops[0], mint);
      assert ops == [ops[0]];
    }
  }

  /** In whatever order a sweep meets the entries, what it books about a mint depends on that mint's entry only. */
  lemma BookingIsPerMint(w: Sweep, before: map<string, Entry>, order: seq<string>, left: map<string, Entry>, mint: string)
    requires w.tokens.Some? && Lists(order, PendingMints(Track(before, w.tokens.value, w.Skips(), w.startedAt)))
    ensures About(SweepOps(w, Track(before, w.tokens.value, w.Skips(), w.startedAt), order, left), mint)
         == Bookings(w, mint, Lookup(before, mint))
  {
    SweepBooksByPlan(w, Track(before, w.tokens.value, w.Skips(), w.startedAt), order, left, mint);
    TrackIsPerMint(before, w.tokens.value, w.Skips(), w.startedAt, mint);
  }

  /** The venue bought the mint's tokens in this sweep, or a readable wallet no longer had any. */
  predicate IsGone(w: Sweep, mint: string, existing: Option<Entry>) {
    && w.tokens.Some? && PendingIn(TrackedBy(w, mint, existing)) && mint !in w.Skips()
    && (!InWallet(w, mint) || (HandedToSwap(w, mint) && OutcomeFor(w, mint, TrackedBy(w, mint, existing).value.pool).Bought?))
  }

  /** The proceeds a sweep books: those of the sale, or none for a token found gone. */
  function ProceedsOf(w: Sweep, mint: string, pool: string): real
    requires w.tokens.Some?
  {
    if InWallet(w, mint) && OutcomeFor(w, mint, pool).Bought? then OutcomeFor(w, mint, pool).amountOut.GetOr(0.0) else 0.0
  }

  predicate SettlesWith(op: Op, mint: string, position: string, amountOutSol: real) {
    op.SettleOp? && op.mint == mint && op.position == position && op.sale.Sale? && op.sale.amountOutSol == amountOutSol
  }

  /**
   A sweep settles a mint's trades exactly when the mint was sold or found gone, once, for the position
   and the proceeds of that sale; and it writes them down exactly when it gives the entry up. The entry
   is marked accordingly.
   */
  lemma BookingsFollowTheSale(w: Sweep, mint: string, existing: Option<Entry>)
    requires w.tokens.Some? && PendingIn(TrackedBy(w, mint, existing))
    ensures var e, ops := TrackedBy(w, mint, existing).value, Bookings(w, mint, existing);
            var after := Handled(w, mint, e).0;
            && |ops| <= 1
            && (ops != [] && ops[0].SettleOp? <==> IsGone(w, mint, existing))
            && (IsGone(w, mint, existing) ==> SettlesWith(ops[0], mint, e.position, ProceedsOf(w, mint, e.pool)))
            && (ops != [] && ops[0].SettleOp? <==> after.stage == Liquidated)
            && (ops != [] && ops[0].AbandonOp? <==> after.stage == Abandoned)
  {
    var e := TrackedBy(w, mint, existing).value;
    if HandedToSwap(w, mint) { SaleEnds(w, mint, Live(w, mint, e), e.pool, OutcomeFor(w, mint, e.pool)); }
  }

  /** What a run of sweeps books about one mint. */
  function AllBookings(mint: string, e: Option<Entry>, sweeps: seq<Sweep>): seq<Op> {
    if sweeps == [] then []
    else
      var n := |sweeps| - 1;
      AllBookings(mint, e, sweeps[..n]) + Bookings(sweeps[n], mint, Evolved(mint, e, sweeps[..n]))
  }

  function Settlements(ops: seq<Op>): nat {
    if ops == [] then 0 else Settlements(ops[..|ops| - 1]) + if ops[|ops| - 1].SettleOp? then 1 else 0
  }

  /** In how many sweeps of a run the mint was sold or found gone. */
  function TimesGone(mint: string, e: Option<Entry>, sweeps: seq<Sweep>): nat {
    if sweeps == [] then 0
    else
      var n := |sweeps| - 1;
      TimesGone(mint, e, sweeps[..n]) + if IsGone(sweeps[n], mint, Evolved(mint, e, sweeps[..n])) then 1 else 0
  }

  lemma SettlementsOfMore(ops: seq<Op>, more: seq<Op>)
    requires |more| <= 1
    ensures Settlements(ops + more) == Settlements(ops) + if more != [] && more[0].SettleOp? then 1 else 0
  {
    if more == [] {
      assert ops + more == ops;
    } else {
      assert (ops + more)[..|ops|] == ops;
    }
  }

  /** Over any run of sweeps each sale is booked exactly once, and nothing is settled without one. */
  lemma {:induction false} EachSaleIsBookedOnce(mint: string, e: Option<Entry>, sweeps: seq<Sweep>)
    ensures Settlements(AllBookings(mint, e, sweeps)) == TimesGone(mint, e, sweeps)
  {
    if sweeps != [] {
      var n := |sweeps| - 1;
      var before := Evolved(mint, e, sweeps[..n]);
      EachSaleIsBookedOnce(mint, e, sweeps[..n]);
      if sweeps[n].tokens.Some? && PendingIn(TrackedBy(sweeps[n], mint, before)) {
        BookingsFollowTheSale(sweeps[n], mint, before);
      }
      SettlementsOfMore(AllBookings(mint, e, sweeps[..n]), Bookings(sweeps[n], mint, before));
    }
  }

  // ---------- What a sweep hands to a swap ----------

  /** Mints that no sweep touches: SOL in both spellings, USDC and those it was told to skip. */
  predicate IsSkipped(w: Sweep, mint: string) {
    || mint == "So11111111111111111111111111111111111111111" || mint == "So11111111111111111111111111111111111111112"
    || mint == "EPjFWdd5AufqSSqeM2qN1xzybapC8G4wEGGkZwyTDt1v" || mint in w.skipMints
  }

  predicate IsShown(t: Token) {
    t.balance.Some? && t.balance.value > 0.0
  }

  /** A price below zero or of at least the threshold; without a price, more than one raw unit or unknown decimals. */
  predicate IsWorthTrying(t: Token, minUsd: real)
    requires IsShown(t)
  {
    if t.usd.Some? then t.usd.value < 0.0 || t.usd.value >= minUsd
    else t.decimals.None? || ExceedsOne(t.balance.value, Pow10(t.decimals.value))
  }

  predicate ExceedsOne(amount: real, scale: real) {
    amount * scale > 1.0
  }

  lemma {:induction false} PowersOfTen(m: nat, n: nat)
    ensures Pow10(m + n) == Pow10(m) * Pow10(n) && Pow10(1) == 10.0
  {
    if m > 0 { PowersOfTen(m - 1, n); }
  }

  lemma DustIff(t: Token, minUsd: real)
    requires IsShown(t)
    ensures IsDust(t, minUsd) <==> !IsWorthTrying(t, minUsd)
  {
    if t.usd.None? && t.decimals.Some? {
      assert RAW_UNIT_DUST_FLOOR == 1.0;
      assert IsRawUnitDust(t) <==> BalanceOf(t) * Pow10(t.decimals.value) <= RAW_UNIT_DUST_FLOOR;
      assert IsRawUnitDust(t) <==> !ExceedsOne(BalanceOf(t), Pow10(t.decimals.value));
    }
  }

  /** The mint's first token in a readable wallet, which is the one a sweep looks at. */
  predicate Looks(w: Sweep, mint: string, j: nat) {
    w.tokens.Some? && IsFirstToken(w.tokens.value, mint, j)
  }

  /**
   A sweep that finds a pending mint outside the skip list in the wallet hands it to a swap exactly when the
   token has a price below zero or of at least the threshold, or no price and more than one raw unit or unknown
   decimals. In every other case the entry becomes dust and nothing is booked; so no token worth the threshold
   is ever buried.
   */
  lemma HeldTokenIsSoldOrDust(w: Sweep, mint: string, existing: Option<Entry>, j: nat)
    requires Looks(w, mint, j) && IsShown(w.tokens.value[j])
    requires !IsSkipped(w, mint) && PendingIn(TrackedBy(w, mint, existing))
    ensures TriesToSell(w, mint, existing) <==> IsWorthTrying(w.tokens.value[j], w.minUsd)
    ensures !IsWorthTrying(w.tokens.value[j], w.minUsd) ==>
              && AfterSweep(w, mint, existing).Some? && AfterSweep(w, mint, existing).value.stage == Dust
              && Bookings(w, mint, existing) == []
  {
    FindTokenIsFirst(w.tokens.value, mint);
    DustIff(w.tokens.value[j], w.minUsd);
  }

  /** A token a sweep takes up on its own: not skipped, not called SOL, WSOL or USDC, and held. */
  predicate IsTakenUp(w: Sweep, t: Token) {
    !IsSkipped(w, t.mint) && !IsCalled(t.symbol, "SOL") && !IsCalled(t.symbol, "WSOL") && !IsCalled(t.symbol, "USDC") && IsShown(t)
  }

  /** The symbol is the name, in letters of either case. */
  predicate IsCalled(symbol: string, name: string) {
    && |symbol| == |name|
    && forall k :: 0 <= k < |name| ==>
         symbol[k] == name[k] || ('A' <= name[k] <= 'Z' && symbol[k] as int - 'a' as int == name[k] as int - 'A' as int)
  }

  predicate IsUpper(name: string) {
    forall k :: 0 <= k < |name| ==> 'A' <= name[k] <= 'Z'
  }

  lemma CalledIff(symbol: string, name: string)
    requires IsUpper(name)
    ensures UpperAscii(symbol) == name <==> IsCalled(symbol, name)
  {
    if IsCalled(symbol, name) {
      forall k | 0 <= k < |name| ensures UpperAscii(symbol)[k] == name[k] {}
      assert UpperAscii(symbol) == name;
    }
  }

  lemma SolOrUsdcIff(symbol: string)
    ensures IsSolOrUsdc(symbol) <==> IsCalled(symbol, "SOL") || IsCalled(symbol, "WSOL") || IsCalled(symbol, "USDC")
  {
    CalledIff(symbol, "SOL");
    CalledIff(symbol, "WSOL");
    CalledIff(symbol, "USDC");
  }

  ghost predicate TakesUp(w: Sweep, mint: string) {
    w.tokens.Some? && exists j :: 0 <= j < |w.tokens.value| && w.tokens.value[j].mint == mint && IsTakenUp(w, w.tokens.value[j])
  }

  lemma SkippedIff(w: Sweep, mint: string)
    ensures mint in w.Skips() <==> IsSkipped(w, mint)
  {
  }

  lemma {:induction false} FirstSellableIff(w: Sweep, tokens: seq<Token>, mint: string)
    ensures FirstSellable(tokens, mint, w.Skips()).Some? <==>
            exists j :: 0 <= j < |tokens| && tokens[j].mint == mint && IsTakenUp(w, tokens[j])
  {
    if tokens != [] {
      var n := |tokens| - 1;
      FirstSellableIff(w, tokens[..n], mint);
      SkippedIff(w, tokens[n].mint);
      SolOrUsdcIff(tokens[n].symbol);
      if FirstSellable(tokens[..n], mint, w.Skips()).Some? {
        var j :| 0 <= j < n && tokens[..n][j].mint == mint && IsTakenUp(w, tokens[..n][j]);
        assert tokens[j] == tokens[..n][j];
      }
      if j :| 0 <= j < |tokens| && tokens[j].mint == mint && IsTakenUp(w, tokens[j]) {
        assert j < n ==> tokens[..n][j] == tokens[j];
      }
    }
  }

  /** Before the entries are handled, a mint is pending if it was, or if it was not known or sold and is taken up. */
  lemma PendingWhenTrackedIff(w: Sweep, mint: string, existing: Option<Entry>)
    requires w.tokens.Some?
    ensures PendingIn(TrackedBy(w, mint, existing)) <==>
            || (existing.Some? && existing.value.stage == Pending)
            || ((existing.None? || existing.value.stage == Liquidated) && TakesUp(w, mint))
  {
    FirstSellableIff(w, w.tokens.value, mint);
  }

  /** The first token of the mint that a sweep takes up. */
  ghost predicate TakesFirst(w: Sweep, mint: string, j: nat) {
    && w.tokens.Some? && j < |w.tokens.value| && w.tokens.value[j].mint == mint && IsTakenUp(w, w.tokens.value[j])
    && forall k :: 0 <= k < j ==> w.tokens.value[k].mint != mint || !IsTakenUp(w, w.tokens.value[k])
  }

  lemma {:induction false} FirstSellableIs(w: Sweep, tokens: seq<Token>, mint: string, j: nat)
    requires j < |tokens| && tokens[j].mint == mint && IsTakenUp(w, tokens[j])
    requires forall k :: 0 <= k < j ==> tokens[k].mint != mint || !IsTakenUp(w, tokens[k])
    ensures FirstSellable(tokens, mint, w.Skips()) == Some(tokens[j])
  {
    var n := |tokens| - 1;
    FirstSellableIff(w, tokens[..n], mint);
    assert forall k :: 0 <= k < n ==> tokens[..n][k] == tokens[k];
    if j < n {
      FirstSellableIs(w, tokens[..n], mint, j);
    } else {
      SkippedIff(w, tokens[n].mint);
      SolOrUsdcIff(tokens[n].symbol);
    }
  }

  /** A token taken up is registered with its balance and price; a sold one keeps what else was known of it. */
  lemma TakenUpIsRegistered(w: Sweep, mint: string, existing: Option<Entry>, j: nat)
    requires TakesFirst(w, mint, j) && (existing.None? || existing.value.stage == Liquidated)
    ensures TrackedBy(w, mint, existing).Some?
    ensures var e, t := TrackedBy(w, mint, existing).value, w.tokens.value[j];
            && e.stage == Pending && e.amount == t.balance.value && e.lastAttemptAt == w.startedAt
            && (t.usd.Some? ==> e.usd == t.usd && e.priced)
            && (existing.None? ==> e.usd == t.usd && e.attempts == 0 && e.addedAt == w.startedAt && e.pool == "" == e.position)
            && (existing.Some? ==>
                  && e.attempts == existing.value.attempts && e.addedAt == existing.value.addedAt
                  && e.pool == existing.value.pool && e.position == existing.value.position
                  && (t.usd.None? ==> e.usd == existing.value.usd))
  {
    FirstSellableIs(w, w.tokens.value, mint, j);
  }

  /** A sweep hands exactly these mints to a swap. */
  lemma HandedOverIff(w: Sweep, mint: string, existing: Option<Entry>)
    ensures TriesToSell(w, mint, existing) <==>
            && !IsSkipped(w, mint)
            && (exists j: nat :: Looks(w, mint, j) && IsShown(w.tokens.value[j]) && IsWorthTrying(w.tokens.value[j], w.minUsd))
            && (|| (existing.Some? && existing.value.stage == Pending)
                || ((existing.None? || existing.value.stage == Liquidated) && TakesUp(w, mint)))
  {
    SkippedIff(w, mint);
    if w.tokens.Some? {
      PendingWhenTrackedIff(w, mint, existing);
      FindTokenIsFirst(w.tokens.value, mint);
      if InWallet(w, mint) {
        FoundIsFirst(w, mint);
        DustIff(FindToken(w.tokens.value, mint).value, w.minUsd);
      }
    }
  }

  lemma FoundIsFirst(w: Sweep, mint: string)
    requires w.tokens.Some? && FindToken(w.tokens.value, mint).Some?
    ensures exists j: nat :: Looks(w, mint, j) && FindToken(w.tokens.value, mint) == Some(w.tokens.value[j])
  {
    FindTokenIsThere(w.tokens.value, mint);
    FindTokenIsFirst(w.tokens.value, mint);
    var j: nat :| IsFirstToken(w.tokens.value, mint, j);
    assert Looks(w, mint, j);
  }
}
