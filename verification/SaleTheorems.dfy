/**
 What a sale offers and how it ends, read off what its attempts met: the wallet and the answers of the
 two venues.
 */
module SaleTheorems {
  import opened Ledger
  import opened Options
  import opened LiquidationQueue
  import opened Swaps

  /** The wallet still shows some of the token, and not a known value between zero and the threshold. */
  predicate HasSomething(p: Probe, minUsd: real)
    requires p.Wallet?
  {
    match p.token
    case None => false
    case Some(t) => t.balance.GetOr(0.0) > 0.0 && (t.usd.Some? ==> t.usd.value < 0.0 || t.usd.value >= minUsd)
  }

  /** The aggregator refused, and so did the pool if there is one. */
  predicate IsRefused(p: Probe, poolKnown: bool, why: Refusal) {
    p.Wallet? && p.aggregator == Refused(why) && (poolKnown ==> p.pool.Refused?)
  }

  /** The venue that was asked last raised an error. */
  predicate Broke(p: Probe, poolKnown: bool) {
    p.Wallet? && (p.aggregator.Raised? || (poolKnown && p.aggregator.Refused? && p.pool.Raised?))
  }

  /** The answer of the aggregator, or after its refusal that of the pool, if it filled the order. */
  predicate Fills(p: Probe, poolKnown: bool, amountOut: Option<real>, tx: string) {
    && p.Wallet?
    && (p.aggregator == Filled(amountOut, tx) || (poolKnown && p.aggregator.Refused? && p.pool == Filled(amountOut, tx)))
  }

  /** The attempt neither sold the token nor ended the sale. */
  predicate GoesOn(p: Probe, minUsd: real, poolKnown: bool) {
    || p.Unreadable?
    || (HasSomething(p, minUsd)
        && (Broke(p, poolKnown) || IsRefused(p, poolKnown, PartialRoute)
            || IsRefused(p, poolKnown, SlippageExceeded) || IsRefused(p, poolKnown, OtherRefusal)))
  }

  ghost predicate AllGoOn(feed: nat -> Probe, n: nat, minUsd: real, poolKnown: bool) {
    forall a: nat :: 1 <= a < n ==> GoesOn(feed(a), minUsd, poolKnown)
  }

  /** How many of the attempts before `n` were refused for this reason. */
  function Refusals(feed: nat -> Probe, poolKnown: bool, why: Refusal, n: nat): nat {
    if n <= 1 then 0
    else Refusals(feed, poolKnown, why, n - 1) + if IsRefused(feed(n - 1), poolKnown, why) then 1 else 0
  }

  function Halves(n: nat): real {
    if n == 0 then 1.0 else Halves(n - 1) / 2.0
  }

  function Doubles(n: nat): nat {
    if n == 0 then 1 else 2 * Doubles(n - 1)
  }

  /** The part of the balance that is offered after so many refusals of a route for all of it. */
  function Share(partials: nat): real {
    if Halves(partials) < 0.1 then 0.1 else Halves(partials)
  }

  /** The slippage that is offered after so many refusals for slippage. */
  function Slippage(slips: nat): Option<int> {
    if slips == 0 then None else Some(if 100 * Doubles(slips) > 1000 then 1000 else 100 * Doubles(slips))
  }

  /** The order of attempt `a`: its own balance, with what the refusals before it changed. */
  predicate IsOrderOf(o: Order, feed: nat -> Probe, poolKnown: bool, a: nat) {
    && feed(a).Wallet? && feed(a).token.Some? && feed(a).token.value.balance.Some?
    && o.amount == feed(a).token.value.balance.value * Share(Refusals(feed, poolKnown, PartialRoute, a))
    && o.slippageBps == Slippage(Refusals(feed, poolKnown, SlippageExceeded, a))
  }

  /** The attempts before `n` that could read the wallet, in order. */
  function Readable(feed: nat -> Probe, n: nat): seq<nat> {
    if n <= 1 then [] else Readable(feed, n - 1) + if feed(n - 1).Wallet? then [n - 1] else []
  }

  ghost predicate AreOrdersOf(orders: seq<Order>, feed: nat -> Probe, poolKnown: bool, at: seq<nat>) {
    |orders| == |at| && forall k :: 0 <= k < |at| ==> IsOrderOf(orders[k], feed, poolKnown, at[k])
  }

  /** The token as the wallet showed it last before attempt `n`. */
  function LastSeen(feed: nat -> Probe, n: nat): Option<Token> {
    if n <= 1 then None else if feed(n - 1).Wallet? then feed(n - 1).token else LastSeen(feed, n - 1)
  }

  /** How a sale ends at attempt `n`, the first that did not go on, if any. */
  predicate EndsAt(outcome: Outcome, feed: nat -> Probe, attempts: nat, minUsd: real, poolKnown: bool, n: nat) {
    if n > attempts then outcome == GaveUp(LastSeen(feed, n), false)
    else
      && feed(n).Wallet?
      && match outcome
         case NothingLeft(swapped) => !HasSomething(feed(n), minUsd) && (swapped <==> n > 1)
         case Bought(amountOut, tx) => HasSomething(feed(n), minUsd) && Fills(feed(n), poolKnown, amountOut, tx)
         case GaveUp(last, immediately) =>
           immediately && HasSomething(feed(n), minUsd) && IsRefused(feed(n), poolKnown, Unavailable) && last == feed(n).token
  }

  /** The attempts that placed an order: those that could read the wallet, but not one that found nothing. */
  function Ordering(feed: nat -> Probe, attempts: nat, minUsd: real, n: nat): seq<nat> {
    Readable(feed, if n <= attempts && feed(n).Wallet? && HasSomething(feed(n), minUsd) then n + 1 else n)
  }

  /** The tuning that the refusals before attempt `n` lead to. */
  predicate IsTuned(t: Tuning, feed: nat -> Probe, poolKnown: bool, n: nat) {
    && t.multiplier == Share(Refusals(feed, poolKnown, PartialRoute, n))
    && t.slippageBps == Slippage(Refusals(feed, poolKnown, SlippageExceeded, n))
  }

  lemma {:induction false} HalvesFall(n: nat)
    ensures 0.0 < Halves(n) <= 1.0 && Halves(n + 1) == Halves(n) / 2.0
  {
    if n > 0 { HalvesFall(n - 1); }
  }

  lemma ShareStep(partials: nat, next: real)
    requires next == (if Share(partials) * 0.5 > 0.1 then Share(partials) * 0.5 else 0.1)
    ensures next == Share(partials + 1) && 0.1 <= next
  {
    HalvesFall(partials);
  }

  lemma {:induction false} DoublesGrow(n: nat)
    ensures Doubles(n) >= 1 && Doubles(n + 1) == 2 * Doubles(n)
  {
    if n > 0 { DoublesGrow(n - 1); }
  }

  lemma SlippageStep(slips: nat, doubled: int)
    requires doubled == Slippage(slips).GetOr(100) * 2
    ensures Some(if doubled < 1000 then doubled else 1000) == Slippage(slips + 1)
  {
    DoublesGrow(slips);
    assert Doubles(0) == 1;
  }

  lemma RetunedIsTuned(t: Tuning, feed: nat -> Probe, poolKnown: bool, n: nat, why: Refusal)
    requires n >= 1 && IsTuned(t, feed, poolKnown, n) && IsRefused(feed(n), poolKnown, why)
    ensures IsTuned(Retuned(t, why), feed, poolKnown, n + 1)
  {
    if why == PartialRoute {
      ShareStep(Refusals(feed, poolKnown, PartialRoute, n), Retuned(t, why).multiplier);
    } else if why == SlippageExceeded {
      SlippageStep(Refusals(feed, poolKnown, SlippageExceeded, n), t.slippageBps.GetOr(100) * 2);
    }
  }

  lemma OrderIsOfAttempt(feed: nat -> Probe, poolKnown: bool, minUsd: real, t: Tuning, a: nat)
    requires a >= 1 && IsTuned(t, feed, poolKnown, a) && feed(a).Wallet? && WorthSelling(feed(a).token, minUsd)
    ensures IsOrderOf(OrderFor(feed(a).token.value, t), feed, poolKnown, a)
  {
    var balance := feed(a).token.value.balance.value;
    HalvesFall(Refusals(feed, poolKnown, PartialRoute, a));
    ScaledDown(balance, t.multiplier, balance * t.multiplier);
  }

  lemma OrdersOfMore(orders: seq<Order>, o: Order, feed: nat -> Probe, poolKnown: bool, a: nat)
    requires a >= 1 && feed(a).Wallet? && AreOrdersOf(orders, feed, poolKnown, Readable(feed, a)) && IsOrderOf(o, feed, poolKnown, a)
    ensures AreOrdersOf(orders + [o], feed, poolKnown, Readable(feed, a + 1))
  {
  }

  /** What the attempts before `a` have left: the tuning, the token seen last and their orders. */
  ghost predicate IsUnderWay(
    feed: nat -> Probe, a: nat, minUsd: real, poolKnown: bool, t: Tuning, last: Option<Token>, orders: seq<Order>)
  {
    && a >= 1 && AllGoOn(feed, a, minUsd, poolKnown)
    && IsTuned(t, feed, poolKnown, a) && last == LastSeen(feed, a)
    && AreOrdersOf(orders, feed, poolKnown, Readable(feed, a))
  }

  lemma UnreadableStep(
    feed: nat -> Probe, a: nat, minUsd: real, poolKnown: bool, t: Tuning, last: Option<Token>, orders: seq<Order>)
    requires IsUnderWay(feed, a, minUsd, poolKnown, t, last, orders) && feed(a).Unreadable?
    ensures IsUnderWay(feed, a + 1, minUsd, poolKnown, t, last, orders)
  {
    assert Readable(feed, a + 1) == Readable(feed, a);
  }

  lemma OrderStep(
    feed: nat -> Probe, a: nat, minUsd: real, poolKnown: bool, t: Tuning, last: Option<Token>, orders: seq<Order>)
    requires IsUnderWay(feed, a, minUsd, poolKnown, t, last, orders)
    requires feed(a).Wallet? && WorthSelling(feed(a).token, minUsd)
    ensures HasSomething(feed(a), minUsd)
    ensures AreOrdersOf(orders + [OrderFor(feed(a).token.value, t)], feed, poolKnown, Readable(feed, a + 1))
    ensures LastSeen(feed, a + 1) == feed(a).token
  {
    OrderIsOfAttempt(feed, poolKnown, minUsd, t, a);
    OrdersOfMore(orders, OrderFor(feed(a).token.value, t), feed, poolKnown, a);
  }

  lemma TuningStays(feed: nat -> Probe, a: nat, poolKnown: bool, t: Tuning)
    requires a >= 1 && IsTuned(t, feed, poolKnown, a) && Broke(feed(a), poolKnown)
    ensures IsTuned(t, feed, poolKnown, a + 1)
  {
  }

  /** The answer an attempt settles on, told apart by what the venues said. */
  lemma SettledMeans(p: Probe, poolKnown: bool)
    requires p.Wallet?
    ensures match Settled(p, poolKnown)
            case Filled(amountOut, tx) => Fills(p, poolKnown, amountOut, tx)
            case Raised => Broke(p, poolKnown)
            case Refused(why) => IsRefused(p, poolKnown, why)
  {
  }

  /** An order whose venue raised an error changes nothing for the next attempt. */
  lemma RaisedStep(
    feed: nat -> Probe, a: nat, minUsd: real, poolKnown: bool, t: Tuning, last: Option<Token>, orders: seq<Order>)
    requires IsUnderWay(feed, a, minUsd, poolKnown, t, last, orders)
    requires feed(a).Wallet? && WorthSelling(feed(a).token, minUsd) && Settled(feed(a), poolKnown).Raised?
    ensures IsUnderWay(feed, a + 1, minUsd, poolKnown, t, feed(a).token, orders + [OrderFor(feed(a).token.value, t)])
  {
    OrderStep(feed, a, minUsd, poolKnown, t, last, orders);
    SettledMeans(feed(a), poolKnown);
    TuningStays(feed, a, poolKnown, t);
  }

  /** A refused order retunes the next attempt. */
  lemma RefusedStep(
    feed: nat -> Probe, a: nat, minUsd: real, poolKnown: bool, t: Tuning, last: Option<Token>, orders: seq<Order>, why: Refusal)
    requires IsUnderWay(feed, a, minUsd, poolKnown, t, last, orders) && why != Unavailable
    requires feed(a).Wallet? && WorthSelling(feed(a).token, minUsd) && Settled(feed(a), poolKnown) == Refused(why)
    ensures IsUnderWay(feed, a + 1, minUsd, poolKnown, Retuned(t, why), feed(a).token, orders + [OrderFor(feed(a).token.value, t)])
  {
    OrderStep(feed, a, minUsd, poolKnown, t, last, orders);
    SettledMeans(feed(a), poolKnown);
    RetunedIsTuned(t, feed, poolKnown, a, why);
  }

  /** The sale ends at attempt `n` in this way, with these orders. */
  ghost predicate IsEndOf(sale: Swap, feed: nat -> Probe, attempts: nat, minUsd: real, poolKnown: bool, n: nat) {
    && EndsAt(sale.outcome, feed, attempts, minUsd, poolKnown, n)
    && AreOrdersOf(sale.orders, feed, poolKnown, Ordering(feed, attempts, minUsd, n))
  }

  lemma LastOrderEnds(
    feed: nat -> Probe, a: nat, attempts: nat, minUsd: real, poolKnown: bool,
    t: Tuning, last: Option<Token>, orders: seq<Order>, outcome: Outcome)
    requires a <= attempts && IsUnderWay(feed, a, minUsd, poolKnown, t, last, orders)
    requires feed(a).Wallet? && WorthSelling(feed(a).token, minUsd)
    requires match Settled(feed(a), poolKnown)
             case Filled(amountOut, tx) => outcome == Bought(amountOut, tx)
             case Refused(why) => why == Unavailable && outcome == GaveUp(feed(a).token, true)
             case Raised => false
    ensures IsEndOf(Swap(outcome, orders + [OrderFor(feed(a).token.value, t)]), feed, attempts, minUsd, poolKnown, a)
  {
    OrderStep(feed, a, minUsd, poolKnown, t, last, orders);
    SettledMeans(feed(a), poolKnown);
  }

  lemma NothingEnds(
    feed: nat -> Probe, a: nat, attempts: nat, minUsd: real, poolKnown: bool, t: Tuning, last: Option<Token>, orders: seq<Order>)
    requires IsUnderWay(feed, a, minUsd, poolKnown, t, last, orders)
    requires a <= attempts ==> feed(a).Wallet? && !WorthSelling(feed(a).token, minUsd)
    ensures IsEndOf(Swap(if a > attempts then GaveUp(last, false) else NothingLeft(a > 1), orders), feed, attempts, minUsd, poolKnown, a)
  {
  }

  lemma {:induction false} RetryFollows(
    feed: nat -> Probe, a: nat, attempts: nat, minUsd: real, poolKnown: bool,
    t: Tuning, last: Option<Token>, orders: seq<Order>) returns (n: nat)
    requires a <= attempts + 1 && IsUnderWay(feed, a, minUsd, poolKnown, t, last, orders)
    ensures 1 <= n <= attempts + 1 && AllGoOn(feed, n, minUsd, poolKnown)
    ensures IsEndOf(Retry(feed, a, attempts, minUsd, poolKnown, t, last, orders), feed, attempts, minUsd, poolKnown, n)
    decreases attempts + 1 - a
  {
    n := a;
    if a <= attempts && feed(a).Unreadable? {
      UnreadableStep(feed, a, minUsd, poolKnown, t, last, orders);
      n := RetryFollows(feed, a + 1, attempts, minUsd, poolKnown, t, last, orders);
    } else if a <= attempts && WorthSelling(feed(a).token, minUsd) {
      var token := feed(a).token;
      var placed := orders + [OrderFor(token.value, t)];
      match Settled(feed(a), poolKnown)
      case Filled(amountOut, tx) =>
        LastOrderEnds(feed, a, attempts, minUsd, poolKnown, t, last, orders, Bought(amountOut, tx));
      case Raised =>
        RaisedStep(feed, a, minUsd, poolKnown, t, last, orders);
        n := RetryFollows(feed, a + 1, attempts, minUsd, poolKnown, t, token, placed);
      case Refused(why) =>
        if why == Unavailable {
          LastOrderEnds(feed, a, attempts, minUsd, poolKnown, t, last, orders, GaveUp(token, true));
        } else {
          RefusedStep(feed, a, minUsd, poolKnown, t, last, orders, why);
          n := RetryFollows(feed, a + 1, attempts, minUsd, poolKnown, Retuned(t, why), token, placed);
        }
    } else {
      NothingEnds(feed, a, attempts, minUsd, poolKnown, t, last, orders);
    }
  }

  /**
   A sale ends at the first attempt `n` that does not go on, the way that attempt says, or gives up after
   the last. Before that each attempt that could read the wallet placed one order. It offered the balance
   shown then, halved once for each route refused as partial before it but never less than a tenth; at the
   venue's own slippage before any refusal for slippage, and then at twice 100 basis points, doubled again
   with each further one up to 1000. Neither kind of refusal changes the other figure.
   */
  lemma SaleFollowsItsAnswers(feed: nat -> Probe, attempts: nat, minUsd: real, poolKnown: bool) returns (n: nat)
    ensures 1 <= n <= attempts + 1 && AllGoOn(feed, n, minUsd, poolKnown)
    ensures IsEndOf(SaleOf(feed, attempts, minUsd, poolKnown), feed, attempts, minUsd, poolKnown, n)
  {
    n := RetryFollows(feed, 1, attempts, minUsd, poolKnown, StartTuning, None, []);
  }

  // ---------- What a sale leaves in the queue ----------

  /** A token left unsold waits for a sweep, or is a tombstone if it has no liquidity at all. */
  predicate IsLeft(e: Entry, existing: Option<Entry>, last: Option<Token>, immediately: bool, pool: string, position: string, now: int) {
    var known := existing.GetOr(Entry(0.0, None, false, "", "", now, now, 0, Pending, "", None, None));
    var shown := if last.None? then 0.0 else last.value.balance.GetOr(0.0);
    && e.stage == (if immediately then Abandoned else Pending)
    && e.attempts == known.attempts && e.addedAt == known.addedAt && e.lastAttemptAt == now
    && (shown > 0.0 ==> e.amount == shown) && (shown <= 0.0 && existing.Some? ==> e.amount == known.amount)
    && (if last.Some? && last.value.usd.Some? then e.usd == last.value.usd && e.priced else e.usd == known.usd && e.priced == known.priced)
    && e.pool == (if pool == "" then known.pool else pool)
    && e.position == (if position == "" then known.position else position)
  }

  /**
   A sale leaves the token's entry marked sold, with the venue's transaction and proceeds, if there is one;
   as it was, if nothing was worth selling; and registered, with age and attempts kept, if it was given up.
   */
  lemma SaleLeaves(existing: Option<Entry>, outcome: Outcome, pool: string, position: string, now: int)
    ensures var after := Swapper.EntryAfter(existing, outcome, pool, position, now);
            match outcome
            case Bought(amountOut, tx) =>
              if existing.None? then after.None?
              else after == Some(existing.value.(stage := Liquidated, departure := Some(Swapped), lastAttemptAt := now,
                                                 tx := tx, amountOutSol := amountOut))
            case NothingLeft(_) => after == existing
            case GaveUp(last, immediately) => after.Some? && IsLeft(after.value, existing, last, immediately, pool, position, now)
  {
  }
}
