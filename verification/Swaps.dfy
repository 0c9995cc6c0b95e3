/**
 Selling one base token for SOL with retries.

 Every attempt reads the wallet again, tries the aggregator and, when a pool is known, the pool
 itself. The kind of refusal decides what the next attempt changes, or that there is none.
 */
module Swaps {
  import opened Money
  import opened Ledger
  import opened Options
  import opened LiquidationQueue

  datatype Refusal = Unavailable | PartialRoute | SlippageExceeded | OtherRefusal

  datatype Answer = Filled(amountOut: Option<real>, tx: string) | Refused(why: Refusal) | Raised

  /** What one attempt meets: the wallet could not be read, or its token and both venues' answers. */
  datatype Probe = Unreadable | Wallet(token: Option<Token>, aggregator: Answer, pool: Answer)

  datatype Order = Order(amount: real, slippageBps: Option<int>)

  datatype Outcome =
    | Bought(amountOut: Option<real>, tx: string)
    /** Nothing worth selling was found; after a first attempt that counts as swapped. */
    | NothingLeft(swapped: bool)
    | GaveUp(last: Option<Token>, immediately: bool)

  datatype Tuning = Tuning(multiplier: real, slippageBps: Option<int>)

  const StartTuning := Tuning(1.0, None)

  predicate WorthSelling(token: Option<Token>, minUsd: real) {
    && token.Some? && token.value.balance.Some? && token.value.balance.value > 0.0
    && !(token.value.usd.Some? && 0.0 <= token.value.usd.value < minUsd)
  }

  function OrderFor(token: Token, t: Tuning): Order
    requires token.balance.Some?
  {
    Order(Max(0.0, token.balance.value * t.multiplier), t.slippageBps)
  }

  /** The answer the attempt ends with: the pool is asked only after the aggregator refused. */
  function Settled(p: Probe, poolKnown: bool): Answer
    requires p.Wallet?
  {
    if !p.aggregator.Refused? || !poolKnown then p.aggregator
    else if p.pool.Refused? then p.aggregator
    else p.pool
  }

  function Retuned(t: Tuning, why: Refusal): Tuning {
    match why
    case PartialRoute => t.(multiplier := Max(0.1, t.multiplier * 0.5))
    case SlippageExceeded =>
      var doubled := t.slippageBps.GetOr(100) * 2;
      t.(slippageBps := Some(if doubled < 1000 then doubled else 1000))
    case _ => t
  }

  datatype Swap = Swap(outcome: Outcome, orders: seq<Order>)

  /** What attempts `attempt..attempts` come to. */
  function Retry(
    feed: nat -> Probe, attempt: nat, attempts: nat, minUsd: real, poolKnown: bool,
    t: Tuning, last: Option<Token>, orders: seq<Order>): Swap
    decreases attempts + 1 - attempt
  {
    if attempt > attempts then Swap(GaveUp(last, false), orders) else
      match feed(attempt)
      case Unreadable => Retry(feed, attempt + 1, attempts, minUsd, poolKnown, t, last, orders)
      case Wallet(token, _, _) =>
        if !WorthSelling(token, minUsd) then Swap(NothingLeft(attempt > 1), orders) else
          var placed := orders + [OrderFor(token.value, t)];
          match Settled(feed(attempt), poolKnown)
          case Filled(amountOut, tx) => Swap(Bought(amountOut, tx), placed)
          case Raised => Retry(feed, attempt + 1, attempts, minUsd, poolKnown, t, token, placed)
          case Refused(why) =>
            if why == Unavailable then Swap(GaveUp(token, true), placed)
            else Retry(feed, attempt + 1, attempts, minUsd, poolKnown, Retuned(t, why), token, placed)
  }

  function SaleOf(feed: nat -> Probe, attempts: nat, minUsd: real, poolKnown: bool): Swap {
    Retry(feed, 1, attempts, minUsd, poolKnown, StartTuning, None, [])
  }

  ghost predicate SaneTuning(t: Tuning) {
    && 0.1 <= t.multiplier <= 1.0
    && (t.slippageBps.Some? ==> 200 <= t.slippageBps.value <= 1000)
  }

  /** The order sells part of a balance the wallet showed at some attempt, at a bounded slippage. */
  ghost predicate SaneOrder(o: Order, feed: nat -> Probe, attempts: nat) {
    && (o.slippageBps.Some? ==> 200 <= o.slippageBps.value <= 1000)
    && exists k: nat :: 1 <= k <= attempts && CoveredAt(o, feed(k))
  }

  ghost predicate CoveredAt(o: Order, p: Probe) {
    && p.Wallet? && p.token.Some? && p.token.value.balance.Some?
    && 0.0 < o.amount <= p.token.value.balance.value
  }

  lemma ScaledDown(balance: real, multiplier: real, product: real)
    requires balance > 0.0 && 0.1 <= multiplier <= 1.0 && product == balance * multiplier
    ensures 0.0 < product <= balance
  {
    assert balance - product == balance * (1.0 - multiplier);
  }

  lemma OrderIsCovered(p: Probe, minUsd: real, t: Tuning)
    requires p.Wallet? && WorthSelling(p.token, minUsd) && SaneTuning(t)
    ensures CoveredAt(OrderFor(p.token.value, t), p)
  {
    var balance := p.token.value.balance.value;
    ScaledDown(balance, t.multiplier, balance * t.multiplier);
  }

  lemma {:induction false} RetryIsBounded(
    feed: nat -> Probe, attempt: nat, attempts: nat, minUsd: real, poolKnown: bool,
    t: Tuning, last: Option<Token>, orders: seq<Order>)
    requires 1 <= attempt <= attempts + 1 && |orders| < attempt && SaneTuning(t)
    requires forall k :: 0 <= k < |orders| ==> SaneOrder(orders[k], feed, attempts)
    ensures var sale := Retry(feed, attempt, attempts, minUsd, poolKnown, t, last, orders);
            && |sale.orders| <= attempts
            && (forall k :: 0 <= k < |sale.orders| ==> SaneOrder(sale.orders[k], feed, attempts))
    decreases attempts + 1 - attempt
  {
    if attempt <= attempts {
      match feed(attempt)
      case Unreadable =>
        RetryIsBounded(feed, attempt + 1, attempts, minUsd, poolKnown, t, last, orders);
      case Wallet(token, _, _) =>
        if WorthSelling(token, minUsd) {
          var o := OrderFor(token.value, t);
          OrderIsCovered(feed(attempt), minUsd, t);
          assert SaneOrder(o, feed, attempts);
          var placed := orders + [o];
          match Settled(feed(attempt), poolKnown)
          case Filled(_, _) =>
          case Raised => RetryIsBounded(feed, attempt + 1, attempts, minUsd, poolKnown, t, token, placed);
          case Refused(why) =>
            if why != Unavailable {
              RetryIsBounded(feed, attempt + 1, attempts, minUsd, poolKnown, Retuned(t, why), token, placed);
            }
        }
    }
  }

  /**
   A sale places at most one order per attempt; each sells a positive part of a balance the wallet
   showed, and the slippage is the default or between 200 and 1000 basis points.
   */
  lemma OrdersAreBounded(feed: nat -> Probe, attempts: nat, minUsd: real, poolKnown: bool)
    ensures var sale := SaleOf(feed, attempts, minUsd, poolKnown);
            && |sale.orders| <= attempts
            && (forall k :: 0 <= k < |sale.orders| ==> SaneOrder(sale.orders[k], feed, attempts))
  {
    RetryIsBounded(feed, 1, attempts, minUsd, poolKnown, StartTuning, None, []);
  }

  class Swapper {
    const queue: TokenQueue

    constructor (queue: TokenQueue)
      ensures this.queue == queue
    {
      this.queue := queue;
    }

    /** How the queue entry of a token looks once a sale of it has ended. */
    static function EntryAfter(
      existing: Option<Entry>, outcome: Outcome, pool: string, position: string, now: int): Option<Entry>
    {
      match outcome
      case Bought(amountOut, tx) =>
        if existing.None? then None
        else Some(SoldEntry(existing.value, tx, amountOut, Swapped, now))
      case NothingLeft(_) => existing
      case GaveUp(last, immediately) => Some(Enqueued(existing, Backlog(last, immediately, pool, position), now))
    }

    static function Backlog(last: Option<Token>, immediately: bool, pool: string, position: string): Request {
      Request(
        if last.Some? then last.value.balance.GetOr(0.0) else 0.0,
        if last.Some? then last.value.usd else None,
        None, pool, position, if immediately then Abandoned else Pending)
    }

    method SwapBaseToSolWithRetry(
      mint: string, feed: nat -> Probe, attempts: nat, minUsd: real, pool: string, position: string, now: int)
      returns (outcome: Outcome, orders: seq<Order>)
      requires queue.Valid()
      modifies queue, queue.ledger
      ensures queue.Valid()
      ensures Swap(outcome, orders) == SaleOf(feed, attempts, minUsd, pool != "")
      ensures queue.entries ==
              Put(old(queue.entries), mint, EntryAfter(Lookup(old(queue.entries), mint), outcome, pool, position, now))
      ensures queue.ledger.history ==
              if outcome.Bought? && mint in old(queue.entries)
              then old(queue.ledger.history)
                   + [SettleOp(mint, old(queue.entries)[mint].position,
                               Ledger.Sale(outcome.amountOut.GetOr(0.0), None, outcome.tx, now))]
              else old(queue.ledger.history)
    {
      var t := StartTuning;
      var last: Option<Token> := None;
      var immediately := false;
      orders := [];
      var attempt := 1;
      while attempt <= attempts && !immediately
        invariant queue.entries == old(queue.entries) && queue.Valid()
        invariant queue.ledger.history == old(queue.ledger.history)
        invariant !immediately ==> Retry(feed, attempt, attempts, minUsd, pool != "", t, last, orders) ==
                                   SaleOf(feed, attempts, minUsd, pool != "")
        invariant immediately ==> Swap(GaveUp(last, true), orders) == SaleOf(feed, attempts, minUsd, pool != "")
        decreases attempts + 1 - attempt, !immediately
      {
        var probe := feed(attempt);
        if probe.Wallet? {
          var token := probe.token;
          if !WorthSelling(token, minUsd) {
            outcome := NothingLeft(attempt > 1);
            return;
          }
          last := token;
          orders := orders + [OrderFor(token.value, t)];
          var answer := probe.aggregator;
          if answer.Refused? && pool != "" && !probe.pool.Refused? {
            answer := probe.pool;
          }
          match answer {
            case Filled(amountOut, tx) =>
              outcome := Bought(amountOut, tx);
              var _ := queue.MarkSuccess(mint, tx, amountOut, Swapped, now);
              return;
            case Raised =>
            case Refused(why) =>
              if why == Unavailable {
                immediately := true;
              } else {
                t := Retuned(t, why);
              }
          }
        }
        attempt := attempt + 1;
      }
      outcome := GaveUp(last, immediately);
      var _ := queue.Enqueue(mint, Backlog(last, immediately, pool, position), now);
    }
  }
}
