/**
 The persistent backlog of unsold tokens (state.json), one entry per mint.

 Selling or giving up an entry also closes out the trades that wait for it in the ledger.
 */
module LiquidationQueue {
  import opened Ledger
  import opened Options

  datatype Stage = Pending | Liquidated | Abandoned | Dust

  datatype Departure = Swapped | WalletEmpty

  datatype Entry = Entry(
    amount: real, usd: Option<real>, priced: bool, pool: string, position: string,
    addedAt: int, lastAttemptAt: int, attempts: nat, stage: Stage,
    tx: string, amountOutSol: Option<real>, departure: Option<Departure>)

  datatype Request = Request(
    amount: real, usd: Option<real>, priced: Option<bool>, pool: string, position: string, stage: Stage)

  datatype Limits = Limits(maxAttempts: nat, abandonWindowHours: real)

  function Lookup(entries: map<string, Entry>, mint: string): Option<Entry> {
    if mint in entries then Some(entries[mint]) else None
  }

  function Put(entries: map<string, Entry>, mint: string, e: Option<Entry>): map<string, Entry> {
    if e.Some? then entries[mint := e.value] else entries
  }

  function PendingMints(entries: map<string, Entry>): set<string> {
    set mint | mint in entries && entries[mint].stage == Pending
  }

  function HoursToMs(hours: real): real {
    hours * 3600000.0
  }

  /** Re-registering a token keeps its age, its attempts and everything the request leaves unsaid. */
  function Enqueued(existing: Option<Entry>, q: Request, now: int): Entry {
    match existing
    case Some(e) =>
      e.(amount := if q.amount > 0.0 then q.amount else e.amount,
         usd := if q.usd.Some? then q.usd else e.usd,
         priced := if q.usd.Some? then true else q.priced.GetOr(e.priced),
         pool := if q.pool != "" then q.pool else e.pool,
         position := if q.position != "" then q.position else e.position,
         lastAttemptAt := now, stage := q.stage)
    case None =>
      Entry(q.amount, q.usd, q.priced.GetOr(q.usd.Some?), q.pool, q.position, now, now, 0, q.stage, "", None, None)
  }

  /** Live figures replace the frozen ones of a pending entry; an unknown price keeps the known one. */
  function Refreshed(e: Entry, amount: real, usd: Option<real>): Entry {
    if e.stage != Pending then e else
      var live := if amount > 0.0 then e.(amount := amount) else e;
      if usd.Some? then live.(usd := usd, priced := true) else live
  }

  function SoldEntry(e: Entry, tx: string, amountOutSol: Option<real>, departure: Departure, now: int): Entry {
    e.(stage := Liquidated, lastAttemptAt := now, tx := tx, amountOutSol := amountOutSol, departure := Some(departure))
  }

  /** Whether this failed attempt is the last one the entry gets. */
  predicate GivesUp(e: Entry, limits: Limits, immediately: bool, now: int) {
    || immediately
    || e.attempts + 1 >= limits.maxAttempts
    || (now - e.addedAt) as real >= HoursToMs(limits.abandonWindowHours)
  }

  function Attempted(e: Entry, limits: Limits, immediately: bool, now: int): Entry {
    e.(attempts := e.attempts + 1, lastAttemptAt := now,
       stage := if GivesUp(e, limits, immediately, now) then Abandoned else e.stage)
  }

  function Dusted(e: Entry, now: int): Entry {
    e.(stage := Dust, lastAttemptAt := now)
  }

  /** Old settled entries are dropped, but not the tombstones of tokens still held. */
  predicate Prunable(mint: string, e: Entry, retentionHours: real, held: set<string>, now: int) {
    && e.stage != Pending
    && !((e.stage == Abandoned || e.stage == Dust) && mint in held)
    && e.lastAttemptAt > 0
    && e.lastAttemptAt as real <= now as real - HoursToMs(retentionHours)
  }

  function Pruned(entries: map<string, Entry>, retentionHours: real, held: set<string>, now: int): map<string, Entry> {
    map mint | mint in entries && !Prunable(mint, entries[mint], retentionHours, held, now) :: entries[mint]
  }

  // ---------- The operations ----------

  datatype QueueOp =
    | Register(q: Request, now: int)
    | Revalue(amount: real, usd: Option<real>)
    | Succeed(tx: string, amountOutSol: Option<real>, departure: Departure, now: int)
    | Fail(limits: Limits, immediately: bool, now: int)
    | Discard(now: int)
    | Clear(retentionHours: real, held: set<string>, now: int)

  /** Whether the operation removes the entry. */
  predicate Drops(mint: string, e: Option<Entry>, op: QueueOp) {
    e.Some? && op.Clear? && Prunable(mint, e.value, op.retentionHours, op.held, op.now)
  }

  /** What the operation does to the mint's entry; all but a registration pass over an absent one. */
  function Step(mint: string, e: Option<Entry>, op: QueueOp): Option<Entry> {
    if op.Register? then Some(Enqueued(e, op.q, op.now))
    else if e.None? || Drops(mint, e, op) then None
    else
      match op
      case Revalue(amount, usd) => Some(Refreshed(e.value, amount, usd))
      case Succeed(tx, out, departure, now) => Some(SoldEntry(e.value, tx, out, departure, now))
      case Fail(limits, immediately, now) => Some(Attempted(e.value, limits, immediately, now))
      case Discard(now) => Some(Dusted(e.value, now))
      case _ => e
  }

  /** An operation on the queue; a clearing goes through all of it, so its mint is of no account. */
  datatype Action = Action(mint: string, op: QueueOp)

  function Acted(entries: map<string, Entry>, a: Action): map<string, Entry> {
    if a.op.Clear? then Pruned(entries, a.op.retentionHours, a.op.held, a.op.now)
    else Put(entries, a.mint, Step(a.mint, Lookup(entries, a.mint), a.op))
  }

  class TokenQueue {
    const ledger: TradeLedger
    var entries: map<string, Entry>

    ghost predicate Valid()
      reads this, ledger
    {
      ledger.Valid()
    }

    constructor (ledger: TradeLedger)
      ensures this.ledger == ledger && entries == map[]
    {
      this.ledger, entries := ledger, map[];
    }

    method Enqueue(mint: string, q: Request, now: int) returns (e: Entry)
      modifies this
      ensures e == Enqueued(Lookup(old(entries), mint), q, now)
      ensures entries == old(entries)[mint := e] == Acted(old(entries), Action(mint, Register(q, now)))
    {
      e := Enqueued(Lookup(entries, mint), q, now);
      entries := entries[mint := e];
    }

    method Refresh(mint: string, amount: real, usd: Option<real>) returns (refreshed: bool)
      modifies this
      ensures refreshed <==> mint in PendingMints(old(entries))
      ensures entries == if refreshed then old(entries)[mint := Refreshed(old(entries)[mint], amount, usd)] else old(entries)
      ensures entries == Acted(old(entries), Action(mint, Revalue(amount, usd)))
    {
      refreshed := mint in entries && entries[mint].stage == Pending;
      if refreshed {
        entries := entries[mint := Refreshed(entries[mint], amount, usd)];
      }
    }

    /** A sale of a token without an entry leaves both files as they were. */
    method MarkSuccess(mint: string, tx: string, amountOutSol: Option<real>, departure: Departure, now: int)
      returns (marked: bool)
      requires Valid()
      modifies this, ledger
      ensures Valid()
      ensures marked <==> mint in old(entries)
      ensures entries == Acted(old(entries), Action(mint, Succeed(tx, amountOutSol, departure, now)))
      ensures !marked ==> entries == old(entries) && ledger.State() == old(ledger.State()) && ledger.history == old(ledger.history)
      ensures marked ==>
                var e := old(entries)[mint];
                var op := SettleOp(mint, e.position, Sale(amountOutSol.GetOr(0.0), None, tx, now));
                && entries == old(entries)[mint := SoldEntry(e, tx, amountOutSol, departure, now)]
                && ledger.history == old(ledger.history) + [op]
                && ledger.State() == Apply(old(ledger.State()), op)
    {
      marked := mint in entries;
      if marked {
        var e := entries[mint];
        entries := entries[mint := SoldEntry(e, tx, amountOutSol, departure, now)];
        var _ := ledger.SettleTradeLiquidation(mint, e.position, Sale(amountOutSol.GetOr(0.0), None, tx, now));
      }
    }

    /** A token that is not tracked counts as abandoned, and so do the trades waiting for it. */
    method MarkAttempt(mint: string, limits: Limits, immediately: bool, now: int) returns (stage: Stage, attempts: nat)
      requires Valid()
      modifies this, ledger
      ensures Valid() && entries == Acted(old(entries), Action(mint, Fail(limits, immediately, now)))
      ensures mint !in old(entries) ==>
                && stage == Abandoned && attempts == 0 && entries == old(entries)
                && ledger.history == old(ledger.history) + [AbandonOp(mint, "", now)]
      ensures mint in old(entries) ==>
                var e := old(entries)[mint];
                var after := Attempted(e, limits, immediately, now);
                && stage == after.stage && attempts == e.attempts + 1
                && entries == old(entries)[mint := after]
                && ledger.history ==
                   if after.stage != Abandoned then old(ledger.history)
                   else old(ledger.history)
                        + [AbandonOp(mint, if GivesUp(e, limits, immediately, now) then e.position else "", now)]
    {
      var position := "";
      if mint !in entries {
        stage, attempts := Abandoned, 0;
      } else {
        var e := entries[mint];
        if GivesUp(e, limits, immediately, now) {
          position := e.position;
        }
        entries := entries[mint := Attempted(e, limits, immediately, now)];
        stage, attempts := entries[mint].stage, entries[mint].attempts;
      }
      if stage == Abandoned {
        var _ := ledger.AbandonTradeLiquidation(mint, position, now);
      }
    }

    method MarkDust(mint: string, now: int) returns (marked: bool)
      modifies this
      ensures marked <==> mint in old(entries)
      ensures entries == if marked then old(entries)[mint := Dusted(old(entries)[mint], now)] else old(entries)
      ensures entries == Acted(old(entries), Action(mint, Discard(now)))
    {
      marked := mint in entries;
      if marked {
        entries := entries[mint := Dusted(entries[mint], now)];
      }
    }

    method Prune(retentionHours: real, held: set<string>, now: int) returns (pruned: nat)
      modifies this
      ensures entries == Pruned(old(entries), retentionHours, held, now) == Acted(old(entries), Action("", Clear(retentionHours, held, now)))
      ensures pruned + |entries| == |old(entries)|
    {
      pruned := 0;
      ghost var before := entries;
      var todo := entries.Keys;
      while todo != {}
        invariant todo <= before.Keys && entries.Keys <= before.Keys
        invariant forall mint :: mint in before ==>
                    (mint in entries <==> mint in todo || !Prunable(mint, before[mint], retentionHours, held, now))
        invariant forall mint :: mint in entries ==> entries[mint] == before[mint]
        invariant pruned + |entries| == |before|
        decreases todo
      {
        var mint :| mint in todo;
        if Prunable(mint, entries[mint], retentionHours, held, now) {
          assert |entries - {mint}| == |entries| - 1 by {
            assert (entries - {mint}).Keys == entries.Keys - {mint};
          }
          entries := entries - {mint};
          pruned := pruned + 1;
        }
        todo := todo - {mint};
      }
    }
  }
}
