/**
 What becomes of the backlog over any history of queue operations: each mint's entry follows the operations
 that concern it, is pending exactly when one of them asked for it, and carries their attempts and age.
 */
module QueueTheorems {
  import opened LiquidationQueue
  import opened Options

  predicate IsPending(e: Option<Entry>) {
    e.Some? && e.value.stage == Pending
  }

  function Run(mint: string, e: Option<Entry>, ops: seq<QueueOp>): Option<Entry> {
    if ops == [] then e else Step(mint, Run(mint, e, ops[..|ops| - 1]), ops[|ops| - 1])
  }

  // ---------- The whole queue ----------

  function RunAll(entries: map<string, Entry>, actions: seq<Action>): map<string, Entry> {
    if actions == [] then entries else Acted(RunAll(entries, actions[..|actions| - 1]), actions[|actions| - 1])
  }

  /** The operation concerns the mint: one on its entry, or a clearing of the queue. */
  predicate Concerns(a: Action, mint: string) {
    a.mint == mint || a.op.Clear?
  }

  function OpsAt(actions: seq<Action>, mint: string): seq<QueueOp> {
    if actions == [] then []
    else OpsAt(actions[..|actions| - 1], mint) + if Concerns(actions[|actions| - 1], mint) then [actions[|actions| - 1].op] else []
  }

  /** An operation does to each mint what the step says, and nothing to a mint that it does not concern. */
  lemma ActsPerMint(entries: map<string, Entry>, a: Action, mint: string)
    ensures Lookup(Acted(entries, a), mint)
         == if Concerns(a, mint) then Step(mint, Lookup(entries, mint), a.op) else Lookup(entries, mint)
  {
  }

  lemma RunOfMore(mint: string, e: Option<Entry>, ops: seq<QueueOp>, op: QueueOp)
    ensures Run(mint, e, ops + [op]) == Step(mint, Run(mint, e, ops), op)
  {
    assert (ops + [op])[..|ops|] == ops;
  }

  /** Over any history of the queue, each mint's entry is what the operations that concern it make of it. */
  lemma {:induction false} EachMintFollowsItsOps(entries: map<string, Entry>, actions: seq<Action>, mint: string)
    ensures Lookup(RunAll(entries, actions), mint) == Run(mint, Lookup(entries, mint), OpsAt(actions, mint))
  {
    if actions != [] {
      var earlier, a := actions[..|actions| - 1], actions[|actions| - 1];
      EachMintFollowsItsOps(entries, earlier, mint);
      ActsPerMint(RunAll(entries, earlier), a, mint);
      if Concerns(a, mint) {
        RunOfMore(mint, Lookup(entries, mint), OpsAt(earlier, mint), a.op);
      } else {
        assert OpsAt(actions, mint) == OpsAt(earlier, mint);
      }
    }
  }

  // ---------- When the entry is pending ----------

  predicate Requests(op: QueueOp) {
    op.Register? && op.q.stage == Pending
  }

  /** The operation takes the entry out of the pending ones: sold, dust, given up, or registered as settled. */
  predicate Ends(e: Option<Entry>, op: QueueOp) {
    match op
    case Register(q, _) => q.stage != Pending
    case Succeed(_, _, _, _) => true
    case Discard(_) => true
    case Fail(limits, immediately, now) => e.Some? && GivesUp(e.value, limits, immediately, now)
    case _ => false
  }

  lemma StepIsPendingIff(mint: string, e: Option<Entry>, op: QueueOp)
    ensures IsPending(Step(mint, e, op)) <==> Requests(op) || (IsPending(e) && !Ends(e, op))
  {
  }

  /** No operation after the `k`-th ends it. */
  predicate LastsFrom(mint: string, e: Option<Entry>, ops: seq<QueueOp>, k: nat) {
    |ops| <= k + 1
    || (LastsFrom(mint, e, ops[..|ops| - 1], k) && !Ends(Run(mint, e, ops[..|ops| - 1]), ops[|ops| - 1]))
  }

  /** Operation `k` asks for a sale, and nothing after it ends that. */
  predicate OpensFor(mint: string, e: Option<Entry>, ops: seq<QueueOp>, k: nat) {
    k < |ops| && Requests(ops[k]) && LastsFrom(mint, e, ops, k)
  }

  ghost predicate WasOpened(mint: string, e: Option<Entry>, ops: seq<QueueOp>) {
    exists k :: OpensFor(mint, e, ops, k)
  }

  lemma {:induction false} OpensForMore(mint: string, e: Option<Entry>, ops: seq<QueueOp>, k: nat)
    requires ops != [] && k < |ops| - 1
    ensures OpensFor(mint, e, ops, k)
        <==> OpensFor(mint, e, ops[..|ops| - 1], k) && !Ends(Run(mint, e, ops[..|ops| - 1]), ops[|ops| - 1])
  {
  }

  /**
   An entry that is not pending, given up or absent for instance, is pending after a history exactly when
   some operation of it registered the token as pending and no later one sold it, found it dust, gave it
   up or registered it as settled. No other operation brings it back.
   */
  lemma {:induction false} ReturnsIff(mint: string, e: Option<Entry>, ops: seq<QueueOp>)
    requires !IsPending(e)
    ensures IsPending(Run(mint, e, ops)) <==> WasOpened(mint, e, ops)
  {
    if ops != [] {
      var n := |ops| - 1;
      ReturnsIff(mint, e, ops[..n]);
      StepIsPendingIff(mint, Run(mint, e, ops[..n]), ops[n]);
      if Requests(ops[n]) {
        assert OpensFor(mint, e, ops, n);
      } else {
        OpenedBeforeIff(mint, e, ops);
      }
    }
  }

  lemma {:induction false} OpenedBeforeIff(mint: string, e: Option<Entry>, ops: seq<QueueOp>)
    requires ops != [] && !Requests(ops[|ops| - 1])
    ensures WasOpened(mint, e, ops)
        <==> WasOpened(mint, e, ops[..|ops| - 1]) && !Ends(Run(mint, e, ops[..|ops| - 1]), ops[|ops| - 1])
  {
    var n := |ops| - 1;
    if k :| OpensFor(mint, e, ops, k) {
      OpensForMore(mint, e, ops, k);
    }
    if k :| OpensFor(mint, e, ops[..n], k) {
      OpensForMore(mint, e, ops, k);
    }
  }

  // ---------- Attempts and age ----------

  function Failures(ops: seq<QueueOp>): nat {
    if ops == [] then 0 else Failures(ops[..|ops| - 1]) + if ops[|ops| - 1].Fail? then 1 else 0
  }

  /** The last registration that found no entry, if there was one. */
  ghost function Rebirth(mint: string, e: Option<Entry>, ops: seq<QueueOp>): (r: Option<nat>)
    ensures r.Some? ==> r.value < |ops| && ops[r.value].Register?
  {
    if ops == [] then None
    else
      var n := |ops| - 1;
      if ops[n].Register? && Run(mint, e, ops[..n]).None? then Some(n) else Rebirth(mint, e, ops[..n])
  }

  /** The entry an operation leaves behind is new, or has the age of the one before and counts its failures. */
  lemma StepKeepsAge(mint: string, e: Option<Entry>, op: QueueOp)
    requires Step(mint, e, op).Some?
    ensures e.None? ==> op.Register? && Step(mint, e, op).value.addedAt == op.now && Step(mint, e, op).value.attempts == 0
    ensures e.Some? ==> Step(mint, e, op).value.addedAt == e.value.addedAt
    ensures e.Some? ==> Step(mint, e, op).value.attempts == e.value.attempts + if op.Fail? then 1 else 0
  {
  }

  lemma FailuresOfMore(ops: seq<QueueOp>, from: nat)
    requires from < |ops|
    ensures Failures(ops[from..]) == Failures(ops[from..|ops| - 1]) + if ops[|ops| - 1].Fail? then 1 else 0
  {
    assert ops[from..][..|ops[from..]| - 1] == ops[from..|ops| - 1];
  }

  /** The age and the attempts that the history gives an entry. */
  ghost predicate HasAge(x: Entry, e: Option<Entry>, ops: seq<QueueOp>, birth: Option<nat>)
    requires birth.Some? ==> birth.value < |ops| && ops[birth.value].Register?
  {
    match birth
    case None => e.Some? && x.addedAt == e.value.addedAt && x.attempts == e.value.attempts + Failures(ops)
    case Some(r) => x.addedAt == ops[r].now && x.attempts == Failures(ops[r + 1..])
  }

  lemma {:induction false} AgeAfterStep(x: Entry, y: Entry, e: Option<Entry>, ops: seq<QueueOp>, birth: Option<nat>)
    requires ops != [] && birth.Some? ==> birth.value < |ops| - 1 && ops[birth.value].Register?
    requires ops != [] && HasAge(x, e, ops[..|ops| - 1], birth)
    requires y.addedAt == x.addedAt && y.attempts == x.attempts + if ops[|ops| - 1].Fail? then 1 else 0
    ensures HasAge(y, e, ops, birth)
  {
    if birth.Some? {
      var r := birth.value;
      assert ops[..|ops| - 1][r + 1..] == ops[r + 1..|ops| - 1];
      if r + 1 < |ops| { FailuresOfMore(ops, r + 1); }
    }
  }

  /**
   After any history an entry has the age and the attempts it began with, plus one for each failed
   attempt, unless it was dropped and registered afresh: then it is as old as the last registration that
   found no entry, and its attempts are the failures since.
   */
  lemma {:induction false} AttemptsAndAge(mint: string, e: Option<Entry>, ops: seq<QueueOp>)
    requires Run(mint, e, ops).Some?
    ensures HasAge(Run(mint, e, ops).value, e, ops, Rebirth(mint, e, ops))
  {
    if ops != [] {
      var n := |ops| - 1;
      var before := Run(mint, e, ops[..n]);
      StepKeepsAge(mint, before, ops[n]);
      if before.Some? {
        AttemptsAndAge(mint, e, ops[..n]);
        AgeAfterStep(before.value, Run(mint, e, ops).value, e, ops, Rebirth(mint, e, ops[..n]));
      }
    }
  }

  /** Some operation of the history dropped the entry. */
  predicate DroppedIn(mint: string, e: Option<Entry>, ops: seq<QueueOp>) {
    ops != [] && (DroppedIn(mint, e, ops[..|ops| - 1]) || Drops(mint, Run(mint, e, ops[..|ops| - 1]), ops[|ops| - 1]))
  }

  /** An entry of the beginning starts afresh exactly when some operation dropped it and it is there again. */
  lemma {:induction false} RestartsIffDropped(mint: string, e: Entry, ops: seq<QueueOp>)
    ensures Run(mint, Some(e), ops).None? ==> DroppedIn(mint, Some(e), ops)
    ensures Run(mint, Some(e), ops).Some? ==> (Rebirth(mint, Some(e), ops).Some? <==> DroppedIn(mint, Some(e), ops))
  {
    if ops != [] {
      RestartsIffDropped(mint, e, ops[..|ops| - 1]);
    }
  }

  /**
   A given-up token that is pending again has kept its age, and its attempts with every failure since,
   exactly when no clearing dropped its tombstone in between.
   */
  lemma AbandonedComesBack(mint: string, e: Entry, ops: seq<QueueOp>)
    requires e.stage == Abandoned && IsPending(Run(mint, Some(e), ops))
    ensures WasOpened(mint, Some(e), ops)
    ensures var x := Run(mint, Some(e), ops).value;
            if DroppedIn(mint, Some(e), ops)
            then Rebirth(mint, Some(e), ops).Some? && HasAge(x, Some(e), ops, Rebirth(mint, Some(e), ops))
            else x.addedAt == e.addedAt && x.attempts == e.attempts + Failures(ops)
  {
    ReturnsIff(mint, Some(e), ops);
    AttemptsAndAge(mint, Some(e), ops);
    RestartsIffDropped(mint, e, ops);
  }

  /** A tombstone cleared a day after its last attempt comes back as a new entry, with no attempt against it. */
  lemma ClearedTombstoneStartsAfresh(mint: string, e: Entry, q: Request, held: set<string>, now: int)
    requires e.stage == Abandoned && e.lastAttemptAt > 0 && mint !in held && q.stage == Pending
    requires now as real >= e.lastAttemptAt as real + 24.0 * 3600000.0
    ensures var x := Run(mint, Some(e), [Clear(24.0, held, now)] + [Register(q, now)]);
            IsPending(x) && x.value.addedAt == now && x.value.attempts == 0
  {
    var ops := [Clear(24.0, held, now)] + [Register(q, now)];
    assert ops[..1] == [Clear(24.0, held, now)] && ops[..1][..0] == [];
    assert Run(mint, Some(e), ops[..1]) == Step(mint, Some(e), ops[0]) == None;
  }

  // ---------- The same, for the queue ----------

  /**
   A mint that is not pending in the queue is pending after a history of it exactly when some operation
   registered it as pending and no later one that concerns it ended that, whatever happened to the others.
   */
  lemma PendingAgainIff(entries: map<string, Entry>, actions: seq<Action>, mint: string)
    requires mint !in PendingMints(entries)
    ensures mint in PendingMints(RunAll(entries, actions)) <==> WasOpened(mint, Lookup(entries, mint), OpsAt(actions, mint))
  {
    EachMintFollowsItsOps(entries, actions, mint);
    ReturnsIff(mint, Lookup(entries, mint), OpsAt(actions, mint));
  }

  /** A given-up token that is pending again kept age and attempts, unless its tombstone was cleared in between. */
  lemma AbandonedMintComesBack(entries: map<string, Entry>, actions: seq<Action>, mint: string)
    requires mint in entries && entries[mint].stage == Abandoned && mint in PendingMints(RunAll(entries, actions))
    ensures var e, x, ops := entries[mint], RunAll(entries, actions)[mint], OpsAt(actions, mint);
            if DroppedIn(mint, Some(e), ops)
            then Rebirth(mint, Some(e), ops).Some? && HasAge(x, Some(e), ops, Rebirth(mint, Some(e), ops))
            else x.addedAt == e.addedAt && x.attempts == e.attempts + Failures(ops)
  {
    EachMintFollowsItsOps(entries, actions, mint);
    AbandonedComesBack(mint, entries[mint], OpsAt(actions, mint));
  }

  // ---------- When a failed attempt is the last ----------

  /**
   A failed attempt of a pending entry leaves it pending exactly when it was not told to give up, the
   failures since its registration stay below the limit, and the hours of the window have not passed since;
   otherwise the entry is abandoned.
   */
  lemma {:induction false} LastFailureIff(mint: string, e: Option<Entry>, ops: seq<QueueOp>, limits: Limits, immediately: bool, now: int)
    requires IsPending(Run(mint, e, ops)) && Rebirth(mint, e, ops).Some?
    ensures var r := Rebirth(mint, e, ops).value;
            var after := Run(mint, e, ops + [Fail(limits, immediately, now)]);
            && after.Some?
            && (IsPending(after) <==>
                  && !immediately && Failures(ops[r + 1..]) + 1 < limits.maxAttempts
                  && (now - ops[r].now) as real < limits.abandonWindowHours * 3600000.0)
            && (!IsPending(after) ==> after.value.stage == Abandoned)
  {
    AttemptsAndAge(mint, e, ops);
    RunOfMore(mint, e, ops, Fail(limits, immediately, now));
  }

  // ---------- What an entry says ----------

  /** How a token was sold. */
  datatype Sold = Sold(tx: string, amountOutSol: Option<real>, departure: Option<Departure>)

  /** What an operation states, where it states it, and its moment, if it counts as an action on the entry. */
  datatype Said = Said(
    amount: Option<real>, usd: Option<real>, priced: Option<bool>, pool: Option<string>, position: Option<string>,
    moment: Option<int>, sold: Option<Sold>)

  const NOTHING := Said(None, None, None, None, None, None, None)

  function Named(address: string): Option<string> {
    if address == "" then None else Some(address)
  }

  function Positive(amount: real): Option<real> {
    if amount <= 0.0 then None else Some(amount)
  }

  /** A registration states what it has; live figures count while the entry is pending; a sale states how it went. */
  function Says(pending: bool, op: QueueOp): Said {
    match op
    case Register(q, now) =>
      Said(Positive(q.amount), q.usd, if q.usd.None? then q.priced else Some(true), Named(q.pool), Named(q.position), Some(now), None)
    case Revalue(amount, usd) =>
      if pending then NOTHING.(amount := Positive(amount), usd := usd, priced := if usd.None? then None else Some(true)) else NOTHING
    case Succeed(tx, out, departure, now) => NOTHING.(moment := Some(now), sold := Some(Sold(tx, out, Some(departure))))
    case Fail(_, _, now) => NOTHING.(moment := Some(now))
    case Discard(now) => NOTHING.(moment := Some(now))
    case Clear(_, _, _) => NOTHING
  }

  function Later<T>(last: Option<T>, before: Option<T>): Option<T> {
    if last.Some? then last else before
  }

  function LaterSaid(last: Said, before: Said): Said {
    Said(Later(last.amount, before.amount), Later(last.usd, before.usd), Later(last.priced, before.priced),
         Later(last.pool, before.pool), Later(last.position, before.position), Later(last.moment, before.moment),
         Later(last.sold, before.sold))
  }

  /** The last value stated for each field. */
  function LastSaid(mint: string, e: Option<Entry>, ops: seq<QueueOp>): Said {
    if ops == [] then NOTHING
    else
      var n := |ops| - 1;
      LaterSaid(Says(IsPending(Run(mint, e, ops[..n])), ops[n]), LastSaid(mint, e, ops[..n]))
  }

  /** The entry has the values said, and those it began with where nothing was said. */
  predicate Carries(x: Entry, began: Entry, said: Said) {
    && x.amount == said.amount.GetOr(began.amount) && x.usd == Later(said.usd, began.usd)
    && x.priced == said.priced.GetOr(began.priced)
    && x.pool == said.pool.GetOr(began.pool) && x.position == said.position.GetOr(began.position)
    && x.lastAttemptAt == said.moment.GetOr(began.lastAttemptAt)
    && Sold(x.tx, x.amountOutSol, x.departure) == said.sold.GetOr(Sold(began.tx, began.amountOutSol, began.departure))
  }

  predicate IsKept(mint: string, e: Option<Entry>, ops: seq<QueueOp>) {
    Run(mint, e, ops).Some? && (ops == [] || IsKept(mint, e, ops[..|ops| - 1]))
  }

  lemma StepCarries(mint: string, x: Entry, op: QueueOp)
    requires Step(mint, Some(x), op).Some?
    ensures Carries(Step(mint, Some(x), op).value, x, Says(x.stage == Pending, op))
  {
  }

  lemma CarriesLater(x: Entry, y: Entry, began: Entry, before: Said, last: Said)
    requires Carries(x, began, before) && Carries(y, x, last)
    ensures Carries(y, began, LaterSaid(last, before))
  {
  }

  /**
   While it is kept, an entry carries the last amount, price, pool and position that were stated, the moment of
   the last action on it and how it was last sold.
   */
  lemma {:induction false} CarriesWhatWasSaid(mint: string, began: Entry, ops: seq<QueueOp>)
    requires IsKept(mint, Some(began), ops)
    ensures Carries(Run(mint, Some(began), ops).value, began, LastSaid(mint, Some(began), ops))
  {
    if ops != [] {
      var n := |ops| - 1;
      CarriesWhatWasSaid(mint, began, ops[..n]);
      var x := Run(mint, Some(began), ops[..n]).value;
      StepCarries(mint, x, ops[n]);
      CarriesLater(x, Run(mint, Some(began), ops).value, began, LastSaid(mint, Some(began), ops[..n]), Says(x.stage == Pending, ops[n]));
    }
  }

  /** A registration that finds no entry begins one with exactly what it states. */
  lemma RegistrationBegins(mint: string, q: Request, now: int)
    ensures var x := Step(mint, None, Register(q, now));
            && x.Some? && x.value.amount == q.amount && x.value.usd == q.usd
            && x.value.priced == q.priced.GetOr(q.usd.Some?)
            && x.value.pool == q.pool && x.value.position == q.position
            && x.value.stage == q.stage && x.value.addedAt == now == x.value.lastAttemptAt && x.value.attempts == 0
  {
  }
}
