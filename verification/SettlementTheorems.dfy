/**
 Which closes are booked, which trades a settlement, a write-down or a revaluation changes and by how much,
 and what the summary adds up, in terms of the figures of the reports and trades alone.
 */
module SettlementTheorems {
  import opened Money
  import opened Ledger
  import opened LedgerTheorems
  import opened Options

  predicate Within(x: real, y: real, slack: real) {
    -slack <= x - y <= slack
  }

  // ---------- Which closes are booked ----------

  /** The same letter in either case, or the same other character. */
  predicate IsLetter(c: char, small: char) {
    if 'A' <= c <= 'Z' then small as int - 'a' as int == c as int - 'A' as int else c == small
  }

  predicate SaysAt(text: string, phrase: string, i: nat) {
    i + |phrase| <= |text| && forall k :: 0 <= k < |phrase| ==> IsLetter(text[i + k], phrase[k])
  }

  ghost predicate Says(text: string, phrase: string) {
    exists i: nat :: SaysAt(text, phrase, i)
  }

  lemma {:induction false} MentionsIffSays(text: string, phrase: string)
    ensures Mentions(text, phrase) <==> Says(text, phrase)
    decreases |text|
  {
    assert SaysAt(text, phrase, 0) <==> |phrase| <= |text| && forall k :: 0 <= k < |phrase| ==> Lower(text[k]) == phrase[k];
    if text != [] {
      MentionsIffSays(text[1..], phrase);
      forall i: nat ensures SaysAt(text[1..], phrase, i) <==> SaysAt(text, phrase, i + 1) { SaysLater(text, phrase, i); }
      if Says(text, phrase) && !SaysAt(text, phrase, 0) {
        var i: nat :| SaysAt(text, phrase, i);
        assert SaysAt(text[1..], phrase, i - 1);
      }
    }
  }

  lemma SaysLater(text: string, phrase: string, i: nat)
    requires text != []
    ensures SaysAt(text[1..], phrase, i) <==> SaysAt(text, phrase, i + 1)
  {
    if i + 1 + |phrase| <= |text| {
      assert forall j :: 0 <= j < |text| - 1 ==> text[1..][j] == text[j + 1];
    }
  }

  lemma ProductIsPositive(x: real, y: real)
    requires x > 0.0 && y > 0.0
    ensures x * y > 0.0
  {
  }

  /** A share at or below minus nine tenths loses at least nine tenths of the whole. */
  lemma ShareIsLost(share: real, whole: real, gain: real)
    requires whole > 0.0 && gain == share * whole
    ensures share <= -0.9 <==> gain <= -0.9 * whole
  {
    var over := share + 0.9;
    assert over * whole == gain + 0.9 * whole;
    if over > 0.0 { ProductIsPositive(over, whole); } else { ProductIsNonNegative(-over, whole); }
  }

  lemma LostNineTenths(value: real, initial: real)
    requires initial > 0.0
    ensures Percent(value - initial, initial) <= -90.0 <==> 10.0 * value <= initial
  {
    var share := (value - initial) / initial;
    assert share * initial == value - initial;
    ShareIsLost(share, initial, value - initial);
  }

  /**
   A close is dropped exactly when it claims to be settled, at least twenty dollars went in, and its value is
   that of at most two dollars a SOL for a quarter of a SOL or more, or with its fees at most a tenth of
   what went in without any mention of a stop loss.
   */
  lemma DroppedIff(r: CloseReport)
    ensures Rejected(r) <==>
            && (r.status.None? || r.status.value == Realized) && r.initialUsd >= 20.0
            && (|| (r.amountSol >= 0.25 && 0.0 < r.finalUsd && r.finalUsd <= 2.0 * r.amountSol)
                || (10.0 * (r.finalUsd + r.feesUsd) <= r.initialUsd && !Says(r.closeReason, "stop loss")))
  {
    MentionsIffSays(r.closeReason, "stop loss");
    if r.initialUsd >= 20.0 {
      LostNineTenths(r.finalUsd + r.feesUsd, r.initialUsd);
      assert r.finalUsd + r.feesUsd - r.initialUsd == r.finalUsd - r.initialUsd + r.feesUsd;
    }
  }

  /** A trade as its close reported it; a settled one is in cash unless the report says otherwise, a waiting one not at all. */
  ghost predicate IsAsReported(t: Trade, r: CloseReport, now: int) {
    var settled := r.status.None? || r.status.value == Realized;
    && t.position == r.position && t.pool == r.pool && t.baseMint == r.baseMint
    && t.liquidationMint == (if r.liquidationMint == "" then r.baseMint else r.liquidationMint)
    && t.status == (if settled then Realized else r.status.value)
    && t.amountSol == r.amountSol && t.initialUsd == r.initialUsd && t.finalUsd == r.finalUsd
    && t.feesUsd == r.feesUsd && t.feesSol == r.feesSol && t.closeReason == r.closeReason
    && (if r.cashUsd.Some? then t.cashUsd == r.cashUsd.value else t.cashUsd == if settled then r.finalUsd else 0.0)
    && (if r.cashSol.Some? then t.cashSol == r.cashSol.value else t.cashSol == if settled then r.amountSol else 0.0)
    && (if r.residualUsd.Some? then t.residualUsd == r.residualUsd.value else t.residualUsd == 0.0)
    && (if r.residualTokens.Some? then t.residualTokens == r.residualTokens.value else t.residualTokens == 0.0)
    && t.recordedAt == now && t.settledAt.None? && FiguresAgree(t)
  }

  /** A close that is not dropped is booked last, as it was reported. */
  lemma CloseIsBookedAsReported(s: Books, r: CloseReport, now: int)
    ensures var after := Book(s, r, now).trades;
            if Rejected(r) then after == s.trades
            else after != [] && after[..|after| - 1] == s.trades && IsAsReported(after[|after| - 1], r, now)
  {
    if !Rejected(r) { WithPnlAgrees(Booked(r, now)); }
  }

  // ---------- Which trades are closed ----------

  /** A pending trade of the named position. */
  predicate IsOf(t: Trade, position: string) {
    position != "" && t.status == ClosedPendingSwap && t.position == position
  }

  /** A pending trade whose tokens are of the mint. */
  predicate WaitsFor(t: Trade, mint: string) {
    mint != "" && t.status == ClosedPendingSwap && (t.liquidationMint == mint || t.baseMint == mint)
  }

  ghost predicate IsNamed(trades: seq<Trade>, position: string) {
    exists i :: 0 <= i < |trades| && IsOf(trades[i], position)
  }

  /** The trade that a closing means first: the first of the named position, or else of the mint. */
  ghost predicate IsFirst(trades: seq<Trade>, mint: string, position: string, i: nat) {
    && i < |trades|
    && if IsNamed(trades, position) then IsOf(trades[i], position) && forall j :: 0 <= j < i ==> !IsOf(trades[j], position)
       else WaitsFor(trades[i], mint) && forall j :: 0 <= j < i ==> !WaitsFor(trades[j], mint)
  }

  /** A later trade of the mint, closed along with the first when no position is singled out. */
  ghost predicate IsSibling(trades: seq<Trade>, mint: string, position: string, i: nat) {
    && i < |trades| && !IsNamed(trades, position) && WaitsFor(trades[i], mint)
    && exists j :: 0 <= j < i && WaitsFor(trades[j], mint)
  }

  lemma FirstPendingIs(trades: seq<Trade>, position: string)
    ensures var i := FirstPendingOf(trades, position, 0);
            && (position != "" && i < |trades| <==> IsNamed(trades, position))
            && (IsNamed(trades, position) ==> IsOf(trades[i], position) && forall j :: 0 <= j < i ==> !IsOf(trades[j], position))
  {
  }

  /** The indices of all trades waiting for the mint, in ascending order. */
  ghost predicate AreWaiting(targets: seq<nat>, trades: seq<Trade>, mint: string) {
    && InRange(targets, |trades|) && Ascending(targets)
    && (forall k :: 0 <= k < |targets| ==> WaitsFor(trades[targets[k]], mint))
    && (forall i: nat :: i < |trades| && WaitsFor(trades[i], mint) ==> i in targets)
  }

  lemma WhereAreWaiting(trades: seq<Trade>, mint: string)
    ensures AreWaiting(Where(trades, AwaitingSaleOf(mint), 0), trades, mint)
  {
    var targets := Where(trades, AwaitingSaleOf(mint), 0);
    WhereIsWanted(trades, AwaitingSaleOf(mint), 0);
    forall i: nat | i < |trades| && WaitsFor(trades[i], mint) ensures i in targets {
      WhereFindsAll(trades, AwaitingSaleOf(mint), 0, i);
    }
  }

  /** How a list of targets relates to the trades meant. */
  ghost predicate Meant(targets: seq<nat>, trades: seq<Trade>, mint: string, position: string, i: nat) {
    && (IsFirst(trades, mint, position, i) <==> targets != [] && targets[0] == i)
    && (IsSibling(trades, mint, position, i) <==> targets != [] && targets[0] != i && i in targets)
  }

  lemma NothingBeforeFirst(targets: seq<nat>)
    requires targets != [] && Ascending(targets)
    ensures forall j: nat :: j < targets[0] ==> j !in targets
  {
    forall j: nat | j in targets ensures targets[0] <= j {
      var m :| 0 <= m < |targets| && targets[m] == j;
      assert m == 0 || targets[0] < targets[m];
    }
  }

  lemma WaitingAreMeant(targets: seq<nat>, trades: seq<Trade>, mint: string, position: string, i: nat)
    requires !IsNamed(trades, position) && AreWaiting(targets, trades, mint) && i < |trades|
    ensures Meant(targets, trades, mint, position, i)
  {
    if i in targets {
      var k :| 0 <= k < |targets| && targets[k] == i;
      if k > 0 { assert targets[0] < i && WaitsFor(trades[targets[0]], mint); } else { NothingBeforeFirst(targets); }
    }
  }

  lemma TargetsAreMeant(trades: seq<Trade>, mint: string, position: string, i: nat)
    requires i < |trades|
    ensures Meant(Targets(trades, mint, position), trades, mint, position, i)
  {
    FirstPendingIs(trades, position);
    if IsNamed(trades, position) {
      var first := FirstPendingOf(trades, position, 0);
      assert Targets(trades, mint, position) == [first];
      if i != first {
        assert i < first ==> !IsOf(trades[i], position);
        assert i > first ==> IsOf(trades[first], position);
      }
    } else {
      WhereAreWaiting(trades, mint);
      WaitingAreMeant(Targets(trades, mint, position), trades, mint, position, i);
    }
  }

  /** What becomes of trade `i` when a mint's trades are closed. */
  lemma ClosedAsMeant(s: Books, mint: string, position: string, c: Closing, i: nat)
    requires i < |s.trades|
    ensures var after := CloseMint(s, mint, position, c).trades;
            && |after| == |s.trades|
            && after[i] == if IsFirst(s.trades, mint, position, i) then ClosedOut(s.trades[i], c, true)
                           else if IsSibling(s.trades, mint, position, i) then ClosedOut(s.trades[i], c, false)
                           else s.trades[i]
  {
    var targets := Targets(s.trades, mint, position);
    TargetsArePending(s.trades, mint, position);
    TargetsAreMeant(s.trades, mint, position, i);
    CloseAllPointwise(s, targets, c, true);
    if i in targets {
      var k :| 0 <= k < |targets| && targets[k] == i;
      assert k > 0 ==> targets[0] < targets[k];
    }
  }

  // ---------- What a sale pays ----------

  /** The value of the SOL a sale brought: at the given price, else in proportion to the entry, else at 150 dollars. */
  predicate IsValueOf(value: real, t: Trade, sol: real, given: Option<real>) {
    if given.Some? && given.value != 0.0 then value == sol * given.value
    else if t.amountSol > 0.0 && t.initialUsd > 0.0 then value * t.amountSol == sol * t.initialUsd
    else value == sol * 150.0
  }

  /** That value was booked, to half a cent. */
  ghost predicate IsPaid(booked: real, t: Trade, sol: real, given: Option<real>) {
    exists value :: IsValueOf(value, t, sol, given) && Within(booked, value, 0.005)
  }

  /** A settled trade is worth its cash, has nothing left to sell and is otherwise the same. */
  ghost predicate IsSettled(t: Trade, after: Trade, at: int, tx: string) {
    && after.status == Realized && after.settledAt == Some(at) && after.liquidationTx == tx
    && after.finalUsd == after.cashUsd && after.residualUsd == 0.0 && after.residualTokens == 0.0
    && SameTrade(t, after)
  }

  /** The unsold value that a settlement without proceeds turns into cash. */
  function Unsold(t: Trade): real {
    if t.residualUsd > 0.0 then t.residualUsd else 0.0
  }

  lemma DividedBack(x: real, y: real)
    requires y > 0.0
    ensures x / y * y == x
  {
  }

  lemma InProportion(sol: real, x: real, y: real, price: real)
    requires y > 0.0 && price * y == x
    ensures sol * price * y == sol * x
  {
    assert sol * price * y == sol * (price * y);
  }

  lemma PriceGivesValue(t: Trade, sol: real, given: Option<real>)
    ensures IsValueOf(Proceeds(sol, SolPrice(t, given)), t, sol, given)
  {
    if (given.None? || given.value == 0.0) && t.amountSol > 0.0 && t.initialUsd > 0.0 {
      DividedBack(t.initialUsd, t.amountSol);
      InProportion(sol, t.initialUsd, t.amountSol, t.initialUsd / t.amountSol);
    }
  }

  lemma PaidAtPrice(cash: real, after: real, kept: real, sol: real, t: Trade, given: Option<real>)
    requires Within(after, cash + Proceeds(sol, SolPrice(t, given)) + kept, 0.005)
    ensures IsPaid(after - cash - kept, t, sol, given)
  {
    PriceGivesValue(t, sol, given);
    assert Within(after - cash - kept, Proceeds(sol, SolPrice(t, given)), 0.005);
  }

  lemma FirstIsPaid(t: Trade, sale: Closing)
    requires sale.Sale?
    ensures var after := ClosedOut(t, sale, true);
            var kept := if sale.amountOutSol > 0.000001 then 0.0 else Unsold(t);
            && IsPaid(after.cashUsd - t.cashUsd - kept, t, sale.amountOutSol, sale.solPrice)
            && IsSettled(t, after, sale.at, if sale.tx != "" then sale.tx else t.liquidationTx)
            && (sale.amountOutSol > 0.000001 ==> Within(after.cashSol - t.cashSol, sale.amountOutSol, 0.00005))
  {
    SoldCash(t, sale, true);
    var kept := if sale.amountOutSol > 0.000001 then 0.0 else Unsold(t);
    PaidAtPrice(t.cashUsd, ClosedOut(t, sale, true).cashUsd, kept, sale.amountOutSol, t, sale.solPrice);
  }

  lemma SiblingKeepsItsValue(t: Trade, sale: Closing)
    requires sale.Sale?
    ensures var after := ClosedOut(t, sale, false);
            && Within(after.cashUsd - t.cashUsd, Unsold(t), 0.005)
            && IsSettled(t, after, sale.at, t.liquidationTx)
  {
    SoldCash(t, sale, false);
    NoProceeds(SolPrice(t, sale.solPrice));
  }

  /**
   A settlement pays the first trade meant for the SOL it brought: at the given price; without one at the
   price of the entry, so that bringing back the SOL put in brings back the dollars put in; else at 150
   dollars. Only without proceeds does that trade keep its unsold value. The other trades meant turn theirs
   into cash, and every other trade stays as it was.
   */
  lemma SettlementPaysTheFirst(s: Books, mint: string, position: string, sale: Closing, i: nat)
    requires sale.Sale? && i < |s.trades|
    ensures |CloseMint(s, mint, position, sale).trades| == |s.trades|
    ensures var t, after := s.trades[i], CloseMint(s, mint, position, sale).trades[i];
            if IsFirst(s.trades, mint, position, i) then
              var kept := if sale.amountOutSol > 0.000001 then 0.0 else Unsold(t);
              && IsPaid(after.cashUsd - t.cashUsd - kept, t, sale.amountOutSol, sale.solPrice)
              && IsSettled(t, after, sale.at, if sale.tx != "" then sale.tx else t.liquidationTx)
              && (sale.amountOutSol > 0.000001 ==> Within(after.cashSol - t.cashSol, sale.amountOutSol, 0.00005))
            else if IsSibling(s.trades, mint, position, i) then
              && Within(after.cashUsd - t.cashUsd, Unsold(t), 0.005)
              && IsSettled(t, after, sale.at, t.liquidationTx)
            else after == t
  {
    ClosedAsMeant(s, mint, position, sale, i);
    FirstIsPaid(s.trades[i], sale);
    SiblingKeepsItsValue(s.trades[i], sale);
  }

  /** Without a price, the SOL that went in comes back as the dollars that went in. */
  lemma SolPutInReturnsDollarsPutIn(s: Books, mint: string, position: string, sale: Closing, i: nat)
    requires sale.Sale? && sale.solPrice.None? && i < |s.trades| && IsFirst(s.trades, mint, position, i)
    requires sale.amountOutSol == s.trades[i].amountSol > 0.000001 && s.trades[i].initialUsd > 0.0
    ensures |CloseMint(s, mint, position, sale).trades| == |s.trades|
    ensures Within(CloseMint(s, mint, position, sale).trades[i].cashUsd - s.trades[i].cashUsd, s.trades[i].initialUsd, 0.005)
  {
    SettlementPaysTheFirst(s, mint, position, sale, i);
    PaidBack(CloseMint(s, mint, position, sale).trades[i].cashUsd - s.trades[i].cashUsd - 0.0, s.trades[i]);
  }

  lemma SameProduct(x: real, y: real, factor: real)
    requires factor > 0.0 && x * factor == factor * y
    ensures x == y
  {
    assert x == x * factor / factor && y == factor * y / factor;
  }

  lemma ProportionalToItself(value: real, t: Trade)
    requires t.amountSol > 0.0 && t.initialUsd > 0.0 && IsValueOf(value, t, t.amountSol, None)
    ensures value == t.initialUsd
  {
    assert value * t.amountSol == t.amountSol * t.initialUsd;
    SameProduct(value, t.initialUsd, t.amountSol);
  }

  lemma PaidBack(booked: real, t: Trade)
    requires t.amountSol > 0.0 && t.initialUsd > 0.0 && IsPaid(booked, t, t.amountSol, None)
    ensures Within(booked, t.initialUsd, 0.005)
  {
    var value :| IsValueOf(value, t, t.amountSol, None) && Within(booked, value, 0.005);
    ProportionalToItself(value, t);
  }

  /** Abandoning a mint writes the trades meant down to their cash, and leaves every other as it was. */
  lemma AbandoningWritesDown(s: Books, mint: string, position: string, at: int, i: nat)
    requires i < |s.trades|
    ensures |CloseMint(s, mint, position, WriteDown(at)).trades| == |s.trades|
    ensures var t, after := s.trades[i], CloseMint(s, mint, position, WriteDown(at)).trades[i];
            if IsFirst(s.trades, mint, position, i) || IsSibling(s.trades, mint, position, i) then
              && after.status == AbandonedLoss && after.settledAt == Some(at)
              && after.cashUsd == t.cashUsd == after.finalUsd && after.cashSol == t.cashSol
              && after.residualUsd == 0.0 && after.residualTokens == 0.0 && SameTrade(t, after)
            else after == t
  {
    ClosedAsMeant(s, mint, position, WriteDown(at), i);
  }

  /** A reconciliation writes down exactly the pending trades whose mint is none of those still to be sold. */
  lemma ReconciliationWritesDown(s: Books, pendingMints: set<string>, at: int, i: nat)
    requires i < |s.trades|
    ensures |Reconciled(s, pendingMints, at).trades| == |s.trades|
    ensures var t, after := s.trades[i], Reconciled(s, pendingMints, at).trades[i];
            if t.status == ClosedPendingSwap && (MintToSell(t) == "" || MintToSell(t) !in pendingMints) then
              && after.status == AbandonedLoss && after.settledAt == Some(at)
              && after.cashUsd == t.cashUsd == after.finalUsd && after.cashSol == t.cashSol
              && after.residualUsd == 0.0 && after.residualTokens == 0.0 && SameTrade(t, after)
            else after == t
  {
    ReconciliationLeavesOnlyTracked(s, pendingMints, at);
    assert s.trades[i].Mint() == MintToSell(s.trades[i]);
  }

  // ---------- Marking to market ----------

  function MintToSell(t: Trade): string {
    if t.liquidationMint == "" then t.baseMint else t.liquidationMint
  }

  /** The amount still to sell: what the wallet shows of the mint, or what was last known of it. */
  ghost predicate IsUnsoldAmount(amount: real, t: Trade, balances: Option<seq<Token>>) {
    match balances
    case None => amount == t.residualTokens
    case Some(tokens) =>
      if exists j: nat :: IsFirstToken(tokens, MintToSell(t), j)
      then exists j: nat :: IsFirstToken(tokens, MintToSell(t), j) && amount == tokens[j].balance.GetOr(t.residualTokens)
      else amount == 0.0
  }

  /** A price is known for what the trade still has to sell. */
  predicate HasPrice(t: Trade, amount: real, prices: map<string, real>) {
    && t.status == ClosedPendingSwap && MintToSell(t) != "" && amount > 0.0
    && MintToSell(t) in prices && prices[MintToSell(t)] >= 0.0
  }

  /** The trade is worth its cash and the market value of the amount still to sell. */
  ghost predicate IsValued(t: Trade, after: Trade, amount: real, value: real) {
    && after.status == ClosedPendingSwap && after.residualTokens == amount && after.cashUsd == t.cashUsd
    && Within(after.residualUsd, value, 0.005)
    && Within(after.finalUsd, t.cashUsd + value, 0.01)
    && Within(after.netPnlUsd, t.cashUsd + value - t.initialUsd + t.feesUsd, 0.015)
    && after.pnlUsd == after.netPnlUsd && SameTrade(t, after)
  }

  /** A trade with a price is valued at it; of any other at most the amount still to sell is refreshed. */
  ghost predicate IsMarked(t: Trade, after: Trade, amount: real, prices: map<string, real>) {
    if HasPrice(t, amount, prices) then IsValued(t, after, amount, amount * prices[MintToSell(t)])
    else after == t || (t.status == ClosedPendingSwap && after == t.(residualTokens := amount))
  }

  lemma UnsoldIsLive(t: Trade, amount: real, balances: Option<seq<Token>>)
    requires IsUnsoldAmount(amount, t, balances)
    ensures amount == LiveAmount(t, balances)
  {
    assert t.Mint() == MintToSell(t);
    if balances.Some? {
      FindTokenIsFirst(balances.value, MintToSell(t));
      if FindToken(balances.value, MintToSell(t)).Some? { FindTokenIsThere(balances.value, MintToSell(t)); }
    }
  }

  lemma MarkedIsValued(t: Trade, amount: real, prices: map<string, real>, balances: Option<seq<Token>>)
    requires amount == LiveAmount(t, balances) && HasPrice(t, amount, prices)
    ensures IsValued(t, Marked(t, prices, balances), amount, amount * prices[MintToSell(t)])
  {
    var after := Marked(t, prices, balances);
    var value := amount * prices[MintToSell(t)];
    CentsIsClose(value);
    CentsIsClose(t.cashUsd + after.residualUsd);
    CentsIsClose(after.finalUsd - t.initialUsd + t.feesUsd);
  }

  lemma UnpricedStays(t: Trade, amount: real, prices: map<string, real>, balances: Option<seq<Token>>)
    requires amount == LiveAmount(t, balances) && !HasPrice(t, amount, prices)
    ensures var after := Marked(t, prices, balances);
            after == t || (t.status == ClosedPendingSwap && after == t.(residualTokens := amount))
  {
  }

  lemma MarkedOrNot(s: Books, prices: map<string, real>, balances: Option<seq<Token>>, i: nat)
    requires i < |s.trades|
    ensures var after := MarkedBooks(s, prices, balances).trades;
            && |after| == |s.trades|
            && (after[i] == s.trades[i] || after[i] == Marked(s.trades[i], prices, balances))
            && (Revalues(s.trades[i], prices, balances) ==> after[i] == Marked(s.trades[i], prices, balances))
  {
  }

  /** A trade counts as revalued exactly when it has a price. */
  lemma RevaluedIffPriced(t: Trade, amount: real, prices: map<string, real>, balances: Option<seq<Token>>)
    requires IsUnsoldAmount(amount, t, balances)
    ensures Revalues(t, prices, balances) <==> HasPrice(t, amount, prices)
  {
    UnsoldIsLive(t, amount, balances);
  }

  lemma ValuedOrNot(t: Trade, after: Trade, amount: real, prices: map<string, real>, balances: Option<seq<Token>>)
    requires IsUnsoldAmount(amount, t, balances) && (after == t || after == Marked(t, prices, balances))
    requires Revalues(t, prices, balances) ==> after == Marked(t, prices, balances)
    ensures IsMarked(t, after, amount, prices)
  {
    UnsoldIsLive(t, amount, balances);
    RevaluedIffPriced(t, amount, prices, balances);
    if HasPrice(t, amount, prices) {
      MarkedIsValued(t, amount, prices, balances);
    } else {
      UnpricedStays(t, amount, prices, balances);
    }
  }

  /**
   Marking to market values each pending trade with a price at its cash plus the amount still to sell at
   that price. No other trade changes, except that the amount of a pending one may be refreshed.
   */
  lemma MarkingValuesUnsoldTokens(s: Books, prices: map<string, real>, balances: Option<seq<Token>>, i: nat, amount: real)
    requires i < |s.trades| && IsUnsoldAmount(amount, s.trades[i], balances)
    ensures |MarkedBooks(s, prices, balances).trades| == |s.trades|
    ensures IsMarked(s.trades[i], MarkedBooks(s, prices, balances).trades[i], amount, prices)
  {
    MarkedOrNot(s, prices, balances, i);
    ValuedOrNot(s.trades[i], MarkedBooks(s, prices, balances).trades[i], amount, prices, balances);
  }

  // ---------- The summary ----------

  datatype Figure = NetProfit | CashProfit | UnsoldValue | PriceProfit | Fees | ProfitPct | PricePct

  function FigureOf(t: Trade, f: Figure): real {
    match f
    case NetProfit => t.netPnlUsd
    case CashProfit => t.cashUsd - t.initialUsd + t.feesUsd
    case UnsoldValue => if t.status == ClosedPendingSwap then t.residualUsd else 0.0
    case PriceProfit => t.pricePnlUsd
    case Fees => t.feesUsd
    case ProfitPct => t.pnlPct
    case PricePct => t.pricePnlPct
  }

  function SumOf(trades: seq<Trade>, f: Figure): real {
    if trades == [] then 0.0 else SumOf(trades[..|trades| - 1], f) + FigureOf(trades[|trades| - 1], f)
  }

  predicate IsWin(t: Trade) {
    t.status != ClosedPendingSwap && t.pnlPct >= 0.0
  }

  function WaitingCount(trades: seq<Trade>): nat {
    if trades == [] then 0
    else WaitingCount(trades[..|trades| - 1]) + if trades[|trades| - 1].status == ClosedPendingSwap then 1 else 0
  }

  function WinCount(trades: seq<Trade>): nat {
    if trades == [] then 0 else WinCount(trades[..|trades| - 1]) + if IsWin(trades[|trades| - 1]) then 1 else 0
  }

  lemma {:induction false} TotalsAreSums(trades: seq<Trade>)
    ensures var x := TotalsOf(trades);
            && x.net == SumOf(trades, NetProfit) && x.cash == SumOf(trades, CashProfit) && x.residual == SumOf(trades, UnsoldValue)
            && x.price == SumOf(trades, PriceProfit) && x.fees == SumOf(trades, Fees)
            && x.pct == SumOf(trades, ProfitPct) && x.pricePct == SumOf(trades, PricePct)
            && x.pending == WaitingCount(trades) && x.wins == WinCount(trades)
  {
    if trades != [] { TotalsAreSums(trades[..|trades| - 1]); }
  }

  /** A whole percentage, rounded; without anything to take it of it is zero. */
  predicate IsRate(pct: int, part: nat, whole: nat) {
    if whole == 0 then pct == 0 else Within(pct as real, 100.0 * (part as real / whole as real), 0.5)
  }

  lemma RateIsRounded(wins: nat, settled: nat)
    requires wins <= settled
    ensures IsRate(WinRatePct(wins, settled), wins, settled)
  {
    if settled > 0 {
      var exact := wins as real / settled as real * 100.0;
      assert exact == 100.0 * (wins as real / settled as real);
    }
  }

  /**
   The summary has the sums of the trades' own figures to half a cent, their average percentages over all
   trades, waiting ones included, and the win rate among the settled ones to half a percent.
   */
  lemma SummaryIsOfItsTrades(trades: seq<Trade>)
    requires trades != []
    ensures var x, n := Summarize(trades), |trades| as real;
            && x.closed == |trades| && x.pendingSwaps == WaitingCount(trades) && x.settled == |trades| - WaitingCount(trades)
            && Within(x.totalPnlUsd, SumOf(trades, NetProfit), 0.005)
            && Within(x.cashRealizedPnlUsd, SumOf(trades, CashProfit), 0.005)
            && Within(x.unrealizedResidualUsd, SumOf(trades, UnsoldValue), 0.005)
            && Within(x.totalPricePnlUsd, SumOf(trades, PriceProfit), 0.005)
            && Within(x.totalFeesUsd, SumOf(trades, Fees), 0.005)
            && Within(x.avgPnlPct, SumOf(trades, ProfitPct) / n, 0.005)
            && Within(x.avgPricePnlPct, SumOf(trades, PricePct) / n, 0.005)
            && IsRate(x.winRatePct, WinCount(trades), x.settled)
  {
    var x, n := TotalsOf(trades), |trades| as real;
    TotalsAreSums(trades);
    CentsIsClose(x.net);
    CentsIsClose(x.cash);
    CentsIsClose(x.residual);
    CentsIsClose(x.price);
    CentsIsClose(x.fees);
    CentsIsClose(x.pct / n);
    CentsIsClose(x.pricePct / n);
    RateIsRounded(x.wins, x.settled);
  }
}
