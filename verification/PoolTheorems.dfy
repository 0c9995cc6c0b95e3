/**
 What a close of a pool sets off, read off the closes of that pool alone: the pauses it calls for and the
 adjusted win rate.
 */
module PoolTheorems {
  import opened Money
  import opened Options
  import opened PoolMemory

  // ---------- Which closes call for a pause ----------

  /** A close with a known result that earned fees, in either currency, of at least the percentage. */
  predicate Earned(c: Close, minFeePct: real) {
    c.pnlPct.Some? && c.feePct >= minFeePct && (c.feesUsd > 0.0 || c.feesSol > 0.0)
  }

  /** The last `n` closes, with `n` at least one, all earned fees, and repeating is to be paused. */
  ghost predicate EarnsAgain(closes: seq<Close>, rules: Rules) {
    var n := if rules.repeatCount < 1 then 1 else rules.repeatCount;
    && rules.repeatEnabled && rules.repeatPause > 0
    && n <= |closes| && forall i :: |closes| - n <= i < |closes| ==> Earned(closes[i], rules.minFeePct)
  }

  /** The last closes, as many as configured, were all out of range; a count of zero means all, one below it all but the first. */
  ghost predicate OutAgain(closes: seq<Close>, rules: Rules) {
    var from := if rules.oorCount > 0 then |closes| - rules.oorCount else -rules.oorCount;
    && rules.oorCount <= |closes|
    && forall i :: 0 <= i && from <= i < |closes| ==> closes[i].outOfRange
  }

  lemma SliceAt(closes: seq<Close>, n: int)
    requires n <= |closes|
    ensures var from := if n > 0 then |closes| - n else if -n > |closes| then |closes| else -n;
            Slice(closes, n) == closes[from..]
  {
    assert closes[0..] == closes;
    assert closes[|closes|..] == [];
  }

  lemma EarnsAgainIff(closes: seq<Close>, rules: Rules)
    ensures RepeatedlyEarning(closes, rules) <==> EarnsAgain(closes, rules)
  {
    var n := if rules.repeatCount < 1 then 1 else rules.repeatCount;
    if n <= |closes| {
      SliceAt(closes, n);
      var recent := closes[|closes| - n..];
      assert forall i :: 0 <= i < |recent| ==> recent[i] == closes[|closes| - n + i];
      assert forall i :: |closes| - n <= i < |closes| ==> closes[i] == recent[i - (|closes| - n)];
    }
  }

  lemma OutAgainIff(closes: seq<Close>, rules: Rules)
    ensures RepeatedlyOutOfRange(closes, rules) <==> OutAgain(closes, rules)
  {
    var n := rules.oorCount;
    if n <= |closes| {
      SliceAt(closes, n);
      var from := if n > 0 then |closes| - n else if -n > |closes| then |closes| else -n;
      var recent := closes[from..];
      assert forall i :: 0 <= i < |recent| ==> recent[i] == closes[from + i];
      assert forall i :: from <= i < |closes| ==> closes[i] == recent[i - from];
    }
  }

  /** How long a close pauses its pool, going by the closes up to it and whether the pool has a token. */
  ghost predicate PausesPool(pause: Option<int>, closes: seq<Close>, hasToken: bool, rules: Rules)
    requires closes != []
  {
    var last := closes[|closes| - 1];
    if EarnsAgain(closes, rules) && !(rules.scope.TokenOnly? && hasToken) then pause == Some(rules.repeatPause)
    else if OutAgain(closes, rules) then pause == Some(rules.oorPause)
    else if last.stopLoss then pause == Some(if rules.repeatPause > 0 then rules.repeatPause else 0)
    else if last.lowYield then pause == Some(4 * 3600000)
    else pause.None?
  }

  /** How long it pauses the token. */
  ghost predicate PausesToken(pause: Option<int>, closes: seq<Close>, rules: Rules)
    requires closes != []
  {
    var last := closes[|closes| - 1];
    if EarnsAgain(closes, rules) && !rules.scope.PoolOnly? then pause == Some(rules.repeatPause)
    else if OutAgain(closes, rules) then pause == Some(rules.oorPause)
    else if last.stopLoss then pause == Some(if rules.repeatPause > 0 then rules.repeatPause else 0)
    else pause.None?
  }

  /**
   A close pauses its pool and its token by the closes of the pool up to it: first for fees earned again
   and again, as far as the scope goes, then for going out of range again and again, for a stop loss, and the
   pool alone for four hours for low yield.
   */
  lemma {:induction false} ClosesSetThePauses(earlier: seq<Event>, ev: Event)
    requires ClosesIn(ev, ev.pool)
    ensures var closes := ClosesOf(earlier, ev.pool) + [ev.close];
            && closes == ClosesOf(earlier + [ev], ev.pool)
            && PausesPool(LastPoolPause(earlier + [ev]), closes, MintOf(earlier + [ev], ev.pool) != "", ev.rules)
            && PausesToken(LastTokenPause(earlier + [ev]), closes, ev.rules)
  {
    var closes := ClosesOf(earlier, ev.pool) + [ev.close];
    OwnHistory(earlier, ev);
    EarnsAgainIff(closes, ev.rules);
    OutAgainIff(closes, ev.rules);
  }

  // ---------- The adjusted win rate ----------

  /** A close that counts for the adjusted win rate. */
  predicate IsCounted(c: Close) {
    c.pnlPct.Some? && !c.excluded
  }

  function CountedCloses(closes: seq<Close>): nat {
    if closes == [] then 0
    else CountedCloses(closes[..|closes| - 1]) + if IsCounted(closes[|closes| - 1]) then 1 else 0
  }

  /** Of those, the ones that did not lose. */
  function CountedWins(closes: seq<Close>): nat {
    if closes == [] then 0
    else
      var c := closes[|closes| - 1];
      CountedWins(closes[..|closes| - 1]) + if IsCounted(c) && c.pnlPct.value >= 0.0 then 1 else 0
  }

  lemma {:induction false} AdjustedBoth(a: seq<Close>, b: seq<Close>)
    ensures Adjusted(a + b) == Adjusted(a) + Adjusted(b)
    decreases |a|
  {
    if a == [] {
      assert a + b == b;
    } else {
      assert (a + b)[1..] == a[1..] + b;
      AdjustedBoth(a[1..], b);
    }
  }

  lemma {:induction false} WinsBoth(a: seq<Close>, b: seq<Close>)
    ensures Wins(a + b) == Wins(a) + Wins(b)
    decreases |a|
  {
    if a == [] {
      assert a + b == b;
    } else {
      assert (a + b)[1..] == a[1..] + b;
      WinsBoth(a[1..], b);
    }
  }

  lemma {:induction false} AdjustedAreCounted(closes: seq<Close>)
    ensures |Adjusted(WithPnl(closes))| == CountedCloses(closes) && Wins(Adjusted(WithPnl(closes))) == CountedWins(closes)
  {
    if closes != [] {
      var n := |closes| - 1;
      var c := closes[n];
      AdjustedAreCounted(closes[..n]);
      var last := if c.pnlPct.Some? then [c] else [];
      AdjustedBoth(WithPnl(closes[..n]), last);
      WinsBoth(Adjusted(WithPnl(closes[..n])), Adjusted(last));
      LastIsCounted(c, last);
    }
  }

  lemma LastIsCounted(c: Close, last: seq<Close>)
    requires last == if c.pnlPct.Some? then [c] else []
    ensures |Adjusted(last)| == (if IsCounted(c) then 1 else 0)
    ensures Wins(Adjusted(last)) == if IsCounted(c) && c.pnlPct.value >= 0.0 then 1 else 0
  {
    if last != [] { assert last[1..] == []; }
  }

  /** A share as a percentage, up to rounding. */
  predicate IsShare(rate: real, part: nat, whole: nat) {
    if whole == 0 then rate == 0.0 else -0.005 <= rate - 100.0 * (part as real / whole as real) <= 0.005
  }

  lemma RoundedShare(part: nat, whole: nat)
    requires whole > 0
    ensures IsShare(Round(part as real / whole as real * 10000.0) as real / 100.0, part, whole)
  {
    var share := part as real / whole as real;
    CentsIsClose(share * 100.0);
    assert share * 100.0 * 100.0 == share * 10000.0;
  }

  /** After any history the adjusted count and rate of a pool are those of its closes that count. */
  lemma {:induction false} AdjustedRateIsOfCountedCloses(events: seq<Event>, pool: string)
    requires pool in After(events)
    ensures var e, closes := After(events)[pool], ClosesOf(events, pool);
            e.adjustedCount == CountedCloses(closes) && IsShare(e.adjustedRate, CountedWins(closes), CountedCloses(closes))
  {
    MemoryIsTheHistory(events, pool);
    var known := WithPnl(ClosesOf(events, pool));
    AdjustedAreCounted(ClosesOf(events, pool));
    if Adjusted(known) != [] { RoundedShare(Wins(Adjusted(known)), |Adjusted(known)|); }
  }
}
