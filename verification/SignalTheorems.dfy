/**
 What a recalculation looks at, read off the records: the window and its outcomes, what counts as present,
 and which categories are compared.
 */
module SignalTheorems {
  import opened Options
  import opened SignalWeights

  // ---------- The window and its outcomes ----------

  predicate IsDated(t: Record, cutoff: int) {
    t.datedAt.Some? && cutoff <= t.datedAt.value
  }

  /** A record that lost; one without a result did not. */
  predicate IsLoss(t: Record) {
    t.pnlPct.Some? && t.pnlPct.value < 0.0
  }

  lemma HeadAndRest(trades: seq<Record>)
    requires trades != []
    ensures multiset(trades) == multiset{trades[0]} + multiset(trades[1..])
  {
    assert trades == [trades[0]] + trades[1..];
  }

  /** The window has every record dated at or after the cutoff as often as the list does, and no other. */
  lemma {:induction false} WindowHasTheDated(trades: seq<Record>, cutoff: int, t: Record)
    ensures multiset(Recent(trades, cutoff))[t] == if IsDated(t, cutoff) then multiset(trades)[t] else 0
  {
    if trades != [] {
      WindowHasTheDated(trades[1..], cutoff, t);
      HeadAndRest(trades);
    }
  }

  /** Wins and losses split the records. */
  lemma {:induction false} OutcomesSplit(trades: seq<Record>, t: Record)
    ensures multiset(Outcomes(trades, false))[t] == if IsLoss(t) then multiset(trades)[t] else 0
    ensures multiset(Outcomes(trades, true))[t] == if IsLoss(t) then 0 else multiset(trades)[t]
  {
    if trades != [] {
      OutcomesSplit(trades[1..], t);
      HeadAndRest(trades);
    }
  }

  /** A recalculation compares the wins of the window with its losses. */
  lemma WindowIsSplit(trades: seq<Record>, cutoff: int, t: Record)
    ensures multiset(Outcomes(Recent(trades, cutoff), true))[t] ==
            if IsDated(t, cutoff) && !IsLoss(t) then multiset(trades)[t] else 0
    ensures multiset(Outcomes(Recent(trades, cutoff), false))[t] ==
            if IsDated(t, cutoff) && IsLoss(t) then multiset(trades)[t] else 0
  {
    WindowHasTheDated(trades, cutoff, t);
    OutcomesSplit(Recent(trades, cutoff), t);
  }

  /** The range of a number runs between two values that were read. */
  lemma {:induction false} ExtremesWereRead(vs: seq<real>)
    requires vs != []
    ensures Smallest(vs) in vs && Largest(vs) in vs
  {
    if |vs| > 1 {
      ExtremesWereRead(vs[1..]);
      assert vs == [vs[0]] + vs[1..];
    }
  }

  // ---------- What counts as present ----------

  lemma PresentIff(e: Entry, signal: Signal)
    ensures Says(e, signal, false) <==>
            signal in e.trade.signals && e.trade.signals[signal] in {Number(0.0), Flag(false), Label("")}
    ensures Says(e, signal, true) <==> signal in e.trade.signals && !Says(e, signal, false)
  {
  }

  // ---------- Which categories are compared ----------

  ghost predicate SeenOnce(entries: seq<Entry>, signal: Signal, text: real -> string, key: string) {
    exists i :: 0 <= i < |entries| && IsIn(entries[i], signal, text, key)
  }

  ghost predicate SeenTwice(entries: seq<Entry>, signal: Signal, text: real -> string, key: string) {
    exists i, j :: 0 <= i < j < |entries| && IsIn(entries[i], signal, text, key) && IsIn(entries[j], signal, text, key)
  }

  lemma {:induction false} BucketCounts(entries: seq<Entry>, signal: Signal, text: real -> string, key: string)
    ensures BucketOf(entries, signal, text, key).total >= 1 <==> SeenOnce(entries, signal, text, key)
    ensures BucketOf(entries, signal, text, key).total >= 2 <==> SeenTwice(entries, signal, text, key)
  {
    if entries != [] {
      BucketCounts(entries[..|entries| - 1], signal, text, key);
      SeenOnceIff(entries, signal, text, key);
      if SeenTwice(entries, signal, text, key) {
        SeenTwiceAfter(entries, signal, text, key);
      } else if BucketOf(entries, signal, text, key).total >= 2 {
        SeenTwiceBefore(entries, signal, text, key);
      }
    }
  }

  lemma SeenOnceIff(entries: seq<Entry>, signal: Signal, text: real -> string, key: string)
    requires entries != []
    ensures SeenOnce(entries, signal, text, key) <==>
            SeenOnce(entries[..|entries| - 1], signal, text, key) || IsIn(entries[|entries| - 1], signal, text, key)
  {
    var n := |entries| - 1;
    var first := entries[..n];
    if SeenOnce(first, signal, text, key) {
      var i :| 0 <= i < n && IsIn(first[i], signal, text, key);
      assert IsIn(entries[i], signal, text, key);
    }
    if SeenOnce(entries, signal, text, key) {
      var i :| 0 <= i < |entries| && IsIn(entries[i], signal, text, key);
      assert i < n ==> IsIn(first[i], signal, text, key);
    }
  }

  lemma SeenTwiceBefore(entries: seq<Entry>, signal: Signal, text: real -> string, key: string)
    requires entries != []
    requires || SeenTwice(entries[..|entries| - 1], signal, text, key)
             || (IsIn(entries[|entries| - 1], signal, text, key) && SeenOnce(entries[..|entries| - 1], signal, text, key))
    ensures SeenTwice(entries, signal, text, key)
  {
    var n := |entries| - 1;
    var first := entries[..n];
    if SeenTwice(first, signal, text, key) {
      var i, j :| 0 <= i < j < n && IsIn(first[i], signal, text, key) && IsIn(first[j], signal, text, key);
      assert IsIn(entries[i], signal, text, key) && IsIn(entries[j], signal, text, key);
    } else {
      var i :| 0 <= i < n && IsIn(first[i], signal, text, key);
      assert IsIn(entries[i], signal, text, key) && IsIn(entries[n], signal, text, key);
    }
  }

  lemma SeenTwiceAfter(entries: seq<Entry>, signal: Signal, text: real -> string, key: string)
    requires entries != [] && SeenTwice(entries, signal, text, key)
    ensures || SeenTwice(entries[..|entries| - 1], signal, text, key)
            || (IsIn(entries[|entries| - 1], signal, text, key) && SeenOnce(entries[..|entries| - 1], signal, text, key))
  {
    var n := |entries| - 1;
    var first := entries[..n];
    var i, j :| 0 <= i < j < |entries| && IsIn(entries[i], signal, text, key) && IsIn(entries[j], signal, text, key);
    assert IsIn(first[i], signal, text, key);
    if j < n { assert IsIn(first[j], signal, text, key); }
  }

  /** Exactly the categories that two entries have are compared. */
  lemma ComparedAreSeenTwice(buckets: map<string, Bucket>, entries: seq<Entry>, signal: Signal, text: real -> string, key: string)
    requires AreBuckets(buckets, entries, signal, text)
    ensures key in FrequentKeys(buckets) <==> SeenTwice(entries, signal, text, key)
  {
    BucketCounts(entries, signal, text, key);
    if SeenTwice(entries, signal, text, key) {
      var i :| 0 <= i < |entries| && IsIn(entries[i], signal, text, key);
    }
  }

  // ---------- Lifts in terms of the wins and the losses ----------

  /** How many of the records say so. */
  function Sayers(trades: seq<Record>, signal: Signal, present: bool): nat {
    if trades == [] then 0
    else
      var t := trades[|trades| - 1];
      Sayers(trades[..|trades| - 1], signal, present)
      + if signal in t.signals && (t.signals[signal] in {Number(0.0), Flag(false), Label("")}) != present then 1 else 0
  }

  /** How many of the records are in the category. */
  function Members(trades: seq<Record>, signal: Signal, text: real -> string, key: string): nat {
    if trades == [] then 0
    else
      var t := trades[|trades| - 1];
      Members(trades[..|trades| - 1], signal, text, key)
      + if signal in t.signals && Category(t.signals[signal], text) == key then 1 else 0
  }

  lemma EntriesOfMore(wins: seq<Record>, losses: seq<Record>)
    ensures losses != [] ==> Entries(wins, losses) == Entries(wins, losses[..|losses| - 1]) + [Entry(false, losses[|losses| - 1])]
    ensures losses == [] && wins != [] ==> Entries(wins, losses) == Entries(wins[..|wins| - 1], losses) + [Entry(true, wins[|wins| - 1])]
    ensures losses == [] && wins == [] ==> Entries(wins, losses) == []
  {
  }

  lemma CountedOfMore(entries: seq<Entry>, e: Entry, signal: Signal, present: bool)
    ensures Counted(entries + [e], signal, present) == Counted(entries, signal, present) + if Says(e, signal, present) then 1 else 0
    ensures CountedWins(entries + [e], signal, present)
         == CountedWins(entries, signal, present) + if Says(e, signal, present) && e.won then 1 else 0
  {
    assert (entries + [e])[..|entries|] == entries;
  }

  lemma {:induction false} CountedAreSayers(wins: seq<Record>, losses: seq<Record>, signal: Signal, present: bool)
    ensures Counted(Entries(wins, losses), signal, present) == Sayers(wins, signal, present) + Sayers(losses, signal, present)
    ensures CountedWins(Entries(wins, losses), signal, present) == Sayers(wins, signal, present)
    decreases |wins| + |losses|
  {
    EntriesOfMore(wins, losses);
    if losses != [] {
      var n := |losses| - 1;
      CountedAreSayers(wins, losses[..n], signal, present);
      CountedOfMore(Entries(wins, losses[..n]), Entry(false, losses[n]), signal, present);
      PresentIff(Entry(false, losses[n]), signal);
    } else if wins != [] {
      var n := |wins| - 1;
      CountedAreSayers(wins[..n], losses, signal, present);
      CountedOfMore(Entries(wins[..n], losses), Entry(true, wins[n]), signal, present);
      PresentIff(Entry(true, wins[n]), signal);
    }
  }

  /** The lift of a flag is the share of wins among the records with it less that among those without it. */
  lemma FlagLiftIsOfShares(wins: seq<Record>, losses: seq<Record>, signal: Signal, minSamples: int, lift: Option<real>)
    requires IsBooleanLift(Entries(wins, losses), signal, minSamples, lift)
    ensures var with, without := Sayers(wins, signal, true) + Sayers(losses, signal, true),
                                 Sayers(wins, signal, false) + Sayers(losses, signal, false);
            && (lift.Some? <==> with > 0 && without > 0 && with + without >= minSamples)
            && (lift.Some? ==>
                  lift.value == Sayers(wins, signal, true) as real / with as real - Sayers(wins, signal, false) as real / without as real)
  {
    CountedAreSayers(wins, losses, signal, true);
    CountedAreSayers(wins, losses, signal, false);
  }

  lemma BucketOfMore(entries: seq<Entry>, e: Entry, signal: Signal, text: real -> string, key: string)
    ensures BucketOf(entries + [e], signal, text, key)
         == (var b := BucketOf(entries, signal, text, key);
             if IsIn(e, signal, text, key) then Bucket(b.wins + if e.won then 1 else 0, b.total + 1) else b)
  {
    assert (entries + [e])[..|entries|] == entries;
  }

  /** A category holds its members among wins and losses, and its wins are those among the wins. */
  lemma {:induction false} BucketsHoldMembers(wins: seq<Record>, losses: seq<Record>, signal: Signal, text: real -> string, key: string)
    ensures BucketOf(Entries(wins, losses), signal, text, key)
         == Bucket(Members(wins, signal, text, key), Members(wins, signal, text, key) + Members(losses, signal, text, key))
    decreases |wins| + |losses|
  {
    EntriesOfMore(wins, losses);
    if losses != [] {
      var n := |losses| - 1;
      BucketsHoldMembers(wins, losses[..n], signal, text, key);
      BucketOfMore(Entries(wins, losses[..n]), Entry(false, losses[n]), signal, text, key);
    } else if wins != [] {
      var n := |wins| - 1;
      BucketsHoldMembers(wins[..n], losses, signal, text, key);
      BucketOfMore(Entries(wins[..n], losses), Entry(true, wins[n]), signal, text, key);
    }
  }

  /** The history keeps its last twenty entries, the newest at the end. */
  lemma NewestAreLast(history: seq<seq<Change>>)
    ensures |Newest(history)| == if |history| < 20 then |history| else 20
    ensures Newest(history) == history[|history| - |Newest(history)|..]
  {
  }
}
