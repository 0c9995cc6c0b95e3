/**
 Signal weights that follow trade outcomes: the lift of each signal between wins and losses, the
 ranking by lift, and the boost and decay of the top and bottom quartile.
 */
module SignalWeights {
  import opened Money
  import opened Options

  datatype Signal =
    | OrganicScore | FeeTvlRatio | Volume | Mcap | HolderCount | SmartWalletsPresent | NarrativeQuality
    | StudyWinRate | HiveConsensus | Volatility | EntryMcap | EntryTvl | EntryVolume

  const SIGNALS: seq<Signal> := [
    OrganicScore, FeeTvlRatio, Volume, Mcap, HolderCount, SmartWalletsPresent, NarrativeQuality,
    StudyWinRate, HiveConsensus, Volatility, EntryMcap, EntryTvl, EntryVolume]

  const HIGHER_IS_BETTER: set<Signal> := {OrganicScore, FeeTvlRatio, Volume, HolderCount, StudyWinRate, HiveConsensus}

  datatype Value = Number(n: real) | Flag(b: bool) | Label(s: string)

  /** A trade with what the signals said at entry; `datedAt` is absent when the record has no date. */
  datatype Record = Record(pnlPct: Option<real>, datedAt: Option<int>, signals: map<Signal, Value>)

  datatype Rules = Rules(minSamples: int, boost: real, decay: real, floor: real, ceiling: real)

  // ---------- Numeric lift ----------

  function Sum(vs: seq<real>): real {
    if vs == [] then 0.0 else vs[0] + Sum(vs[1..])
  }

  function Mean(vs: seq<real>): real {
    if vs == [] then 0.0 else Sum(vs) / |vs| as real
  }

  predicate Within(vs: seq<real>, lo: real, hi: real) {
    forall i :: 0 <= i < |vs| ==> lo <= vs[i] <= hi
  }

  function Smallest(vs: seq<real>): (m: real)
    requires vs != []
    ensures forall i :: 0 <= i < |vs| ==> m <= vs[i]
  {
    if |vs| == 1 then vs[0] else Min(vs[0], Smallest(vs[1..]))
  }

  function Largest(vs: seq<real>): (m: real)
    requires vs != []
    ensures forall i :: 0 <= i < |vs| ==> vs[i] <= m
  {
    if |vs| == 1 then vs[0] else Max(vs[0], Largest(vs[1..]))
  }

  function Normalized(vs: seq<real>, min: real, range: real): (ns: seq<real>)
    requires range != 0.0
    ensures |ns| == |vs|
  {
    if vs == [] then [] else [(vs[0] - min) / range] + Normalized(vs[1..], min, range)
  }

  function ScaledDifference(winVals: seq<real>, lossVals: seq<real>, min: real, range: real): real
    requires range != 0.0
  {
    Mean(Normalized(winVals, min, range)) - Mean(Normalized(lossVals, min, range))
  }

  function LiftWithin(winVals: seq<real>, lossVals: seq<real>, min: real, max: real, higherIsBetter: bool): real {
    if max - min == 0.0 then 0.0
    else
      var difference := ScaledDifference(winVals, lossVals, min, max - min);
      if higherIsBetter || difference >= 0.0 then difference else -difference
  }

  function NumericLift(winVals: seq<real>, lossVals: seq<real>, higherIsBetter: bool, minSamples: int): Option<real> {
    if |winVals| + |lossVals| < minSamples || winVals == [] || lossVals == [] then None
    else
      var all := winVals + lossVals;
      Some(LiftWithin(winVals, lossVals, Smallest(all), Largest(all), higherIsBetter))
  }

  lemma {:induction false} NormalizedSum(vs: seq<real>, min: real, range: real)
    requires range != 0.0
    ensures Sum(Normalized(vs, min, range)) * range == Sum(vs) - |vs| as real * min
  {
    if vs != [] {
      NormalizedSum(vs[1..], min, range);
      var head := (vs[0] - min) / range;
      assert head * range == vs[0] - min;
      assert Normalized(vs, min, range)[1..] == Normalized(vs[1..], min, range);
    }
  }

  /** Normalising shifts and scales a mean as it does each value. */
  lemma NormalizedMean(vs: seq<real>, min: real, range: real)
    requires range != 0.0 && vs != []
    ensures Mean(Normalized(vs, min, range)) * range == Mean(vs) - min
  {
    NormalizedSum(vs, min, range);
    MeanTimesCount(Normalized(vs, min, range));
    MeanTimesCount(vs);
    ScaledMean(|vs| as real, Mean(Normalized(vs, min, range)), Mean(vs), min, range,
               Sum(Normalized(vs, min, range)), Sum(vs));
  }

  /** The same for the count, the two means and the two totals. */
  lemma ScaledMean(n: real, m: real, mean: real, min: real, range: real, total: real, sum: real)
    requires n > 0.0 && n * m == total && n * mean == sum && total * range == sum - n * min
    ensures m * range == mean - min
  {
    Regroup(n, m, range, total);
    Distribute(n, mean, min);
    CommonFactor(n, m * range, mean - min, total * range);
  }

  lemma MeanTimesCount(vs: seq<real>)
    requires vs != []
    ensures |vs| as real * Mean(vs) == Sum(vs)
  {
  }

  lemma Regroup(n: real, m: real, range: real, total: real)
    requires n * m == total
    ensures n * (m * range) == total * range
  {
  }

  lemma Distribute(n: real, x: real, y: real)
    ensures n * (x - y) == n * x - n * y
  {
  }

  lemma CommonFactor(n: real, x: real, y: real, z: real)
    requires n > 0.0 && n * x == z && n * y == z
    ensures x == y
  {
  }

  lemma {:induction false} SumBetween(vs: seq<real>, lo: real, hi: real)
    requires Within(vs, lo, hi)
    ensures |vs| as real * lo <= Sum(vs) <= |vs| as real * hi
  {
    if vs != [] { SumBetween(vs[1..], lo, hi); }
  }

  lemma MeanBetween(vs: seq<real>, lo: real, hi: real)
    requires vs != [] && Within(vs, lo, hi)
    ensures lo <= Mean(vs) <= hi
  {
    SumBetween(vs, lo, hi);
    MeanTimesCount(vs);
    SmallerFactor(|vs| as real, lo, Mean(vs));
    SmallerFactor(|vs| as real, Mean(vs), hi);
  }

  lemma SmallerFactor(n: real, x: real, y: real)
    requires n > 0.0 && n * x <= n * y
    ensures x <= y
  {
  }

  lemma SameSign(n: real, x: real)
    requires n > 0.0
    ensures x >= 0.0 <==> x * n >= 0.0
  {
  }

  lemma LargerProduct(n: real, x: real)
    requires n > 0.0 && x > 1.0
    ensures x * n > n
  {
    assert (x - 1.0) * n == x * n - n;
    assert (x - 1.0) * n > 0.0;
  }

  lemma AtMostOne(n: real, x: real, product: real)
    requires n > 0.0 && x * n == product && product <= n
    ensures x <= 1.0
  {
    if x > 1.0 { LargerProduct(n, x); }
  }

  lemma Negated(x: real, n: real, product: real)
    requires x * n == product
    ensures (-x) * n == -product
  {
  }

  /** The lift is the difference in units of the range, or its magnitude for a signal without a direction. */
  predicate IsScaled(lift: real, range: real, difference: real, higherIsBetter: bool) {
    && -1.0 <= lift <= 1.0
    && lift * range == if higherIsBetter || difference >= 0.0 then difference else -difference
  }

  lemma DirectedLift(scaled: real, range: real, difference: real, higherIsBetter: bool)
    requires range > 0.0 && scaled * range == difference && -range <= difference <= range
    ensures IsScaled(if higherIsBetter || scaled >= 0.0 then scaled else -scaled, range, difference, higherIsBetter)
  {
    AtMostOne(range, scaled, difference);
    Negated(scaled, range, difference);
    AtMostOne(range, -scaled, -difference);
    SameSign(range, scaled);
  }

  lemma ScaledDifferences(a: real, b: real, x: real, y: real, min: real, range: real)
    requires a * range == x - min && b * range == y - min
    ensures (a - b) * range == x - y
  {
    Distribute(range, a, b);
  }

  /** Both groups lie in the range of all values. */
  lemma GroupsAreInRange(winVals: seq<real>, lossVals: seq<real>)
    requires winVals != [] && lossVals != []
    ensures var all := winVals + lossVals;
            Within(winVals, Smallest(all), Largest(all)) && Within(lossVals, Smallest(all), Largest(all))
  {
    var all := winVals + lossVals;
    forall i | 0 <= i < |winVals| ensures winVals[i] == all[i] {}
    forall i | 0 <= i < |lossVals| ensures lossVals[i] == all[|winVals| + i] {}
  }

  lemma DifferenceIsScaled(winVals: seq<real>, lossVals: seq<real>, min: real, range: real)
    requires winVals != [] && lossVals != [] && range != 0.0
    ensures ScaledDifference(winVals, lossVals, min, range) * range == Mean(winVals) - Mean(lossVals)
  {
    var a, b := Mean(Normalized(winVals, min, range)), Mean(Normalized(lossVals, min, range));
    NormalizedMean(winVals, min, range);
    NormalizedMean(lossVals, min, range);
    ScaledDifferences(a, b, Mean(winVals), Mean(lossVals), min, range);
  }

  lemma LiftWithinIsScaled(winVals: seq<real>, lossVals: seq<real>, min: real, max: real, higherIsBetter: bool)
    requires winVals != [] && lossVals != [] && Within(winVals, min, max) && Within(lossVals, min, max)
    ensures IsScaled(LiftWithin(winVals, lossVals, min, max, higherIsBetter), max - min, Mean(winVals) - Mean(lossVals), higherIsBetter)
  {
    MeanBetween(winVals, min, max);
    MeanBetween(lossVals, min, max);
    if max - min != 0.0 {
      DifferenceIsScaled(winVals, lossVals, min, max - min);
      DirectedLift(ScaledDifference(winVals, lossVals, min, max - min), max - min, Mean(winVals) - Mean(lossVals), higherIsBetter);
    }
  }

  /** A number has a lift exactly when it was read for wins and losses and often enough. */
  lemma NumericLiftIsGivenIff(winVals: seq<real>, lossVals: seq<real>, higherIsBetter: bool, minSamples: int)
    ensures NumericLift(winVals, lossVals, higherIsBetter, minSamples).Some? <==>
            |winVals| > 0 && |lossVals| > 0 && |winVals| + |lossVals| >= minSamples
  {
  }

  lemma WholeRangeLift(winVals: seq<real>, lossVals: seq<real>, all: seq<real>, range: real, higherIsBetter: bool, lift: real)
    requires winVals != [] && lossVals != [] && all == winVals + lossVals && range == Largest(all) - Smallest(all)
    requires lift == LiftWithin(winVals, lossVals, Smallest(all), Largest(all), higherIsBetter)
    ensures IsScaled(lift, range, Mean(winVals) - Mean(lossVals), higherIsBetter)
  {
    GroupsAreInRange(winVals, lossVals);
    LiftWithinIsScaled(winVals, lossVals, Smallest(all), Largest(all), higherIsBetter);
  }

  lemma NumericLiftIs(winVals: seq<real>, lossVals: seq<real>, all: seq<real>, higherIsBetter: bool, minSamples: int, lift: real)
    requires NumericLift(winVals, lossVals, higherIsBetter, minSamples) == Some(lift) && all == winVals + lossVals
    ensures winVals != [] && lossVals != []
    ensures lift == LiftWithin(winVals, lossVals, Smallest(all), Largest(all), higherIsBetter)
  {
  }

  /** The lift of a number is the difference of its means in units of the whole range, hence within one. */
  lemma NumericLiftIsScaled(winVals: seq<real>, lossVals: seq<real>, range: real, higherIsBetter: bool, minSamples: int, lift: real)
    requires NumericLift(winVals, lossVals, higherIsBetter, minSamples) == Some(lift)
    requires winVals + lossVals != [] && range == Largest(winVals + lossVals) - Smallest(winVals + lossVals)
    ensures IsScaled(lift, range, Mean(winVals) - Mean(lossVals), higherIsBetter)
  {
    var all := winVals + lossVals;
    NumericLiftIs(winVals, lossVals, all, higherIsBetter, minSamples, lift);
    WholeRangeLift(winVals, lossVals, all, range, higherIsBetter, lift);
  }

  // ---------- Boolean and categorical lift ----------

  datatype Entry = Entry(won: bool, trade: Record)

  predicate Truthy(v: Value) {
    match v
    case Number(n) => n != 0.0
    case Flag(b) => b
    case Label(s) => s != ""
  }

  predicate HasSignal(e: Entry, signal: Signal) {
    signal in e.trade.signals
  }

  predicate Says(e: Entry, signal: Signal, present: bool) {
    HasSignal(e, signal) && Truthy(e.trade.signals[signal]) == present
  }

  /** Among the entries, those for which the signal was present or absent. */
  function Counted(entries: seq<Entry>, signal: Signal, present: bool): nat {
    if entries == [] then 0
    else Counted(entries[..|entries| - 1], signal, present) + if Says(entries[|entries| - 1], signal, present) then 1 else 0
  }

  function CountedWins(entries: seq<Entry>, signal: Signal, present: bool): (n: nat)
    ensures n <= Counted(entries, signal, present)
  {
    if entries == [] then 0
    else
      var last := entries[|entries| - 1];
      CountedWins(entries[..|entries| - 1], signal, present) + if Says(last, signal, present) && last.won then 1 else 0
  }

  function Rate(wins: nat, total: nat): (r: real)
    requires 0 < total && wins <= total
    ensures 0.0 <= r <= 1.0
  {
    wins as real / total as real
  }

  lemma CountedMore(entries: seq<Entry>, i: nat, signal: Signal, present: bool)
    requires i < |entries|
    ensures var says := Says(entries[i], signal, present);
            && Counted(entries[..i + 1], signal, present) == Counted(entries[..i], signal, present) + (if says then 1 else 0)
            && CountedWins(entries[..i + 1], signal, present)
               == CountedWins(entries[..i], signal, present) + (if says && entries[i].won then 1 else 0)
  {
    assert entries[..i + 1][..i] == entries[..i];
  }

  method CountOutcomes(entries: seq<Entry>, signal: Signal) returns (trueWins: nat, trueTotal: nat, falseWins: nat, falseTotal: nat)
    ensures trueTotal == Counted(entries, signal, true) && trueWins == CountedWins(entries, signal, true)
    ensures falseTotal == Counted(entries, signal, false) && falseWins == CountedWins(entries, signal, false)
  {
    trueWins, trueTotal, falseWins, falseTotal := 0, 0, 0, 0;
    for i := 0 to |entries|
      invariant trueTotal == Counted(entries[..i], signal, true) && trueWins == CountedWins(entries[..i], signal, true)
      invariant falseTotal == Counted(entries[..i], signal, false) && falseWins == CountedWins(entries[..i], signal, false)
    {
      CountedMore(entries, i, signal, true);
      CountedMore(entries, i, signal, false);
      if signal in entries[i].trade.signals {
        var won := if entries[i].won then 1 else 0;
        if Truthy(entries[i].trade.signals[signal]) {
          trueTotal, trueWins := trueTotal + 1, trueWins + won;
        } else {
          falseTotal, falseWins := falseTotal + 1, falseWins + won;
        }
      }
    }
    assert entries[..|entries|] == entries;
  }

  /** Given when both answers occur and there are entries enough: the difference of the two win rates. */
  predicate IsBooleanLift(entries: seq<Entry>, signal: Signal, minSamples: int, lift: Option<real>) {
    var present, absent := Counted(entries, signal, true), Counted(entries, signal, false);
    && (lift.Some? <==> present + absent >= minSamples && present > 0 && absent > 0)
    && (lift.Some? ==>
          lift.value == Rate(CountedWins(entries, signal, true), present) - Rate(CountedWins(entries, signal, false), absent))
  }

  /** The win rate with the signal minus the win rate without it. */
  method BooleanLift(entries: seq<Entry>, signal: Signal, minSamples: int) returns (lift: Option<real>)
    ensures IsBooleanLift(entries, signal, minSamples, lift)
    ensures lift.Some? ==> -1.0 <= lift.value <= 1.0
  {
    var trueWins, trueTotal, falseWins, falseTotal := CountOutcomes(entries, signal);
    if trueTotal + falseTotal < minSamples || trueTotal == 0 || falseTotal == 0 { return None; }
    lift := Some(Rate(trueWins, trueTotal) - Rate(falseWins, falseTotal));
  }

  /** The category of a value; how a number is written out is left to `text`. */
  function Category(v: Value, text: real -> string): string {
    match v
    case Number(n) => text(n)
    case Flag(b) => if b then "true" else "false"
    case Label(s) => s
  }

  predicate IsIn(e: Entry, signal: Signal, text: real -> string, key: string) {
    HasSignal(e, signal) && Category(e.trade.signals[signal], text) == key
  }

  datatype Bucket = Bucket(wins: nat, total: nat)

  /** The outcomes of the entries of one category. */
  function BucketOf(entries: seq<Entry>, signal: Signal, text: real -> string, key: string): (b: Bucket)
    ensures b.wins <= b.total
  {
    if entries == [] then Bucket(0, 0)
    else
      var last := entries[|entries| - 1];
      var before := BucketOf(entries[..|entries| - 1], signal, text, key);
      if IsIn(last, signal, text, key) then Bucket(before.wins + if last.won then 1 else 0, before.total + 1)
      else before
  }

  function Samples(entries: seq<Entry>, signal: Signal): nat {
    if entries == [] then 0
    else Samples(entries[..|entries| - 1], signal) + if HasSignal(entries[|entries| - 1], signal) then 1 else 0
  }

  predicate AreBuckets(buckets: map<string, Bucket>, entries: seq<Entry>, signal: Signal, text: real -> string) {
    && (forall key :: key in buckets ==> buckets[key] == BucketOf(entries, signal, text, key) && buckets[key].total > 0)
    && (forall i :: 0 <= i < |entries| && HasSignal(entries[i], signal) ==> Category(entries[i].trade.signals[signal], text) in buckets)
  }

  lemma {:induction false} EmptyBucket(entries: seq<Entry>, signal: Signal, text: real -> string, key: string)
    requires forall i :: 0 <= i < |entries| ==> !IsIn(entries[i], signal, text, key)
    ensures BucketOf(entries, signal, text, key) == Bucket(0, 0)
  {
    if entries != [] { EmptyBucket(entries[..|entries| - 1], signal, text, key); }
  }

  function Filled(buckets: map<string, Bucket>, key: string, won: bool): map<string, Bucket> {
    var before := if key in buckets then buckets[key] else Bucket(0, 0);
    buckets[key := Bucket(before.wins + if won then 1 else 0, before.total + 1)]
  }

  lemma BucketOfNext(entries: seq<Entry>, signal: Signal, text: real -> string, n: nat, key: string)
    requires n < |entries|
    ensures BucketOf(entries[..n + 1], signal, text, key)
         == (var before := BucketOf(entries[..n], signal, text, key);
             if IsIn(entries[n], signal, text, key)
             then Bucket(before.wins + if entries[n].won then 1 else 0, before.total + 1) else before)
  {
    assert entries[..n + 1][..n] == entries[..n];
  }

  lemma FilledBucket(buckets: map<string, Bucket>, entries: seq<Entry>, signal: Signal, text: real -> string, n: nat, key: string)
    requires n < |entries| && AreBuckets(buckets, entries[..n], signal, text) && IsIn(entries[n], signal, text, key)
    ensures Filled(buckets, key, entries[n].won)[key] == BucketOf(entries[..n + 1], signal, text, key)
  {
    if key !in buckets { EmptyBucket(entries[..n], signal, text, key); }
    BucketOfNext(entries, signal, text, n, key);
  }

  lemma FilledAreBuckets(buckets: map<string, Bucket>, entries: seq<Entry>, signal: Signal, text: real -> string, n: nat, key: string)
    requires n < |entries| && AreBuckets(buckets, entries[..n], signal, text) && IsIn(entries[n], signal, text, key)
    ensures AreBuckets(Filled(buckets, key, entries[n].won), entries[..n + 1], signal, text)
  {
    var filled := Filled(buckets, key, entries[n].won);
    FilledBucket(buckets, entries, signal, text, n, key);
    forall k | k in filled ensures filled[k] == BucketOf(entries[..n + 1], signal, text, k) && filled[k].total > 0 {
      BucketOfNext(entries, signal, text, n, k);
    }
    forall i | 0 <= i < n && HasSignal(entries[i], signal) ensures Category(entries[i].trade.signals[signal], text) in filled {
      assert entries[..n][i] == entries[i];
    }
  }

  lemma SkippedAreBuckets(buckets: map<string, Bucket>, entries: seq<Entry>, signal: Signal, text: real -> string, n: nat)
    requires n < |entries| && AreBuckets(buckets, entries[..n], signal, text) && !HasSignal(entries[n], signal)
    ensures AreBuckets(buckets, entries[..n + 1], signal, text)
  {
    forall k { BucketOfNext(entries, signal, text, n, k); }
  }

  /** Counts wins and entries per category. */
  method FillBuckets(entries: seq<Entry>, signal: Signal, text: real -> string) returns (buckets: map<string, Bucket>, samples: nat)
    ensures AreBuckets(buckets, entries, signal, text) && samples == Samples(entries, signal)
  {
    buckets, samples := map[], 0;
    for i := 0 to |entries|
      invariant AreBuckets(buckets, entries[..i], signal, text) && samples == Samples(entries[..i], signal)
    {
      assert entries[..i + 1][..i] == entries[..i];
      if signal in entries[i].trade.signals {
        var key := Category(entries[i].trade.signals[signal], text);
        FilledAreBuckets(buckets, entries, signal, text, i, key);
        buckets := Filled(buckets, key, entries[i].won);
        samples := samples + 1;
      } else {
        SkippedAreBuckets(buckets, entries, signal, text, i);
      }
    }
    assert entries[..|entries|] == entries;
  }

  predicate IsFrequent(b: Bucket) {
    b.total >= 2 && b.wins <= b.total
  }

  function FrequentKeys(buckets: map<string, Bucket>): set<string> {
    set key | key in buckets && IsFrequent(buckets[key])
  }

  function RateOf(b: Bucket): real
    requires IsFrequent(b)
  {
    Rate(b.wins, b.total)
  }

  /** The best and the worst rate among the keys. */
  predicate AreExtremes(buckets: map<string, Bucket>, keys: set<string>, best: real, worst: real) {
    && (forall key :: key in keys ==> key in buckets && IsFrequent(buckets[key]) && worst <= RateOf(buckets[key]) <= best)
    && (exists key :: key in keys && key in buckets && IsFrequent(buckets[key]) && RateOf(buckets[key]) == best)
    && (exists key :: key in keys && key in buckets && IsFrequent(buckets[key]) && RateOf(buckets[key]) == worst)
  }

  /** The buckets decide the lift: the best minus the worst rate, when there are entries and frequent categories enough. */
  ghost predicate IsSpread(buckets: map<string, Bucket>, samples: nat, minSamples: int, lift: Option<real>) {
    && (lift.Some? <==> samples >= minSamples && |FrequentKeys(buckets)| >= 2)
    && (lift.Some? ==>
          exists best: real, worst: real :: AreExtremes(buckets, FrequentKeys(buckets), best, worst) && lift.value == best - worst)
  }

  ghost predicate IsCategoricalLift(entries: seq<Entry>, signal: Signal, text: real -> string, minSamples: int, lift: Option<real>) {
    exists buckets :: AreBuckets(buckets, entries, signal, text) && IsSpread(buckets, Samples(entries, signal), minSamples, lift)
  }

  /** The best minus the worst win rate among the categories that were seen at least twice. */
  method CategoricalLift(entries: seq<Entry>, signal: Signal, text: real -> string, minSamples: int) returns (lift: Option<real>)
    ensures IsCategoricalLift(entries, signal, text, minSamples, lift)
    ensures lift.Some? ==> 0.0 <= lift.value <= 1.0
  {
    var buckets, samples := FillBuckets(entries, signal, text);
    lift := None;
    if samples >= minSamples {
      lift := Spread(buckets);
    }
    assert IsSpread(buckets, samples, minSamples, lift);
  }

  /** The spread of the rates of the frequent categories, if there are two of them. */
  method Spread(buckets: map<string, Bucket>) returns (lift: Option<real>)
    ensures lift.Some? <==> |FrequentKeys(buckets)| >= 2
    ensures lift.Some? ==> 0.0 <= lift.value <= 1.0
    ensures lift.Some? ==>
              exists best: real, worst: real :: AreExtremes(buckets, FrequentKeys(buckets), best, worst) && lift.value == best - worst
  {
    var keys := FrequentKeys(buckets);
    if |keys| < 2 { return None; }
    var key :| key in keys;
    var high, low, seen, rest := RateOf(buckets[key]), RateOf(buckets[key]), {key}, keys - {key};
    while rest != {}
      invariant seen + rest == keys && 0.0 <= low <= high <= 1.0
      invariant AreExtremes(buckets, seen, high, low)
    {
      var k :| k in rest;
      WiderExtremes(buckets, seen, high, low, k);
      high, low := Max(high, RateOf(buckets[k])), Min(low, RateOf(buckets[k]));
      seen, rest := seen + {k}, rest - {k};
    }
    assert seen == keys;
    lift := Some(high - low);
  }

  lemma WiderExtremes(buckets: map<string, Bucket>, keys: set<string>, best: real, worst: real, key: string)
    requires AreExtremes(buckets, keys, best, worst) && key in buckets && IsFrequent(buckets[key])
    ensures AreExtremes(buckets, keys + {key}, Max(best, RateOf(buckets[key])), Min(worst, RateOf(buckets[key])))
  {
  }

  // ---------- The lift of each signal ----------

  function Numbers(trades: seq<Record>, signal: Signal): seq<real> {
    if trades == [] then []
    else
      Numbers(trades[..|trades| - 1], signal)
      + match SignalOf(trades[|trades| - 1], signal) { case Some(Number(n)) => [n] case _ => [] }
  }

  function SignalOf(trade: Record, signal: Signal): Option<Value> {
    if signal in trade.signals then Some(trade.signals[signal]) else None
  }

  function Entries(wins: seq<Record>, losses: seq<Record>): seq<Entry> {
    seq(|wins|, i requires 0 <= i < |wins| => Entry(true, wins[i]))
    + seq(|losses|, i requires 0 <= i < |losses| => Entry(false, losses[i]))
  }

  /** The lift that the kind of signal calls for. */
  ghost predicate IsLift(signal: Signal, wins: seq<Record>, losses: seq<Record>, minSamples: int, text: real -> string, lift: Option<real>) {
    match signal
    case SmartWalletsPresent => IsBooleanLift(Entries(wins, losses), signal, minSamples, lift)
    case NarrativeQuality => IsCategoricalLift(Entries(wins, losses), signal, text, minSamples, lift)
    case _ => lift == NumericLift(Numbers(wins, signal), Numbers(losses, signal), signal in HIGHER_IS_BETTER, minSamples)
  }

  method ComputeLift(signal: Signal, wins: seq<Record>, losses: seq<Record>, minSamples: int, text: real -> string)
    returns (lift: Option<real>)
    ensures IsLift(signal, wins, losses, minSamples, text, lift)
    ensures lift.Some? ==> -1.0 <= lift.value <= 1.0
  {
    if signal == SmartWalletsPresent {
      lift := BooleanLift(Entries(wins, losses), signal, minSamples);
    } else if signal == NarrativeQuality {
      lift := CategoricalLift(Entries(wins, losses), signal, text, minSamples);
    } else {
      var winVals, lossVals := Numbers(wins, signal), Numbers(losses, signal);
      lift := NumericLift(winVals, lossVals, signal in HIGHER_IS_BETTER, minSamples);
      if lift.Some? {
        ghost var all := winVals + lossVals;
        NumericLiftIsScaled(winVals, lossVals, Largest(all) - Smallest(all), signal in HIGHER_IS_BETTER, minSamples, lift.value);
      }
    }
  }

  // ---------- Quartiles ----------

  type Lift = (Signal, real)

  predicate Descending(ranked: seq<Lift>) {
    forall i, j :: 0 <= i < j < |ranked| ==> ranked[i].1 >= ranked[j].1
  }

  predicate DistinctSignals(ranked: seq<Lift>) {
    forall i, j :: 0 <= i < j < |ranked| ==> ranked[i].0 != ranked[j].0
  }

  /** A stable sort: the new entry goes before those that are not above it. */
  function Insert(x: Lift, ranked: seq<Lift>): (r: seq<Lift>)
    ensures multiset(r) == multiset{x} + multiset(ranked)
  {
    if ranked == [] || ranked[0].1 <= x.1 then [x] + ranked
    else
      assert ranked == [ranked[0]] + ranked[1..];
      [ranked[0]] + Insert(x, ranked[1..])
  }

  function Rank(lifts: seq<Lift>): (r: seq<Lift>)
    ensures multiset(r) == multiset(lifts)
  {
    if lifts == [] then []
    else
      assert lifts == [lifts[0]] + lifts[1..];
      Insert(lifts[0], Rank(lifts[1..]))
  }

  lemma {:induction false} InsertKeepsOrder(x: Lift, ranked: seq<Lift>)
    requires Descending(ranked)
    ensures Descending(Insert(x, ranked))
    ensures forall i :: 0 <= i < |Insert(x, ranked)| ==> Insert(x, ranked)[i] == x || Insert(x, ranked)[i] in ranked
  {
    if ranked != [] && ranked[0].1 > x.1 { InsertKeepsOrder(x, ranked[1..]); }
  }

  /** The ranking lists the same lifts, highest first. */
  lemma {:induction false} RankIsDescending(lifts: seq<Lift>)
    ensures Descending(Rank(lifts)) && multiset(Rank(lifts)) == multiset(lifts)
  {
    if lifts != [] {
      RankIsDescending(lifts[1..]);
      InsertKeepsOrder(lifts[0], Rank(lifts[1..]));
    }
  }

  /** `Math.ceil(n * 0.25)` and `Math.floor(n * 0.75)`. */
  function TopEnd(n: nat): nat {
    (n + 3) / 4
  }

  function BottomStart(n: nat): nat {
    3 * n / 4
  }

  function SignalsOf(ranked: seq<Lift>): set<Signal> {
    set i | 0 <= i < |ranked| :: ranked[i].0
  }

  function Top(ranked: seq<Lift>): set<Signal> {
    SignalsOf(ranked[..TopEnd(|ranked|)])
  }

  function Bottom(ranked: seq<Lift>): set<Signal> {
    SignalsOf(ranked[BottomStart(|ranked|)..])
  }

  lemma {:induction false} SetOfDistinct(ranked: seq<Lift>)
    requires DistinctSignals(ranked)
    ensures |SignalsOf(ranked)| == |ranked|
  {
    if ranked != [] {
      var n := |ranked| - 1;
      SetOfDistinct(ranked[..n]);
      assert SignalsOf(ranked) == SignalsOf(ranked[..n]) + {ranked[n].0};
    }
  }

  /** Each quartile has a quarter of the signals, rounded up; with two or more signals they are apart and in order. */
  lemma QuartilesAreApart(ranked: seq<Lift>)
    requires Descending(ranked) && DistinctSignals(ranked)
    ensures |Top(ranked)| == |Bottom(ranked)| == (|ranked| + 3) / 4
    ensures |ranked| >= 2 ==> Top(ranked) !! Bottom(ranked)
    ensures forall i, j :: 0 <= i < |ranked| && 0 <= j < |ranked| && ranked[i].0 in Top(ranked) && ranked[j].0 in Bottom(ranked)
              ==> ranked[i].1 >= ranked[j].1
  {
    var n := |ranked|;
    SetOfDistinct(ranked[..TopEnd(n)]);
    SetOfDistinct(ranked[BottomStart(n)..]);
  }

  // ---------- Boost and decay ----------

  /** `Math.round(x * 1000) / 1000`. */
  function Thousandths(x: real): real {
    Round(x * 1000.0) as real / 1000.0
  }

  predicate OnGrid(x: real) {
    Thousandths(x) == x
  }

  /** The configuration bounds are on the grid around one, and boost and decay point the right way. */
  predicate AreSane(rules: Rules) {
    && 0.0 <= rules.floor <= 1.0 <= rules.ceiling && OnGrid(rules.floor) && OnGrid(rules.ceiling)
    && rules.decay <= 1.0 <= rules.boost
  }

  predicate InBounds(weight: real, rules: Rules) {
    rules.floor <= weight <= rules.ceiling && OnGrid(weight)
  }

  function Scaled(weight: real, factor: real): real {
    weight * factor
  }

  function NextWeight(weight: real, top: bool, bottom: bool, rules: Rules): real {
    Chosen(weight, Scaled(weight, rules.boost), Scaled(weight, rules.decay), top, bottom, rules)
  }

  function Chosen(weight: real, boosted: real, decayed: real, top: bool, bottom: bool, rules: Rules): real {
    Thousandths(if top then Min(boosted, rules.ceiling) else if bottom then Max(decayed, rules.floor) else weight)
  }

  lemma RoundingIsMonotone(x: real, y: real)
    requires x <= y
    ensures Thousandths(x) <= Thousandths(y)
  {
    assert Round(x * 1000.0) <= Round(y * 1000.0);
  }

  lemma RoundingIsStable(x: real)
    ensures OnGrid(Thousandths(x))
  {
    var n := Round(x * 1000.0);
    assert Thousandths(x) * 1000.0 == n as real;
    assert Round(n as real) == n;
  }

  lemma FactorMoves(weight: real, factor: real)
    requires weight >= 0.0
    ensures factor >= 1.0 ==> Scaled(weight, factor) >= weight
    ensures factor <= 1.0 ==> Scaled(weight, factor) <= weight
  {
    assert Scaled(weight, factor) - weight == weight * (factor - 1.0);
  }

  lemma RoundingKeepsBounds(wanted: real, rules: Rules)
    requires AreSane(rules) && rules.floor <= wanted <= rules.ceiling
    ensures InBounds(Thousandths(wanted), rules)
  {
    RoundingIsMonotone(rules.floor, wanted);
    RoundingIsMonotone(wanted, rules.ceiling);
    RoundingIsStable(wanted);
    assert Thousandths(rules.floor) == rules.floor && Thousandths(rules.ceiling) == rules.ceiling;
  }

  /** The weight moves in the direction that its quartile asks for, and no further than the bounds. */
  predicate Moves(weight: real, next: real, top: bool, bottom: bool, rules: Rules) {
    && InBounds(next, rules)
    && (top ==> next >= weight)
    && (bottom && !top ==> next <= weight)
    && (!top && !bottom ==> next == weight)
  }

  lemma ChosenMoves(weight: real, boosted: real, decayed: real, top: bool, bottom: bool, rules: Rules)
    requires AreSane(rules) && InBounds(weight, rules) && decayed <= weight <= boosted
    ensures Moves(weight, Chosen(weight, boosted, decayed, top, bottom, rules), top, bottom, rules)
  {
    if top {
      RoundingKeepsBounds(Min(boosted, rules.ceiling), rules);
      RoundingIsMonotone(weight, Min(boosted, rules.ceiling));
    } else if bottom {
      RoundingKeepsBounds(Max(decayed, rules.floor), rules);
      RoundingIsMonotone(Max(decayed, rules.floor), weight);
    }
  }

  /** A weight stays in bounds, a top signal never loses weight, and a bottom one never gains. */
  lemma NextWeightMoves(weight: real, top: bool, bottom: bool, rules: Rules)
    requires AreSane(rules) && InBounds(weight, rules)
    ensures Moves(weight, NextWeight(weight, top, bottom, rules), top, bottom, rules)
  {
    FactorMoves(weight, rules.boost);
    FactorMoves(weight, rules.decay);
    ChosenMoves(weight, Scaled(weight, rules.boost), Scaled(weight, rules.decay), top, bottom, rules);
  }

  // ---------- Recalculation ----------

  predicate AllInBounds(weights: map<Signal, real>, rules: Rules) {
    forall s :: s in weights ==> InBounds(weights[s], rules)
  }

  /** Every ranked signal takes its next weight; the others keep theirs. */
  function Reweighted(weights: map<Signal, real>, ranked: seq<Lift>, rules: Rules): (next: map<Signal, real>)
    ensures next.Keys == weights.Keys
  {
    map s | s in weights ::
      if s in SignalsOf(ranked) then NextWeight(weights[s], s in Top(ranked), s in Bottom(ranked), rules) else weights[s]
  }

  /** Rounded to a thousandth. */
  predicate IsRounded(x: real, exact: real) {
    OnGrid(x) && -0.0005 <= x - exact <= 0.0005
  }

  lemma ThousandthsIsRounded(x: real)
    ensures IsRounded(Thousandths(x), x)
  {
    RoundingIsStable(x);
    var n := Round(x * 1000.0);
    assert Thousandths(x) * 1000.0 == n as real;
  }

  /** Where a signal stands in the ranking is where its quartiles say. */
  lemma QuartileByPosition(ranked: seq<Lift>, i: nat)
    requires i < |ranked| && DistinctSignals(ranked)
    ensures ranked[i].0 in Top(ranked) <==> 4 * i < |ranked|
    ensures ranked[i].0 in Bottom(ranked) <==> 4 * (i + 1) > 3 * |ranked|
  {
    var n := |ranked|;
    assert forall j :: 0 <= j < n && ranked[j].0 == ranked[i].0 ==> j == i;
    if 4 * i < n { assert ranked[..TopEnd(n)][i] == ranked[i]; }
    if 4 * (i + 1) > 3 * n { assert ranked[BottomStart(n)..][i - BottomStart(n)] == ranked[i]; }
  }

  /** The weight wanted for the signal at place `i` of `n`. */
  function ScaledAt(i: nat, n: nat, weight: real, boosted: real, decayed: real, rules: Rules): real {
    if 4 * i < n then (if boosted <= rules.ceiling then boosted else rules.ceiling)
    else if 4 * (i + 1) > 3 * n then (if decayed >= rules.floor then decayed else rules.floor)
    else weight
  }

  lemma ChosenIsScaled(weight: real, boosted: real, decayed: real, i: nat, n: nat, top: bool, bottom: bool, rules: Rules)
    requires (top <==> 4 * i < n) && (bottom <==> 4 * (i + 1) > 3 * n)
    ensures IsRounded(Chosen(weight, boosted, decayed, top, bottom, rules), ScaledAt(i, n, weight, boosted, decayed, rules))
  {
    ThousandthsIsRounded(ScaledAt(i, n, weight, boosted, decayed, rules));
  }

  lemma ScaledIsProduct(weight: real, factor: real)
    ensures Scaled(weight, factor) == weight * factor
  {
  }

  lemma NextIsScaled(weight: real, boosted: real, decayed: real, i: nat, n: nat, top: bool, bottom: bool, rules: Rules)
    requires (top <==> 4 * i < n) && (bottom <==> 4 * (i + 1) > 3 * n)
    requires boosted == weight * rules.boost && decayed == weight * rules.decay
    ensures IsRounded(NextWeight(weight, top, bottom, rules), ScaledAt(i, n, weight, boosted, decayed, rules))
  {
    ScaledIsProduct(weight, rules.boost);
    ScaledIsProduct(weight, rules.decay);
    ChosenIsScaled(weight, boosted, decayed, i, n, top, bottom, rules);
  }

  lemma ReweightedAt(weights: map<Signal, real>, ranked: seq<Lift>, i: nat, rules: Rules)
    requires i < |ranked| && ranked[i].0 in weights
    ensures var s := ranked[i].0;
            Reweighted(weights, ranked, rules)[s] == NextWeight(weights[s], s in Top(ranked), s in Bottom(ranked), rules)
  {
    assert ranked[i].0 in SignalsOf(ranked);
  }

  lemma UnrankedIsKept(weights: map<Signal, real>, ranked: seq<Lift>, rules: Rules, s: Signal)
    requires s in weights && forall i :: 0 <= i < |ranked| ==> ranked[i].0 != s
    ensures Reweighted(weights, ranked, rules)[s] == weights[s]
  {
  }

  /**
   The signals in the first quarter of the ranking, rounded up, are multiplied by the boost as far as the
   ceiling, those in the last quarter, if not in the first, by the decay as far as the floor, each rounded to a
   thousandth. The ones between are only rounded.
   */
  lemma QuartersAreScaled(weights: map<Signal, real>, ranked: seq<Lift>, i: nat, boosted: real, decayed: real, rules: Rules)
    requires i < |ranked| && DistinctSignals(ranked) && ranked[i].0 in weights
    requires boosted == weights[ranked[i].0] * rules.boost && decayed == weights[ranked[i].0] * rules.decay
    ensures IsRounded(Reweighted(weights, ranked, rules)[ranked[i].0],
                      ScaledAt(i, |ranked|, weights[ranked[i].0], boosted, decayed, rules))
  {
    var s := ranked[i].0;
    QuartileByPosition(ranked, i);
    ReweightedAt(weights, ranked, i, rules);
    NextIsScaled(weights[s], boosted, decayed, i, |ranked|, s in Top(ranked), s in Bottom(ranked), rules);
  }

  lemma ReweightedStaysInBounds(weights: map<Signal, real>, ranked: seq<Lift>, rules: Rules)
    requires AreSane(rules) && AllInBounds(weights, rules)
    ensures AllInBounds(Reweighted(weights, ranked, rules), rules)
  {
    forall s | s in weights ensures InBounds(Reweighted(weights, ranked, rules)[s], rules) {
      NextWeightMoves(weights[s], s in Top(ranked), s in Bottom(ranked), rules);
    }
  }

  /** Any number of recalculations, each with its own ranking. */
  function Recalculations(weights: map<Signal, real>, rankings: seq<seq<Lift>>, rules: Rules): map<Signal, real> {
    if rankings == [] then weights
    else Reweighted(Recalculations(weights, rankings[..|rankings| - 1], rules), rankings[|rankings| - 1], rules)
  }

  function Defaults(): map<Signal, real> {
    map s | s in SIGNALS :: 1.0
  }

  /** From the default weights, no run of recalculations ever leaves the bounds. */
  lemma {:induction false} WeightsStayInBounds(rankings: seq<seq<Lift>>, rules: Rules)
    requires AreSane(rules)
    ensures AllInBounds(Recalculations(Defaults(), rankings, rules), rules)
  {
    if rankings == [] {
      assert Round(1000.0) == 1000;
    } else {
      WeightsStayInBounds(rankings[..|rankings| - 1], rules);
      ReweightedStaysInBounds(Recalculations(Defaults(), rankings[..|rankings| - 1], rules), rankings[|rankings| - 1], rules);
    }
  }

  function Position(s: Signal): nat {
    match s
    case OrganicScore => 0
    case FeeTvlRatio => 1
    case Volume => 2
    case Mcap => 3
    case HolderCount => 4
    case SmartWalletsPresent => 5
    case NarrativeQuality => 6
    case StudyWinRate => 7
    case HiveConsensus => 8
    case Volatility => 9
    case EntryMcap => 10
    case EntryTvl => 11
    case EntryVolume => 12
  }

  /** Every signal is listed once. */
  lemma SignalsAreListedOnce(s: Signal)
    ensures Position(s) < |SIGNALS| && SIGNALS[Position(s)] == s
    ensures forall i :: 0 <= i < |SIGNALS| ==> Position(SIGNALS[i]) == i
  {
  }

  type LiftTest = (Signal, Option<real>) -> bool

  ghost function LiftsOf(wins: seq<Record>, losses: seq<Record>, minSamples: int, text: real -> string): LiftTest {
    (s, lift) => IsLift(s, wins, losses, minSamples, text, lift)
  }

  /** The list has the lift of every signal that has one, and no other. */
  ghost predicate AreLifts(lifts: seq<Lift>, upTo: nat, isLift: LiftTest) {
    && DistinctSignals(lifts)
    && (forall k :: 0 <= k < |lifts| ==>
          -1.0 <= lifts[k].1 <= 1.0 && Position(lifts[k].0) < upTo && isLift(lifts[k].0, Some(lifts[k].1)))
    && (forall s :: Position(s) < upTo && s !in SignalsOf(lifts) ==> isLift(s, None))
  }

  lemma PositionsDiffer(s: Signal, t: Signal)
    requires Position(s) == Position(t)
    ensures s == t
  {
    SignalsAreListedOnce(s);
    SignalsAreListedOnce(t);
  }

  lemma SignalsOfAppended(ranked: seq<Lift>, x: Lift)
    ensures SignalsOf(ranked + [x]) == SignalsOf(ranked) + {x.0}
  {
    var more := ranked + [x];
    forall s | s in SignalsOf(ranked) + {x.0} ensures s in SignalsOf(more) {
      if s == x.0 {
        assert more[|ranked|].0 == s;
      } else {
        var i :| 0 <= i < |ranked| && ranked[i].0 == s;
        assert more[i].0 == s;
      }
    }
  }

  lemma MoreLifts(lifts: seq<Lift>, s: Signal, lift: Option<real>, isLift: LiftTest)
    requires AreLifts(lifts, Position(s), isLift)
    requires isLift(s, lift) && (lift.Some? ==> -1.0 <= lift.value <= 1.0)
    ensures AreLifts(if lift.Some? then lifts + [(s, lift.value)] else lifts, Position(s) + 1, isLift)
  {
    forall t | Position(t) == Position(s) ensures t == s {
      PositionsDiffer(t, s);
    }
    if lift.Some? {
      SignalsOfAppended(lifts, (s, lift.value));
    }
  }

  method ComputeLifts(wins: seq<Record>, losses: seq<Record>, minSamples: int, text: real -> string) returns (lifts: seq<Lift>)
    ensures AreLifts(lifts, |SIGNALS|, LiftsOf(wins, losses, minSamples, text))
  {
    lifts := [];
    ghost var isLift := LiftsOf(wins, losses, minSamples, text);
    for i := 0 to |SIGNALS|
      invariant AreLifts(lifts, i, isLift)
    {
      SignalsAreListedOnce(SIGNALS[i]);
      var lift := ComputeLift(SIGNALS[i], wins, losses, minSamples, text);
      MoreLifts(lifts, SIGNALS[i], lift, isLift);
      if lift.Some? { lifts := lifts + [(SIGNALS[i], lift.value)]; }
    }
  }

  datatype Change = Change(signal: Signal, from: real, to: real, boosted: bool)

  /** The changes name exactly the signals whose weight is different afterwards. */
  predicate AreChanges(changes: seq<Change>, before: map<Signal, real>, after: map<Signal, real>)
    requires before.Keys == after.Keys
  {
    && (forall k :: 0 <= k < |changes| ==>
          var c := changes[k];
          c.signal in before && c.from == before[c.signal] && c.to == after[c.signal] && c.from != c.to && c.boosted == (c.to > c.from))
    && (forall s :: s in before && before[s] != after[s] ==> exists k :: 0 <= k < |changes| && changes[k].signal == s)
  }

  predicate Knows(weights: map<Signal, real>, ranked: seq<Lift>) {
    forall i :: 0 <= i < |ranked| ==> ranked[i].0 in weights
  }

  /** The weights after the first `n` signals of the ranking. */
  function ReweightedTo(weights: map<Signal, real>, ranked: seq<Lift>, n: nat, rules: Rules): (next: map<Signal, real>)
    requires n <= |ranked|
    ensures next.Keys == weights.Keys
  {
    map s | s in weights ::
      if s in SignalsOf(ranked[..n]) then NextWeight(weights[s], s in Top(ranked), s in Bottom(ranked), rules) else weights[s]
  }

  lemma NextSignal(weights: map<Signal, real>, ranked: seq<Lift>, n: nat, rules: Rules)
    requires n < |ranked| && DistinctSignals(ranked) && ranked[n].0 in weights
    ensures var s := ranked[n].0;
            && ReweightedTo(weights, ranked, n, rules)[s] == weights[s]
            && ReweightedTo(weights, ranked, n + 1, rules)
               == ReweightedTo(weights, ranked, n, rules)[s := NextWeight(weights[s], s in Top(ranked), s in Bottom(ranked), rules)]
  {
    assert SignalsOf(ranked[..n + 1]) == SignalsOf(ranked[..n]) + {ranked[n].0};
    assert ranked[n].0 !in SignalsOf(ranked[..n]);
  }

  lemma MoreChanges(changes: seq<Change>, before: map<Signal, real>, weights: map<Signal, real>, c: Change)
    requires before.Keys == weights.Keys && AreChanges(changes, before, weights)
    requires c.signal in before && c.from == before[c.signal] == weights[c.signal] && c.to != c.from && c.boosted == (c.to > c.from)
    ensures AreChanges(changes + [c], before, weights[c.signal := c.to])
  {
    var more := changes + [c];
    assert more[|changes|] == c;
    forall s | s in before && before[s] != weights[s] ensures exists k :: 0 <= k < |more| && more[k].signal == s {
      var k :| 0 <= k < |changes| && changes[k].signal == s;
      assert more[k].signal == s;
    }
  }

  // ---------- The window ----------

  function Recent(trades: seq<Record>, cutoff: int): seq<Record> {
    if trades == [] then []
    else (if trades[0].datedAt.Some? && trades[0].datedAt.value >= cutoff then [trades[0]] else []) + Recent(trades[1..], cutoff)
  }

  /** A trade without a result counts as a win. */
  predicate Won(trade: Record) {
    trade.pnlPct.GetOr(0.0) >= 0.0
  }

  function Outcomes(trades: seq<Record>, won: bool): seq<Record> {
    if trades == [] then []
    else (if Won(trades[0]) == won then [trades[0]] else []) + Outcomes(trades[1..], won)
  }

  predicate HasBothOutcomes(trades: seq<Record>, cutoff: int, rules: Rules) {
    var recent := Recent(trades, cutoff);
    |recent| >= rules.minSamples && (exists i :: 0 <= i < |recent| && Won(recent[i])) && (exists i :: 0 <= i < |recent| && !Won(recent[i]))
  }

  lemma {:induction false} SomeOutcome(trades: seq<Record>, won: bool)
    requires Outcomes(trades, won) != []
    ensures exists i :: 0 <= i < |trades| && Won(trades[i]) == won
  {
    if Won(trades[0]) != won {
      SomeOutcome(trades[1..], won);
      var i :| 0 <= i < |trades[1..]| && Won(trades[1..][i]) == won;
      assert Won(trades[i + 1]) == won;
    }
  }

  lemma {:induction false} RankKeepsDistinct(lifts: seq<Lift>)
    requires DistinctSignals(lifts)
    ensures DistinctSignals(Rank(lifts)) && SignalsOf(Rank(lifts)) == SignalsOf(lifts)
  {
    if lifts != [] {
      RankKeepsDistinct(lifts[1..]);
      assert SignalsOf(lifts) == {lifts[0].0} + SignalsOf(lifts[1..]);
      assert lifts[0].0 !in SignalsOf(lifts[1..]);
      InsertDistinct(lifts[0], Rank(lifts[1..]));
    }
  }

  lemma {:induction false} InsertDistinct(x: Lift, ranked: seq<Lift>)
    requires DistinctSignals(ranked) && x.0 !in SignalsOf(ranked)
    ensures DistinctSignals(Insert(x, ranked)) && SignalsOf(Insert(x, ranked)) == {x.0} + SignalsOf(ranked)
  {
    if ranked != [] && ranked[0].1 > x.1 {
      InsertDistinct(x, ranked[1..]);
      assert SignalsOf(ranked) == {ranked[0].0} + SignalsOf(ranked[1..]);
      assert ranked[0].0 !in SignalsOf(ranked[1..]);
      HeadIsDistinct(ranked[0], Insert(x, ranked[1..]));
    } else {
      HeadIsDistinct(x, ranked);
    }
  }

  lemma HeadIsDistinct(x: Lift, ranked: seq<Lift>)
    requires DistinctSignals(ranked) && x.0 !in SignalsOf(ranked)
    ensures DistinctSignals([x] + ranked) && SignalsOf([x] + ranked) == {x.0} + SignalsOf(ranked)
  {
    var more := [x] + ranked;
    assert more[0] == x;
    forall i | 0 <= i < |ranked| ensures ranked[i].0 in SignalsOf(ranked) && more[i + 1] == ranked[i] {}
  }

  lemma KnowsAll(weights: map<Signal, real>, ranked: seq<Lift>)
    requires weights.Keys == Defaults().Keys
    ensures Knows(weights, ranked)
  {
    forall i | 0 <= i < |ranked| ensures ranked[i].0 in weights {
      SignalsAreListedOnce(ranked[i].0);
    }
  }

  lemma {:induction false} OutcomeOccurs(trades: seq<Record>, won: bool)
    ensures Outcomes(trades, won) != [] <==> exists i :: 0 <= i < |trades| && Won(trades[i]) == won
  {
    if Outcomes(trades, won) != [] {
      SomeOutcome(trades, won);
    } else if trades != [] {
      OutcomeOccurs(trades[1..], won);
      forall i | 0 <= i < |trades| ensures Won(trades[i]) != won {
        if i > 0 { assert trades[i] == trades[1..][i - 1]; }
      }
    }
  }

  lemma OutcomesDecide(trades: seq<Record>, cutoff: int, rules: Rules)
    ensures var recent := Recent(trades, cutoff);
            HasBothOutcomes(trades, cutoff, rules)
            <==> |recent| >= rules.minSamples && Outcomes(recent, true) != [] && Outcomes(recent, false) != []
  {
    OutcomeOccurs(Recent(trades, cutoff), true);
    OutcomeOccurs(Recent(trades, cutoff), false);
  }

  /** The history keeps its twenty newest entries. */
  function Newest(history: seq<seq<Change>>): (h: seq<seq<Change>>)
    ensures |h| <= 20
  {
    if |history| > 20 then history[|history| - 20..] else history
  }

  /** The stored weights with the count and the history of their recalculations. */
  class WeightTable {
    var weights: map<Signal, real>
    var recalcCount: nat
    var history: seq<seq<Change>>

    predicate Valid(rules: Rules)
      reads this
    {
      weights.Keys == Defaults().Keys && AllInBounds(weights, rules) && |history| <= 20
    }

    constructor (rules: Rules)
      requires AreSane(rules)
      ensures Valid(rules) && weights == Defaults()
    {
      weights, recalcCount, history := Defaults(), 0, [];
      WeightsStayInBounds([], rules);
    }

    /** Boosts the top quartile and decays the bottom one, in the order of the ranking. */
    method Apply(ranked: seq<Lift>, rules: Rules) returns (changes: seq<Change>)
      requires DistinctSignals(ranked) && Knows(weights, ranked)
      modifies this`weights
      ensures weights == Reweighted(old(weights), ranked, rules)
      ensures AreChanges(changes, old(weights), weights)
    {
      changes := [];
      ghost var before := weights;
      var top, bottom := Top(ranked), Bottom(ranked);
      for i := 0 to |ranked|
        invariant weights == ReweightedTo(before, ranked, i, rules)
        invariant AreChanges(changes, before, weights)
      {
        var s := ranked[i].0;
        NextSignal(before, ranked, i, rules);
        var prev := weights[s];
        var next := NextWeight(prev, s in top, s in bottom, rules);
        if next != prev {
          MoreChanges(changes, before, weights, Change(s, prev, next, next > prev));
          changes := changes + [Change(s, prev, next, next > prev)];
        }
        weights := weights[s := next];
      }
      assert ranked[..|ranked|] == ranked;
    }

    /** One recalculation from the closed trades of the window. */
    method Recalculate(trades: seq<Record>, cutoff: int, rules: Rules, text: real -> string)
      returns (changes: seq<Change>, ghost lifts: seq<Lift>, ghost ranked: seq<Lift>)
      requires Valid(rules) && AreSane(rules)
      modifies this
      ensures Valid(rules)
      ensures ranked == Rank(lifts) && Descending(ranked) && DistinctSignals(ranked)
      ensures if HasBothOutcomes(trades, cutoff, rules)
              then AreLifts(lifts, |SIGNALS|, LiftsOf(Outcomes(Recent(trades, cutoff), true), Outcomes(Recent(trades, cutoff), false),
                                                      rules.minSamples, text))
              else lifts == []
      ensures weights == Reweighted(old(weights), ranked, rules) && AreChanges(changes, old(weights), weights)
      ensures recalcCount == old(recalcCount) + if ranked == [] then 0 else 1
      ensures history == if changes == [] then old(history) else Newest(old(history) + [changes])
    {
      changes, lifts, ranked := [], [], [];
      var recent := Recent(trades, cutoff);
      var wins, losses := Outcomes(recent, true), Outcomes(recent, false);
      OutcomesDecide(trades, cutoff, rules);
      if |recent| < rules.minSamples || wins == [] || losses == [] { return; }
      var found := ComputeLifts(wins, losses, rules.minSamples, text);
      var order := Rank(found);
      RankIsDescending(found);
      RankKeepsDistinct(found);
      lifts, ranked := found, order;
      if order == [] { return; }
      KnowsAll(weights, order);
      ReweightedStaysInBounds(weights, order, rules);
      changes := Apply(order, rules);
      recalcCount := recalcCount + 1;
      if changes != [] {
        history := Newest(history + [changes]);
      }
    }
  }
}
