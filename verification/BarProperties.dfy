/** What the bars of a run of events mean. */
module BarProperties {
  import opened Foundations
  import opened BarBuilder

  // ---------- the runs partition the events ----------

  function Concat(runs: seq<seq<Event>>): seq<Event> {
    if runs == [] then [] else runs[0] + Concat(runs[1..])
  }

  /** Each run is one bucket, and neighbouring runs are different buckets. */
  ghost predicate MaximalRuns(config: Config, runs: seq<seq<Event>>)
    requires config.timeframeSeconds > 0
  {
    && NonEmptyRuns(runs)
    && (forall k, i :: 0 <= k < |runs| && 0 <= i < |runs[k]| ==> BucketOf(config, runs[k][i]) == BucketOf(config, runs[k][0]))
    && (forall k :: 0 < k < |runs| ==> BucketOf(config, runs[k][0]) != BucketOf(config, runs[k - 1][0]))
  }

  lemma MaximalCons(config: Config, run: seq<Event>, rest: seq<seq<Event>>)
    requires config.timeframeSeconds > 0 && MaximalRuns(config, rest) && run != []
    requires forall i :: 0 <= i < |run| ==> BucketOf(config, run[i]) == BucketOf(config, run[0])
    requires rest != [] ==> BucketOf(config, rest[0][0]) != BucketOf(config, run[0])
    ensures MaximalRuns(config, [run] + rest)
  {
    hide BucketOf;
    var runs := [run] + rest;
    forall k, i | 0 <= k < |runs| && 0 <= i < |runs[k]| ensures BucketOf(config, runs[k][i]) == BucketOf(config, runs[k][0]) {
      if k > 0 {
        assert runs[k] == rest[k - 1];
      }
    }
    forall k | 0 < k < |runs| ensures BucketOf(config, runs[k][0]) != BucketOf(config, runs[k - 1][0]) {
      if k > 1 {
        assert runs[k] == rest[k - 1] && runs[k - 1] == rest[k - 2];
      }
    }
  }

  /** Put end to end, the runs are the events, cut wherever the bucket changes and nowhere else. */
  lemma {:induction false} RunsPartition(config: Config, events: seq<Event>)
    requires config.timeframeSeconds > 0
    ensures Concat(Runs(config, events)) == events
    ensures MaximalRuns(config, Runs(config, events))
    ensures events != [] ==> |Runs(config, events)| >= 1 && Runs(config, events)[0] != [] && Runs(config, events)[0][0] == events[0]
    decreases |events|
  {
    hide FirstRun, BucketOf, MaximalRuns, Runs;
    if events == [] {
      NoRuns(config);
      assert MaximalRuns(config, []) by { NoRunsAreMaximal(config); }
    } else {
      var n := FirstRun(config, events);
      var rest := Runs(config, events[n..]);
      RunsUnfold(config, events);
      RunsPartition(config, events[n..]);
      assert ([events[..n]] + rest)[1..] == rest && events == events[..n] + events[n..];
      if events[n..] == [] {
        NoRuns(config);
      } else {
        assert rest[0][0] == events[n];
      }
      MaximalCons(config, events[..n], rest);
    }
  }

  lemma NoRunsAreMaximal(config: Config)
    requires config.timeframeSeconds > 0
    ensures MaximalRuns(config, [])
  {
  }

  /** A boundary between buckets is a cut: the runs of the two sides are simply put together. */
  lemma {:induction false} RunsSplitAtBoundary(config: Config, first: seq<Event>, second: seq<Event>)
    requires config.timeframeSeconds > 0
    requires first != [] && second != [] ==> BucketOf(config, first[|first| - 1]) != BucketOf(config, second[0])
    ensures Runs(config, first + second) == Runs(config, first) + Runs(config, second)
    decreases |first|
  {
    hide FirstRun, BucketOf, Runs;
    if first == [] {
      assert first + second == second;
      NoRuns(config);
    } else {
      var n, all := FirstRun(config, first), first + second;
      assert forall i :: 0 <= i < |first| ==> all[i] == first[i];
      assert n == |first| ==> BucketOf(config, first[|first| - 1]) == BucketOf(config, first[0]);
      FirstRunIs(config, all, n);
      assert all[..n] == first[..n] && all[n..] == first[n..] + second;
      RunsUnfold(config, first);
      RunsUnfold(config, all);
      RunsSplitAtBoundary(config, first[n..], second);
      assert [first[..n]] + (Runs(config, first[n..]) + Runs(config, second)) == [first[..n]] + Runs(config, first[n..]) + Runs(config, second);
    }
  }

  /** The second part does not begin before the first ends. */
  predicate FollowsOn(first: seq<Event>, second: seq<Event>) {
    first != [] && second != [] ==> first[|first| - 1].instant <= second[0].instant
  }

  lemma FaultOfFirst(config: Config, first: seq<Event>, second: seq<Event>, i: nat)
    requires i < |first|
    ensures FaultAt(config, first + second, i) == FaultAt(config, first, i)
  {
  }

  lemma FaultOfSecond(config: Config, first: seq<Event>, second: seq<Event>, i: nat)
    requires i < |second|
    ensures i > 0 ==> FaultAt(config, first + second, |first| + i) == FaultAt(config, second, i)
    ensures i == 0 ==> (FaultAt(config, first + second, |first|).None? <==> FaultAt(config, second, 0).None? && FollowsOn(first, second))
  {
    var all := first + second;
    assert all[|first| + i] == second[i];
    assert i > 0 ==> all[|first| + i - 1] == second[i - 1];
    assert i == 0 && first != [] ==> all[|first| - 1] == first[|first| - 1];
  }

  lemma SoundWhole(config: Config, first: seq<Event>, second: seq<Event>)
    requires Sound(config, first) && Sound(config, second) && FollowsOn(first, second)
    ensures Sound(config, first + second)
  {
    hide FaultAt, FollowsOn;
    forall j | 0 <= j < |first + second| ensures FaultAt(config, first + second, j).None? {
      if j < |first| {
        FaultOfFirst(config, first, second, j);
      } else {
        FaultOfSecond(config, first, second, j - |first|);
      }
    }
  }

  lemma SoundParts(config: Config, first: seq<Event>, second: seq<Event>)
    requires Sound(config, first + second)
    ensures Sound(config, first) && Sound(config, second) && FollowsOn(first, second)
  {
    hide FaultAt, FollowsOn;
    forall j | 0 <= j < |first| ensures FaultAt(config, first, j).None? {
      FaultOfFirst(config, first, second, j);
    }
    forall j | 0 <= j < |second| ensures FaultAt(config, second, j).None? {
      FaultOfSecond(config, first, second, j);
      assert FaultAt(config, first + second, |first| + j).None?;
    }
    if second == [] {
      NothingFollows(first);
    } else {
      FaultOfSecond(config, first, second, 0);
    }
  }

  /** Events are sound exactly when both parts are and the second follows on. */
  lemma SoundSplits(config: Config, first: seq<Event>, second: seq<Event>)
    ensures Sound(config, first + second) <==> Sound(config, first) && Sound(config, second) && FollowsOn(first, second)
  {
    hide Sound, FollowsOn;
    if Sound(config, first + second) {
      SoundParts(config, first, second);
    }
    if Sound(config, first) && Sound(config, second) && FollowsOn(first, second) {
      SoundWhole(config, first, second);
    }
  }

  lemma NothingFollows(first: seq<Event>)
    ensures FollowsOn(first, [])
  {
  }

  lemma BarsConcat(config: Config, first: seq<seq<Event>>, second: seq<seq<Event>>)
    requires config.timeframeSeconds > 0 && NonEmptyRuns(first) && NonEmptyRuns(second)
    ensures NonEmptyRuns(first + second)
    ensures BarsOf(config, first + second) == BarsOf(config, first) + BarsOf(config, second)
  {
    hide BarOf;
  }

  /**
    Splitting the input where the bucket changes: the whole is built exactly when both parts are and
    the second follows on in time, and then its bars are those of the first part and then the second.
   */
  lemma SplitAtBoundary(config: Config, first: seq<Event>, second: seq<Event>)
    requires config.timeframeSeconds > 0
    requires first != [] && second != [] ==> BucketOf(config, first[|first| - 1]) != BucketOf(config, second[0])
    ensures var a, b := Built(config, first), Built(config, second);
            Built(config, first + second) ==
            if a.Some? && b.Some? && FollowsOn(first, second) then Some(a.value + b.value) else None
  {
    hide Sound, FollowsOn, Runs, BarsOf, BucketOf;
    SoundSplits(config, first, second);
    RunsSplitAtBoundary(config, first, second);
    BarsConcat(config, Runs(config, first), Runs(config, second));
  }

  // ---------- conservation ----------

  function TotalCount(bars: seq<Bar>): nat {
    if bars == [] then 0 else bars[0].count + TotalCount(bars[1..])
  }

  function BarVolume(bars: seq<Bar>): real {
    if bars == [] then 0.0 else bars[0].volume + BarVolume(bars[1..])
  }

  lemma {:induction false} VolumeAdds(config: Config, first: seq<Event>, second: seq<Event>)
    ensures TotalVolume(config, first + second) == TotalVolume(config, first) + TotalVolume(config, second)
  {
    if second == [] {
      assert first + second == first;
    } else {
      var front := second[..|second| - 1];
      assert (first + second)[..|first + second| - 1] == first + front;
      VolumeAdds(config, first, front);
    }
  }

  lemma {:induction false} RunsConserve(config: Config, runs: seq<seq<Event>>)
    requires config.timeframeSeconds > 0 && NonEmptyRuns(runs)
    ensures TotalCount(BarsOf(config, runs)) == |Concat(runs)|
    ensures BarVolume(BarsOf(config, runs)) == TotalVolume(config, Concat(runs))
  {
    if runs != [] {
      assert NonEmptyRuns(runs[1..]);
      RunsConserve(config, runs[1..]);
      assert BarsOf(config, runs)[1..] == BarsOf(config, runs[1..]);
      VolumeAdds(config, runs[0], Concat(runs[1..]));
    }
  }

  /** No event and no volume is lost or counted twice. */
  lemma BarsConserve(config: Config, events: seq<Event>)
    requires config.timeframeSeconds > 0
    ensures TotalCount(BarsOf(config, Runs(config, events))) == |events|
    ensures BarVolume(BarsOf(config, Runs(config, events))) == TotalVolume(config, events)
  {
    RunsPartition(config, events);
    RunsConserve(config, Runs(config, events));
  }

  // ---------- prices ----------

  lemma {:induction false} ExtremesAreAttained(config: Config, run: seq<Event>)
    requires run != []
    ensures forall i :: 0 <= i < |run| ==> Lowest(config, run) <= PriceOf(config, run[i]) <= Highest(config, run)
    ensures exists i :: 0 <= i < |run| && PriceOf(config, run[i]) == Highest(config, run)
    ensures exists i :: 0 <= i < |run| && PriceOf(config, run[i]) == Lowest(config, run)
  {
    hide PriceOf;
    var front, last := run[..|run| - 1], run[|run| - 1];
    if |run| > 1 {
      ExtremesAreAttained(config, front);
      assert forall i :: 0 <= i < |front| ==> run[i] == front[i];
      assert run[|run| - 1] == last;
    }
  }

  // ---------- bucket arithmetic ----------

  lemma TruncationIsMonotone(a: int, b: int)
    requires a <= b
    ensures EpochSeconds(a) <= EpochSeconds(b)
  {
    if a >= 0 {
      DivMonotone(a, b);
    } else if b < 0 {
      DivMonotone(-b, -a);
    }
  }

  lemma DivMonotone(a: int, b: int)
    requires 0 <= a <= b
    ensures a / SECOND <= b / SECOND
  {
  }

  lemma FloorIsMonotone(a: int, b: int, m: int)
    requires a <= b && m > 0
    ensures a - a % m <= b - b % m
  {
    if a / m > b / m {
      assert a >= (b / m + 1) * m by {
        assert a / m >= b / m + 1;
        MulMonotone(b / m + 1, a / m, m);
      }
    } else {
      MulMonotone(a / m, b / m, m);
    }
  }

  lemma MulMonotone(a: int, b: int, m: int)
    requires a <= b && m > 0
    ensures a * m <= b * m
  {
  }

  lemma BucketsAreMonotone(a: int, b: int, timeframe: int)
    requires a <= b && timeframe > 0
    ensures BucketStart(a, timeframe) <= BucketStart(b, timeframe)
  {
    TruncationIsMonotone(a, b);
    FloorIsMonotone(EpochSeconds(a), EpochSeconds(b), timeframe);
  }

  lemma BucketIsMultiple(instant: int, timeframe: int)
    requires timeframe > 0
    ensures BucketStart(instant, timeframe) % timeframe == 0
  {
    var s := EpochSeconds(instant);
    assert s - s % timeframe == timeframe * (s / timeframe);
    MultipleHasNoRemainder(s / timeframe, timeframe);
  }

  lemma MultipleHasNoRemainder(q: int, m: int)
    requires m > 0
    ensures (m * q) % m == 0
  {
    var p := m * q;
    assert p == m * (p / m) + p % m;
    if p % m != 0 {
      assert m * (q - p / m) == p % m;
      if q - p / m >= 1 {
        MulMonotone(1, q - p / m, m);
      } else {
        MulMonotone(q - p / m, 0, m);
      }
    }
  }

  /** Two different multiples of the timeframe are at least one timeframe apart. */
  lemma MultiplesAreApart(a: int, b: int, m: int)
    requires m > 0 && a % m == 0 && b % m == 0 && a < b
    ensures a + m <= b
  {
    assert a == m * (a / m) && b == m * (b / m);
    if b / m <= a / m {
      MulMonotone(b / m, a / m, m);
    } else {
      MulMonotone(a / m + 1, b / m, m);
    }
  }

  /** The instant lies in the half-open span of its own bucket. */
  predicate InBucket(instant: int, timeframe: int)
    requires timeframe > 0
  {
    var start := BucketStart(instant, timeframe);
    start * SECOND <= instant < (start + timeframe) * SECOND
  }

  /**
    Exactly when an event lies in its bar's span: always from the epoch on. Before it, truncation
    toward zero moves a fractional instant up, and the event falls outside just when that lands on
    a bucket boundary.
   */
  lemma ContainmentIsExact(instant: int, timeframe: int)
    requires timeframe > 0
    ensures InBucket(instant, timeframe) <==> instant >= 0 || instant % SECOND == 0 || EpochSeconds(instant) % timeframe != 0
  {
    var s := EpochSeconds(instant);
    var start := BucketStart(instant, timeframe);
    assert start <= s < start + timeframe;
    if instant >= 0 {
      assert s * SECOND <= instant < (s + 1) * SECOND;
    } else {
      assert (s - 1) * SECOND < instant <= s * SECOND;
      assert instant % SECOND == 0 <==> instant == s * SECOND;
    }
  }

  /** An instant that escapes: a microsecond before the epoch counts into the minute from the epoch on. */
  lemma FractionBeforeEpochEscapes()
    ensures BucketStart(-1, 60) == 0 && !InBucket(-1, 60)
  {
  }

  /**
    An event lies in the half-open span of the bar its run becomes, always from the epoch on and before
    it unless a fraction was cut off a boundary.
   */
  lemma EventsLieInTheirBars(config: Config, events: seq<Event>, k: nat, i: nat)
    requires config.timeframeSeconds > 0
    requires k < |Runs(config, events)| && i < |Runs(config, events)[k]|
    ensures var bar, e := BarsOf(config, Runs(config, events))[k], Runs(config, events)[k][i];
            bar.start * SECOND <= e.instant < bar.end * SECOND <==>
              e.instant >= 0 || e.instant % SECOND == 0 || EpochSeconds(e.instant) % config.timeframeSeconds != 0
  {
    hide Runs, Highest, Lowest, TotalVolume, BucketStart, EpochSeconds;
    RunsPartition(config, events);
    var run := Runs(config, events)[k];
    assert BucketOf(config, run[i]) == BucketOf(config, run[0]);
    ContainmentIsExact(run[i].instant, config.timeframeSeconds);
  }

  // ---------- the bars as a series ----------

  ghost predicate Nondecreasing(events: seq<Event>) {
    forall i :: 0 < i < |events| ==> events[i - 1].instant <= events[i].instant
  }

  lemma SoundIsNondecreasing(config: Config, events: seq<Event>)
    requires Sound(config, events)
    ensures Nondecreasing(events)
  {
    forall i | 0 < i < |events| ensures events[i - 1].instant <= events[i].instant {
      assert FaultAt(config, events, i).None?;
    }
  }

  lemma {:induction false} NondecreasingFar(events: seq<Event>, i: nat, j: nat)
    requires Nondecreasing(events) && i <= j < |events|
    ensures events[i].instant <= events[j].instant
  {
    if i < j {
      NondecreasingFar(events, i, j - 1);
    }
  }

  /** Where run `k` begins among the events. */
  function Offset(runs: seq<seq<Event>>, k: nat): nat
    requires k <= |runs|
  {
    if k == 0 then 0 else Offset(runs, k - 1) + |runs[k - 1]|
  }

  lemma {:induction false} ConcatAt(runs: seq<seq<Event>>, k: nat, i: nat)
    requires k < |runs| && i < |runs[k]|
    ensures Offset(runs, k) + i < |Concat(runs)| && Concat(runs)[Offset(runs, k) + i] == runs[k][i]
  {
    if k > 0 {
      ConcatAt(runs[1..], k - 1, i);
      OffsetTail(runs, k);
    }
  }

  lemma {:induction false} OffsetTail(runs: seq<seq<Event>>, k: nat)
    requires 0 < k <= |runs|
    ensures Offset(runs, k) == |runs[0]| + Offset(runs[1..], k - 1)
  {
    if k > 1 {
      OffsetTail(runs, k - 1);
      assert runs[1..][k - 2] == runs[k - 1];
    }
  }

  lemma NeighboursDiffer(config: Config, runs: seq<seq<Event>>, k: nat)
    requires config.timeframeSeconds > 0 && MaximalRuns(config, runs) && 0 < k < |runs|
    ensures runs[k] != [] && runs[k - 1] != [] && BucketOf(config, runs[k][0]) != BucketOf(config, runs[k - 1][0])
  {
  }

  lemma RunStartsRise(config: Config, events: seq<Event>, k: nat)
    requires config.timeframeSeconds > 0 && Nondecreasing(events)
    requires 0 < k < |Runs(config, events)|
    ensures var runs := Runs(config, events);
            BucketOf(config, runs[k - 1][0]) + config.timeframeSeconds <= BucketOf(config, runs[k][0])
  {
    hide Runs, BucketStart, MaximalRuns, Concat, NonEmptyRuns;
    RunsPartition(config, events);
    var runs: seq<seq<Event>> := Runs(config, events);
    assert runs[k] != [] && runs[k - 1] != [] && BucketOf(config, runs[k][0]) != BucketOf(config, runs[k - 1][0]) by {
      NeighboursDiffer(config, runs, k);
    }
    ConcatAt(runs, k - 1, 0);
    ConcatAt(runs, k, 0);
    assert Offset(runs, k) == Offset(runs, k - 1) + |runs[k - 1]|;
    NondecreasingFar(events, Offset(runs, k - 1), Offset(runs, k));
    BucketsAreMonotone(runs[k - 1][0].instant, runs[k][0].instant, config.timeframeSeconds);
    BucketIsMultiple(runs[k - 1][0].instant, config.timeframeSeconds);
    BucketIsMultiple(runs[k][0].instant, config.timeframeSeconds);
    MultiplesAreApart(BucketOf(config, runs[k - 1][0]), BucketOf(config, runs[k][0]), config.timeframeSeconds);
  }

  /** The span and the prices of one bar. */
  ghost predicate WellShaped(bar: Bar, timeframe: int)
    requires timeframe > 0
  {
    && bar.start % timeframe == 0 && bar.end == bar.start + timeframe
    && bar.low <= bar.open <= bar.high && bar.low <= bar.close <= bar.high
  }

  lemma BarIsWellShaped(config: Config, run: seq<Event>)
    requires config.timeframeSeconds > 0 && run != []
    ensures WellShaped(BarOf(config, run), config.timeframeSeconds)
  {
    hide BucketStart, PriceOf, Highest, Lowest, TotalVolume;
    BucketIsMultiple(run[0].instant, config.timeframeSeconds);
    ExtremesAreAttained(config, run);
  }

  /**
    The bars of sound events: starts are multiples of the timeframe, each bar ends no later than the
    next begins, and open and close lie between low and high.
   */
  lemma BarsAreASeries(config: Config, events: seq<Event>)
    requires config.timeframeSeconds > 0 && Sound(config, events)
    ensures var bars := BarsOf(config, Runs(config, events));
            && (forall k :: 0 <= k < |bars| ==> WellShaped(bars[k], config.timeframeSeconds))
            && (forall k :: 0 < k < |bars| ==> bars[k - 1].end <= bars[k].start)
  {
    RunsPartition(config, events);
    SoundIsNondecreasing(config, events);
    var runs := Runs(config, events);
    var bars := BarsOf(config, runs);
    hide Runs, Sound, PriceOf, TotalVolume, Highest, Lowest, WellShaped, BucketOf;
    forall k | 0 <= k < |bars| ensures WellShaped(bars[k], config.timeframeSeconds) {
      BarIsWellShaped(config, runs[k]);
    }
    forall k | 0 < k < |bars| ensures bars[k - 1].end <= bars[k].start {
      RunStartsRise(config, events, k);
    }
  }

  // ---------- the replay's ordering ----------

  ghost predicate ReplayOrdered(events: seq<Event>) {
    (forall i :: 0 <= i < |events| ==> events[i].sequence == i + 1) && Nondecreasing(events)
  }

  datatype ReplayError = SequenceGap(expected: int) | TimestampsDecrease

  /** Accepts exactly events numbered 1, 2, 3, ... whose times never step back. */
  method ValidateOrder(events: seq<Event>) returns (r: Result<(), ReplayError>)
    ensures r.Ok? <==> ReplayOrdered(events)
    ensures r == Err(TimestampsDecrease) ==> !Nondecreasing(events)
  {
    for i := 0 to |events|
      invariant forall j :: 0 <= j < i ==> events[j].sequence == j + 1
      invariant forall j :: 0 < j < i ==> events[j - 1].instant <= events[j].instant
    {
      if events[i].sequence != i + 1 {
        return Err(SequenceGap(i + 1));
      }
      if i > 0 && events[i].instant < events[i - 1].instant {
        assert !Nondecreasing(events);
        return Err(TimestampsDecrease);
      }
    }
    return Ok(());
  }

  /** The builder's own ordering check can never fail on events the replay accepted. */
  lemma ReplayNeverOutOfOrder(config: Config, events: seq<Event>, i: nat)
    requires ReplayOrdered(events) && i < |events|
    ensures FaultAt(config, events, i) != Some(OutOfOrder)
  {
    hide QuotePrice, EventVolume, PositiveNumber;
    assert i > 0 ==> events[i - 1].instant <= events[i].instant;
    PricingIsNeverOutOfOrder(events[i].payload, config.quoteSource);
  }

  lemma PricingIsNeverOutOfOrder(payload: Payload, source: Option<QuoteSource>)
    ensures PriceAndVolume(payload, source) != Err(OutOfOrder)
  {
  }
}
