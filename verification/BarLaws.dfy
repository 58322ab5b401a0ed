/** What the builder's bars are, told in the events' own payloads and places. */
module BarLaws {
  import opened Foundations
  import opened BarBuilder
  import opened BarProperties

  // ---------- which events can be taken ----------

  predicate Positive(f: Field) {
    f.Number? && f.value > 0.0
  }

  predicate NotNegative(f: Field) {
    f.Number? && f.value >= 0.0
  }

  /** A trade at a positive price whose size, or else volume, is not negative; or a quote of the configured source. */
  predicate Usable(p: Payload, source: Option<QuoteSource>) {
    match p
    case Trade(price, size, volume) => Positive(price) && if size != Missing then NotNegative(size) else volume == Missing || NotNegative(volume)
    case Quote(bid, ask) =>
      (match source
       case None => false
       case Some(Bid) => Positive(bid)
       case Some(Ask) => Positive(ask)
       case Some(Mid) => Positive(bid) && Positive(ask) && bid.value <= ask.value)
    case OtherEvent => false
  }

  /** The price of a usable event: the trade's own, the bid, the ask, or the mean of the two. */
  function UsedPrice(p: Payload, source: Option<QuoteSource>): real
    requires Usable(p, source)
  {
    match p
    case Trade(price, _, _) => price.value
    case Quote(bid, ask) =>
      if source == Some(Bid) then bid.value else if source == Some(Ask) then ask.value else (bid.value + ask.value) / 2.0
  }

  /** The quantity of a usable event: a trade's size, else its volume, else nothing; and nothing for a quote. */
  function UsedVolume(p: Payload, source: Option<QuoteSource>): real
    requires Usable(p, source)
  {
    match p
    case Trade(_, size, volume) => if size.Number? then size.value else if volume.Number? then volume.value else 0.0
    case Quote(_, _) => 0.0
  }

  lemma PayloadIsReadExactly(p: Payload, source: Option<QuoteSource>)
    ensures PriceAndVolume(p, source).Ok? <==> Usable(p, source)
    ensures Usable(p, source) ==> PriceAndVolume(p, source) == Ok((UsedPrice(p, source), UsedVolume(p, source)))
  {
  }

  /** Which error a payload gives: the first field that cannot be used decides. */
  lemma PayloadErrorExactly(p: Payload, source: Option<QuoteSource>)
    requires !Usable(p, source)
    ensures PriceAndVolume(p, source) == Err(
              match p
              case OtherEvent => UnsupportedEvent
              case Trade(price, size, volume) =>
                if !price.Number? then BadNumber else if price.value <= 0.0 then NotPositive
                else var quantity := if size != Missing then size else volume; if quantity.Number? then Negative else BadNumber
              case Quote(bid, ask) =>
                if source == None then QuoteSourceRequired
                else
                  var first := if source == Some(Ask) then ask else bid;
                  if !first.Number? then BadNumber else if first.value <= 0.0 then NotPositive
                  else if !ask.Number? then BadNumber else if ask.value <= 0.0 then NotPositive else AskBelowBid)
  {
  }

  /** The events of the configured symbol, never going back in time, each usable. */
  ghost predicate InGoodOrder(config: Config, events: seq<Event>) {
    && (forall i :: 0 <= i < |events| ==> events[i].symbol == config.symbol && Usable(events[i].payload, config.quoteSource))
    && (forall i, j :: 0 <= i < j < |events| ==> events[i].instant <= events[j].instant)
  }

  lemma FaultExactly(config: Config, events: seq<Event>, i: nat)
    requires i < |events|
    ensures FaultAt(config, events, i) == Some(SymbolMismatch) <==> events[i].symbol != config.symbol
    ensures FaultAt(config, events, i) == Some(OutOfOrder) <==>
            events[i].symbol == config.symbol && i > 0 && events[i].instant < events[i - 1].instant
    ensures FaultAt(config, events, i) == None <==>
            && events[i].symbol == config.symbol && (i > 0 ==> events[i - 1].instant <= events[i].instant)
            && Usable(events[i].payload, config.quoteSource)
  {
  }

  /** The builder succeeds exactly on events in good order. */
  lemma BuiltExactlyInGoodOrder(config: Config, events: seq<Event>)
    requires config.timeframeSeconds > 0
    ensures Built(config, events).Some? <==> InGoodOrder(config, events)
  {
    hide FaultAt, Usable, Runs, BarsOf;
    if Sound(config, events) {
      SoundIsNondecreasing(config, events);
      forall i, j | 0 <= i < j < |events| ensures events[i].instant <= events[j].instant {
        NondecreasingFar(events, i, j);
      }
      forall i | 0 <= i < |events| ensures events[i].symbol == config.symbol && Usable(events[i].payload, config.quoteSource) {
        FaultExactly(config, events, i);
      }
    }
    if InGoodOrder(config, events) {
      forall i | 0 <= i < |events| ensures FaultAt(config, events, i) == None {
        FaultExactly(config, events, i);
      }
    }
  }

  // ---------- what each bar is ----------

  /** The quantities of the events, added up. */
  ghost function VolumeSum(config: Config, events: seq<Event>): real
    requires forall i :: 0 <= i < |events| ==> Usable(events[i].payload, config.quoteSource)
  {
    if events == [] then 0.0
    else UsedVolume(events[0].payload, config.quoteSource) + VolumeSum(config, events[1..])
  }

  /** The bar tells the events: first, last and extreme prices, the quantities' sum and the number. */
  ghost predicate Tells(config: Config, bar: Bar, part: seq<Event>)
    requires part != [] && forall i :: 0 <= i < |part| ==> Usable(part[i].payload, config.quoteSource)
  {
    && bar.symbol == config.symbol && bar.timeframeSeconds == config.timeframeSeconds
    && bar.end == bar.start + config.timeframeSeconds
    && bar.open == UsedPrice(part[0].payload, config.quoteSource)
    && bar.close == UsedPrice(part[|part| - 1].payload, config.quoteSource)
    && (forall i :: 0 <= i < |part| ==> bar.low <= UsedPrice(part[i].payload, config.quoteSource) <= bar.high)
    && (exists i :: 0 <= i < |part| && UsedPrice(part[i].payload, config.quoteSource) == bar.high)
    && (exists i :: 0 <= i < |part| && UsedPrice(part[i].payload, config.quoteSource) == bar.low)
    && bar.volume == VolumeSum(config, part)
    && bar.count == |part|
  }

  lemma PricesAreUsed(config: Config, part: seq<Event>)
    requires forall i :: 0 <= i < |part| ==> Usable(part[i].payload, config.quoteSource)
    ensures forall i :: 0 <= i < |part| ==>
                          && PriceOf(config, part[i]) == UsedPrice(part[i].payload, config.quoteSource)
                          && VolumeOf(config, part[i]) == UsedVolume(part[i].payload, config.quoteSource)
  {
    hide Usable, UsedPrice, UsedVolume, PriceAndVolume;
    forall i | 0 <= i < |part|
      ensures PriceOf(config, part[i]) == UsedPrice(part[i].payload, config.quoteSource)
      ensures VolumeOf(config, part[i]) == UsedVolume(part[i].payload, config.quoteSource)
    {
      PayloadIsReadExactly(part[i].payload, config.quoteSource);
    }
  }

  lemma {:induction false} TotalIsSum(config: Config, part: seq<Event>)
    requires forall i :: 0 <= i < |part| ==> Usable(part[i].payload, config.quoteSource)
    ensures TotalVolume(config, part) == VolumeSum(config, part)
  {
    hide Usable, UsedVolume, VolumeOf;
    if part != [] {
      var first, rest := part[0], part[1..];
      assert part == [first] + rest;
      PricesAreUsed(config, part);
      TotalIsSum(config, rest);
      VolumeAdds(config, [first], rest);
      assert [first][..0] == [];
    }
  }

  lemma BarTells(config: Config, part: seq<Event>)
    requires config.timeframeSeconds > 0
    requires part != [] && forall i :: 0 <= i < |part| ==> Usable(part[i].payload, config.quoteSource)
    ensures Tells(config, BarOf(config, part), part)
  {
    PricesAreUsed(config, part);
    TotalIsSum(config, part);
    ExtremesAreAttained(config, part);
    hide Usable, UsedPrice, UsedVolume, PriceOf, Highest, Lowest, TotalVolume, VolumeSum;
    var bar := BarOf(config, part);
    var i :| 0 <= i < |part| && PriceOf(config, part[i]) == bar.high;
    var j :| 0 <= j < |part| && PriceOf(config, part[j]) == bar.low;
    assert UsedPrice(part[i].payload, config.quoteSource) == bar.high && UsedPrice(part[j].payload, config.quoteSource) == bar.low;
  }

  lemma {:induction false} OffsetOfAll(runs: seq<seq<Event>>)
    ensures Offset(runs, |runs|) == |Concat(runs)|
  {
    if runs != [] {
      OffsetOfAll(runs[1..]);
      OffsetTail(runs, |runs|);
    }
  }

  /** A run is the part of the events between its own offset and the next. */
  lemma RunIsPart(runs: seq<seq<Event>>, k: nat)
    requires k < |runs|
    ensures Offset(runs, k + 1) == Offset(runs, k) + |runs[k]| <= |Concat(runs)|
    ensures Concat(runs)[Offset(runs, k)..Offset(runs, k + 1)] == runs[k]
  {
    hide Concat;
    var n := |runs[k]|;
    if n > 0 {
      ConcatAt(runs, k, n - 1);
    } else {
      OffsetRises(runs, k, |runs|);
      OffsetOfAll(runs);
    }
    forall i | 0 <= i < n ensures Concat(runs)[Offset(runs, k) + i] == runs[k][i] {
      ConcatAt(runs, k, i);
    }
  }

  lemma {:induction false} OffsetRises(runs: seq<seq<Event>>, k: nat, l: nat)
    requires k <= l <= |runs|
    ensures Offset(runs, k) <= Offset(runs, l)
  {
    if k < l {
      OffsetRises(runs, k, l - 1);
    }
  }

  lemma RunsAreNotEmpty(config: Config, events: seq<Event>, k: nat)
    requires config.timeframeSeconds > 0 && k < |Runs(config, events)|
    ensures Runs(config, events)[k] != []
  {
  }

  /** The bucket changes at both ends of a run and nowhere within it. */
  lemma BucketChangesAtEnds(config: Config, events: seq<Event>, k: nat)
    requires config.timeframeSeconds > 0 && k < |Runs(config, events)| && Runs(config, events)[k] != []
    ensures var runs := Runs(config, events);
            var from, to := Offset(runs, k), Offset(runs, k + 1);
            && from < to <= |events| && events[from..to] == runs[k]
            && (k == 0 ==> from == 0) && (k == |runs| - 1 ==> to == |events|)
            && (forall i :: from <= i < to ==> BucketOf(config, events[i]) == BucketOf(config, runs[k][0]))
            && (to < |events| ==> BucketOf(config, events[to]) != BucketOf(config, runs[k][0]))
            && (from > 0 ==> BucketOf(config, events[from - 1]) != BucketOf(config, runs[k][0]))
  {
    hide Runs, BucketOf, Concat, NonEmptyRuns;
    RunsPartition(config, events);
    var runs: seq<seq<Event>> := Runs(config, events);
    RunIsPart(runs, k);
    var from, to := Offset(runs, k), Offset(runs, k + 1);
    forall i | from <= i < to ensures BucketOf(config, events[i]) == BucketOf(config, runs[k][0]) {
      assert events[i] == events[from..to][i - from] == runs[k][i - from];
    }
    hide Offset;
    RunEnds(config, events, runs, k);
  }

  lemma RunEnds(config: Config, events: seq<Event>, runs: seq<seq<Event>>, k: nat)
    requires config.timeframeSeconds > 0 && MaximalRuns(config, runs) && Concat(runs) == events && k < |runs|
    ensures var from, to := Offset(runs, k), Offset(runs, k + 1);
            && to <= |events| && from <= to
            && (k == 0 ==> from == 0) && (k == |runs| - 1 ==> to == |events|)
            && (to < |events| ==> BucketOf(config, events[to]) != BucketOf(config, runs[k][0]))
            && (from > 0 ==> BucketOf(config, events[from - 1]) != BucketOf(config, runs[k][0]))
  {
    hide BucketOf, Concat;
    RunIsPart(runs, k);
    if k == |runs| - 1 {
      OffsetOfAll(runs);
    } else {
      NeighboursDiffer(config, runs, k + 1);
      ConcatAt(runs, k + 1, 0);
    }
    if k > 0 {
      NeighboursDiffer(config, runs, k);
      var last := |runs[k - 1]| - 1;
      ConcatAt(runs, k - 1, last);
      assert BucketOf(config, runs[k - 1][last]) == BucketOf(config, runs[k - 1][0]);
    }
  }

  /**
    Every bar tells one unbroken part of the events, all of its bucket and with its bucket's neighbours
    outside; the parts begin with the first event, follow one another, and end with the last.
   */
  lemma BarsTellTheirEvents(config: Config, events: seq<Event>, k: nat)
    requires config.timeframeSeconds > 0 && InGoodOrder(config, events)
    requires k < |Runs(config, events)|
    ensures Built(config, events).Some? && |Built(config, events).value| == |Runs(config, events)|
    ensures var runs, bar := Runs(config, events), Built(config, events).value[k];
            var from, to := Offset(runs, k), Offset(runs, k + 1);
            && from < to <= |events|
            && (k == 0 ==> from == 0) && (k == |runs| - 1 ==> to == |events|)
            && Tells(config, bar, events[from..to])
            && (forall i :: from <= i < to ==> BucketStart(events[i].instant, config.timeframeSeconds) == bar.start)
            && (to < |events| ==> BucketStart(events[to].instant, config.timeframeSeconds) != bar.start)
            && (from > 0 ==> BucketStart(events[from - 1].instant, config.timeframeSeconds) != bar.start)
  {
    hide Usable, BucketStart, Runs, Tells, Sound, Offset, Highest, Lowest, TotalVolume, PriceOf, NonEmptyRuns;
    BuiltExactlyInGoodOrder(config, events);
    RunsAreNotEmpty(config, events, k);
    BucketChangesAtEnds(config, events, k);
    var runs := Runs(config, events);
    var part := events[Offset(runs, k)..Offset(runs, k + 1)];
    assert part == runs[k];
    BarTells(config, part);
  }
}
