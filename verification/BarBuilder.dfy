/**
  Building time bars from replayed market data. Prices and volumes are exact numbers here, and
  timestamps are instants in microseconds since the epoch.
 */
module BarBuilder {
  import opened Foundations
  import opened Identifiers

  /** A payload value: absent, not a finite number, or a number. */
  datatype Field = Missing | NotANumber | Number(value: real)

  datatype Payload =
    | Trade(price: Field, size: Field, volume: Field)
    | Quote(bid: Field, ask: Field)
    | OtherEvent

  datatype Event = Event(sequence: int, instant: int, symbol: string, payload: Payload)

  datatype QuoteSource = Bid | Ask | Mid

  datatype Config = Config(symbol: string, timeframeSeconds: int, quoteSource: Option<QuoteSource>)

  datatype Bar = Bar(
    symbol: string, timeframeSeconds: int, start: int, end: int,
    open: real, high: real, low: real, close: real, volume: real, count: nat)

  datatype BarError =
    | BadTimeframe | BadSymbol | SymbolMismatch | OutOfOrder | BadNumber | NotPositive | Negative
    | QuoteSourceRequired | AskBelowBid | UnsupportedEvent

  // ---------- one event ----------

  function PositiveNumber(f: Field): Result<real, BarError> {
    match f
    case Number(x) => if x <= 0.0 then Err(NotPositive) else Ok(x)
    case _ => Err(BadNumber)
  }

  function NonnegativeNumber(f: Field): Result<real, BarError> {
    match f
    case Number(x) => if x < 0.0 then Err(Negative) else Ok(x)
    case _ => Err(BadNumber)
  }

  function EventVolume(size: Field, volume: Field): Result<real, BarError> {
    if !size.Missing? then NonnegativeNumber(size)
    else if !volume.Missing? then NonnegativeNumber(volume)
    else Ok(0.0)
  }

  function QuotePrice(bid: Field, ask: Field, source: QuoteSource): Result<real, BarError> {
    match source
    case Bid => PositiveNumber(bid)
    case Ask => PositiveNumber(ask)
    case Mid =>
      var b := PositiveNumber(bid);
      if b.Err? then b else
      var a := PositiveNumber(ask);
      if a.Err? then a else
      if a.value < b.value then Err(AskBelowBid) else Ok((b.value + a.value) / 2.0)
  }

  function PriceAndVolume(payload: Payload, source: Option<QuoteSource>): (r: Result<(real, real), BarError>)
    ensures r.Ok? ==> r.value.0 > 0.0 && r.value.1 >= 0.0
  {
    match payload
    case Trade(price, size, volume) =>
      var p := PositiveNumber(price);
      if p.Err? then Err(p.error) else
      var v := EventVolume(size, volume);
      if v.Err? then Err(v.error) else Ok((p.value, v.value))
    case Quote(bid, ask) =>
      if source.None? then Err(QuoteSourceRequired) else
      var p := QuotePrice(bid, ask, source.value);
      if p.Err? then Err(p.error) else Ok((p.value, 0.0))
    case OtherEvent => Err(UnsupportedEvent)
  }

  const SECOND := 1000000

  /** Whole seconds of an instant, truncated toward zero. */
  function EpochSeconds(instant: int): int {
    if instant >= 0 then instant / SECOND else -((-instant) / SECOND)
  }

  /** The start of the bucket an instant falls into, in seconds since the epoch. */
  function BucketStart(instant: int, timeframe: int): int
    requires timeframe > 0
  {
    EpochSeconds(instant) - EpochSeconds(instant) % timeframe
  }

  // ---------- the specification: group events by bucket ----------

  /** Why event `i` cannot be taken, if it cannot. */
  function FaultAt(config: Config, events: seq<Event>, i: nat): Option<BarError>
    requires i < |events|
  {
    if events[i].symbol != config.symbol then Some(SymbolMismatch)
    else if i > 0 && events[i].instant < events[i - 1].instant then Some(OutOfOrder)
    else
      var r := PriceAndVolume(events[i].payload, config.quoteSource);
      if r.Err? then Some(r.error) else None
  }

  ghost predicate Sound(config: Config, events: seq<Event>) {
    forall i :: 0 <= i < |events| ==> FaultAt(config, events, i).None?
  }

  function PriceOf(config: Config, e: Event): real {
    var r := PriceAndVolume(e.payload, config.quoteSource);
    if r.Ok? then r.value.0 else 0.0
  }

  function VolumeOf(config: Config, e: Event): real {
    var r := PriceAndVolume(e.payload, config.quoteSource);
    if r.Ok? then r.value.1 else 0.0
  }

  function BucketOf(config: Config, e: Event): int
    requires config.timeframeSeconds > 0
  {
    BucketStart(e.instant, config.timeframeSeconds)
  }

  function Highest(config: Config, run: seq<Event>): real
    requires run != []
  {
    var last := PriceOf(config, run[|run| - 1]);
    if |run| == 1 then last else
    var before := Highest(config, run[..|run| - 1]);
    if before < last then last else before
  }

  function Lowest(config: Config, run: seq<Event>): real
    requires run != []
  {
    var last := PriceOf(config, run[|run| - 1]);
    if |run| == 1 then last else
    var before := Lowest(config, run[..|run| - 1]);
    if last < before then last else before
  }

  function TotalVolume(config: Config, run: seq<Event>): real {
    if run == [] then 0.0 else TotalVolume(config, run[..|run| - 1]) + VolumeOf(config, run[|run| - 1])
  }

  /** The bar of a run of events that share a bucket: first, extreme and last prices, and totals. */
  function BarOf(config: Config, run: seq<Event>): Bar
    requires run != [] && config.timeframeSeconds > 0
  {
    var start := BucketOf(config, run[0]);
    Bar(config.symbol, config.timeframeSeconds, start, start + config.timeframeSeconds,
        PriceOf(config, run[0]), Highest(config, run), Lowest(config, run), PriceOf(config, run[|run| - 1]),
        TotalVolume(config, run), |run|)
  }

  /** How many events at the front share the first one's bucket. */
  function FirstRun(config: Config, events: seq<Event>): (n: nat)
    requires events != [] && config.timeframeSeconds > 0
    ensures 1 <= n <= |events|
    ensures forall i :: 0 <= i < n ==> BucketOf(config, events[i]) == BucketOf(config, events[0])
    ensures n < |events| ==> BucketOf(config, events[n]) != BucketOf(config, events[0])
  {
    if |events| > 1 && BucketOf(config, events[1]) == BucketOf(config, events[0])
    then 1 + FirstRun(config, events[1..]) else 1
  }

  /** The events cut into maximal runs of one bucket each. */
  function Runs(config: Config, events: seq<Event>): (runs: seq<seq<Event>>)
    requires config.timeframeSeconds > 0
    ensures NonEmptyRuns(runs)
  {
    if events == [] then [] else
    var n := FirstRun(config, events);
    [events[..n]] + Runs(config, events[n..])
  }

  ghost predicate NonEmptyRuns(runs: seq<seq<Event>>) {
    forall k :: 0 <= k < |runs| ==> runs[k] != []
  }

  function BarsOf(config: Config, runs: seq<seq<Event>>): (r: seq<Bar>)
    requires NonEmptyRuns(runs) && config.timeframeSeconds > 0
    ensures |r| == |runs| && forall k :: 0 <= k < |r| ==> r[k] == BarOf(config, runs[k])
  {
    seq(|runs|, k requires 0 <= k < |runs| => BarOf(config, runs[k]))
  }

  /** The bars of sound events, run by run; nothing otherwise. */
  ghost function Built(config: Config, events: seq<Event>): Option<seq<Bar>>
    requires config.timeframeSeconds > 0
  {
    if Sound(config, events) then Some(BarsOf(config, Runs(config, events))) else None
  }

  lemma FirstRunIs(config: Config, events: seq<Event>, n: nat)
    requires events != [] && config.timeframeSeconds > 0 && 1 <= n <= |events|
    requires forall i :: 0 <= i < n ==> BucketOf(config, events[i]) == BucketOf(config, events[0])
    requires n < |events| ==> BucketOf(config, events[n]) != BucketOf(config, events[0])
    ensures FirstRun(config, events) == n
  {
    hide FirstRun;
  }

  ghost function LastRun(config: Config, events: seq<Event>): (run: seq<Event>)
    requires events != [] && config.timeframeSeconds > 0
    ensures run != [] && run[|run| - 1] == events[|events| - 1]
    ensures forall i :: 0 <= i < |run| ==> BucketOf(config, run[i]) == BucketOf(config, run[0])
    ensures |Runs(config, events)| >= 1 && Runs(config, events)[|Runs(config, events)| - 1] == run
    decreases |events|
  {
    var n := FirstRun(config, events);
    if n == |events| then
      assert events[..n] == events && events[n..] == [];
      events
    else LastRun(config, events[n..])
  }

  lemma RunsUnfold(config: Config, events: seq<Event>)
    requires config.timeframeSeconds > 0 && events != []
    ensures var n := FirstRun(config, events); Runs(config, events) == [events[..n]] + Runs(config, events[n..])
  {
    hide FirstRun;
  }

  lemma LastRunUnfold(config: Config, events: seq<Event>)
    requires events != [] && config.timeframeSeconds > 0
    ensures var n := FirstRun(config, events);
            if n == |events| then LastRun(config, events) == events && Runs(config, events) == [events]
            else LastRun(config, events) == LastRun(config, events[n..])
  {
    var n := FirstRun(config, events);
    if n == |events| {
      assert events[..n] == events && events[n..] == [];
    }
  }

  lemma SingleRunOf(config: Config, events: seq<Event>)
    requires events != [] && config.timeframeSeconds > 0 && FirstRun(config, events) == |events|
    ensures Runs(config, events) == [events]
  {
    assert events[..|events|] == events && events[|events|..] == [];
  }

  /** One more event either extends the last run or starts a new one. */
  lemma {:induction false} RunsSnoc(config: Config, events: seq<Event>, e: Event)
    requires events != [] && config.timeframeSeconds > 0
    ensures var runs, run := Runs(config, events), LastRun(config, events);
            Runs(config, events + [e]) ==
            if BucketOf(config, e) == BucketOf(config, run[0]) then runs[..|runs| - 1] + [run + [e]] else runs + [[e]]
    decreases |events|
  {
    hide FirstRun, BucketOf, Runs, LastRun, NonEmptyRuns;
    var n, all := FirstRun(config, events), events + [e];
    LastRunUnfold(config, events);
    RunsUnfold(config, all);
    if n < |events| {
      var rest := events[n..];
      FirstRunIs(config, all, n);
      assert all[..n] == events[..n] && all[n..] == rest + [e];
      RunsUnfold(config, events);
      RunsSnoc(config, rest, e);
      var runs := Runs(config, rest);
      assert ([events[..n]] + runs)[..|runs|] == [events[..n]] + runs[..|runs| - 1];
    } else if BucketOf(config, e) == BucketOf(config, events[0]) {
      FirstRunIs(config, all, n + 1);
      SingleRunOf(config, all);
    } else {
      FirstRunIs(config, all, n);
      FirstRunIs(config, [e], 1);
      SingleRunOf(config, [e]);
      assert all[..n] == events && all[n..] == [e];
    }
  }

  // ---------- the imperative builder ----------

  /** The bar being filled. */
  class OpenBar {
    const config: Config
    const start: int
    const open: real
    var high: real
    var low: real
    var close: real
    var volume: real
    var count: nat

    constructor (config: Config, start: int, price: real, volume: real)
      ensures this.config == config && this.start == start && open == price
      ensures high == price && low == price && close == price && this.volume == volume && count == 1
    {
      this.config, this.start, this.open := config, start, price;
      high, low, close := price, price, price;
      this.volume, this.count := volume, 1;
    }

    /** The fields describe exactly the events of this run. */
    ghost predicate Describes(run: seq<Event>)
      reads this
    {
      && run != [] && config.timeframeSeconds > 0 && start == BucketOf(config, run[0]) && open == PriceOf(config, run[0])
      && high == Highest(config, run) && low == Lowest(config, run) && close == PriceOf(config, run[|run| - 1])
      && volume == TotalVolume(config, run) && count == |run|
    }

    method Update(price: real, added: real, ghost run: seq<Event>, ghost e: Event)
      requires Describes(run) && price == PriceOf(config, e) && added == VolumeOf(config, e)
      modifies this
      ensures Describes(run + [e])
    {
      assert (run + [e])[..|run|] == run;
      high := if high < price then price else high;
      low := if price < low then price else low;
      close := price;
      volume := volume + added;
      count := count + 1;
    }

    method CloseBar(ghost run: seq<Event>) returns (bar: Bar)
      requires Describes(run)
      ensures bar == BarOf(config, run)
    {
      bar := Bar(config.symbol, config.timeframeSeconds, start, start + config.timeframeSeconds, open, high, low, close, volume, count);
    }
  }

  lemma SingleRun(config: Config, e: Event)
    requires config.timeframeSeconds > 0
    ensures Runs(config, [e]) == [[e]] && LastRun(config, [e]) == [e]
    ensures Highest(config, [e]) == Lowest(config, [e]) == PriceOf(config, e) && TotalVolume(config, [e]) == VolumeOf(config, e)
  {
    FirstRunIs(config, [e], 1);
    assert [e][..1] == [e] && [e][1..] == [] && [e][..0] == [];
  }

  /** The bars closed so far and the open bar account for exactly the events taken. */
  ghost predicate Summarizes(config: Config, taken: seq<Event>, bars: seq<Bar>, openBar: OpenBar?)
    requires config.timeframeSeconds > 0
    reads openBar
  {
    if taken == [] then openBar == null && bars == [] else
    var runs, run := Runs(config, taken), LastRun(config, taken);
    && openBar != null && openBar.config == config && openBar.Describes(run)
    && bars == BarsOf(config, runs[..|runs| - 1])
  }

  /** What one more event does to the runs: the last one grows, or it is complete and a new one starts. */
  lemma RunsTake(config: Config, taken: seq<Event>, e: Event)
    requires taken != [] && config.timeframeSeconds > 0
    ensures var runs, run := Runs(config, taken), LastRun(config, taken);
            var all := Runs(config, taken + [e]);
            if BucketOf(config, e) == BucketOf(config, run[0])
            then LastRun(config, taken + [e]) == run + [e] && all[..|all| - 1] == runs[..|runs| - 1]
            else LastRun(config, taken + [e]) == [e] && all[..|all| - 1] == runs[..|runs| - 1] + [run]
  {
    hide Runs, LastRun, FirstRun, BucketOf;
    RunsSnoc(config, taken, e);
    var runs, run := Runs(config, taken), LastRun(config, taken);
    var all := Runs(config, taken + [e]);
    assert all[|all| - 1] == LastRun(config, taken + [e]);
    assert runs == runs[..|runs| - 1] + [run];
  }

  /** Opens a bar for its first event. */
  method NewOpenBar(config: Config, e: Event, price: real, volume: real) returns (bar: OpenBar)
    requires config.timeframeSeconds > 0 && price == PriceOf(config, e) && volume == VolumeOf(config, e)
    ensures fresh(bar) && bar.config == config && bar.Describes([e])
  {
    hide PriceOf, VolumeOf, BucketStart, Runs, LastRun;
    SingleRun(config, e);
    bar := new OpenBar(config, BucketStart(e.instant, config.timeframeSeconds), price, volume);
  }

  /** Takes one event into the open bar, or closes that bar and opens the next. */
  method TakeEvent(config: Config, bars: seq<Bar>, openBar: OpenBar?, e: Event, price: real, volume: real, ghost taken: seq<Event>)
    returns (nextBars: seq<Bar>, nextBar: OpenBar)
    requires config.timeframeSeconds > 0 && Summarizes(config, taken, bars, openBar)
    requires price == PriceOf(config, e) && volume == VolumeOf(config, e)
    modifies openBar
    ensures Summarizes(config, taken + [e], nextBars, nextBar)
    ensures nextBar == openBar || fresh(nextBar)
  {
    hide Runs, LastRun, FirstRun, BucketStart, PriceOf, VolumeOf, Highest, Lowest, TotalVolume, BarOf;
    var bucketStart := BucketStart(e.instant, config.timeframeSeconds);
    if openBar == null {
      assert taken + [e] == [e];
      SingleRun(config, e);
      nextBar := NewOpenBar(config, e, price, volume);
      return bars, nextBar;
    }
    RunsTake(config, taken, e);
    ghost var runs, run := Runs(config, taken), LastRun(config, taken);
    if bucketStart != openBar.start {
      var closed := openBar.CloseBar(run);
      BarsSnoc(config, runs[..|runs| - 1], run);
      nextBar := NewOpenBar(config, e, price, volume);
      return bars + [closed], nextBar;
    }
    openBar.Update(price, volume, run, e);
    return bars, openBar;
  }

  lemma FaultsOfPrefix(config: Config, events: seq<Event>, i: nat)
    requires i < |events| && Sound(config, events[..i])
    ensures Sound(config, events[..i + 1]) <==> FaultAt(config, events, i).None?
    ensures FaultAt(config, events, i).Some? ==> !Sound(config, events)
  {
    var longer := events[..i + 1];
    assert FaultAt(config, longer, i) == FaultAt(config, events, i);
    if FaultAt(config, events, i).None? {
      forall j | 0 <= j < |longer| ensures FaultAt(config, longer, j).None? {
        if j < i {
          assert FaultAt(config, longer, j) == FaultAt(config, events[..i], j);
        }
      }
    }
  }

  lemma NoRuns(config: Config)
    requires config.timeframeSeconds > 0
    ensures Runs(config, []) == [] && BarsOf(config, []) == []
  {
  }

  lemma BarsSnoc(config: Config, runs: seq<seq<Event>>, run: seq<Event>)
    requires config.timeframeSeconds > 0 && NonEmptyRuns(runs) && run != []
    ensures NonEmptyRuns(runs + [run]) && BarsOf(config, runs + [run]) == BarsOf(config, runs) + [BarOf(config, run)]
  {
    hide BarOf;
  }

  /** Closes the bar still open when the events run out. */
  method CloseLast(config: Config, bars: seq<Bar>, openBar: OpenBar?, ghost events: seq<Event>) returns (r: seq<Bar>)
    requires config.timeframeSeconds > 0 && Summarizes(config, events, bars, openBar)
    ensures r == BarsOf(config, Runs(config, events))
  {
    hide Runs, LastRun, BarOf;
    if openBar == null {
      NoRuns(config);
      return bars;
    }
    ghost var runs, run := Runs(config, events), LastRun(config, events);
    BarsSnoc(config, runs[..|runs| - 1], run);
    assert runs == runs[..|runs| - 1] + [run];
    var closed := openBar.CloseBar(run);
    r := bars + [closed];
  }

  lemma NothingTaken(config: Config, none: seq<Event>)
    requires config.timeframeSeconds > 0 && none == []
    ensures Sound(config, none) && Summarizes(config, none, [], null)
  {
  }

  /** The builder's loop, once its configuration has been checked. */
  method BuildBars(config: Config, events: seq<Event>) returns (r: Result<seq<Bar>, BarError>)
    requires config.timeframeSeconds > 0
    ensures Built(config, events) == if r.Ok? then Some(r.value) else None
    ensures r.Err? ==> exists i :: 0 <= i < |events| && Sound(config, events[..i]) && FaultAt(config, events, i) == Some(r.error)
  {
    hide Runs, LastRun, Summarizes, BarsOf, PriceAndVolume, Sound;
    var bars: seq<Bar> := [];
    var openBar: OpenBar? := null;
    NothingTaken(config, events[..0]);
    for i := 0 to |events|
      invariant Sound(config, events[..i])
      invariant Summarizes(config, events[..i], bars, openBar)
      invariant openBar != null ==> fresh(openBar)
    {
      var e := events[i];
      FaultsOfPrefix(config, events, i);
      if e.symbol != config.symbol {
        return Err(SymbolMismatch);
      }
      if i > 0 && e.instant < events[i - 1].instant {
        return Err(OutOfOrder);
      }
      var priced := PriceAndVolume(e.payload, config.quoteSource);
      if priced.Err? {
        return Err(priced.error);
      }
      assert events[..i + 1] == events[..i] + [e];
      bars, openBar := TakeEvent(config, bars, openBar, e, priced.value.0, priced.value.1, events[..i]);
    }
    assert events[..|events|] == events;
    bars := CloseLast(config, bars, openBar, events);
    return Ok(bars);
  }

  /**
    Succeeds exactly on sound events, and then yields the bar of each maximal bucket run in order;
    otherwise reports what is wrong with the first event that cannot be taken.
   */
  method BuildTimeBars(events: seq<Event>, symbol: string, timeframe: int, quoteSource: Option<QuoteSource>)
    returns (r: Result<seq<Bar>, BarError>)
    ensures timeframe <= 0 || timeframe % SECOND != 0 ==> r == Err(BadTimeframe)
    ensures timeframe > 0 && timeframe % SECOND == 0 && !PlainSymbol(symbol) ==> r == Err(BadSymbol)
    ensures timeframe > 0 && timeframe % SECOND == 0 && PlainSymbol(symbol) ==>
              var config := Config(symbol, timeframe / SECOND, quoteSource);
              && Built(config, events) == (if r.Ok? then Some(r.value) else None)
              && (r.Err? ==> exists i :: 0 <= i < |events| && Sound(config, events[..i]) && FaultAt(config, events, i) == Some(r.error))
  {
    if timeframe <= 0 || timeframe % SECOND != 0 {
      return Err(BadTimeframe);
    }
    if !PlainSymbol(symbol) {
      return Err(BadSymbol);
    }
    r := BuildBars(Config(symbol, timeframe / SECOND, quoteSource), events);
  }
}
