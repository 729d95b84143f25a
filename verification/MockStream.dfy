/** Historical candles of several timeframes played as one stream, against a clock that moves only
    when told to. Follows backend/app/adapters/live/mock_stream.py. */
module MockStream {
  import opened Wrappers
  import opened Sorting

  datatype Timeframe = M1 | M5 | M15 | M30 | H1 | H4 | D1

  function Minutes(t: Timeframe): nat {
    match t
    case M1 => 1
    case M5 => 5
    case M15 => 15
    case M30 => 30
    case H1 => 60
    case H4 => 240
    case D1 => 1440
  }

  const BY_MINUTES: seq<Timeframe> := [M1, M5, M15, M30, H1, H4, D1]

  /** Times are in seconds; `body` stands for the prices and the volume. */
  datatype Candle = Candle(openTime: int, body: string)

  type Market = map<Timeframe, seq<Candle>>

  datatype CandleEvent = CandleEvent(timeframe: Timeframe, candle: Candle, eventTime: int, sequence: Option<nat>)

  datatype SignalKind = CONNECTED | END_OF_STREAM | OTHER_SIGNAL

  datatype Step = Emit(event: CandleEvent) | Signal(kind: SignalKind) | Advance(delta: int) | Fail(message: string)

  // ---------------------------------------------------------------- the script

  datatype Item = Item(finished: int, rank: nat, timeframe: Timeframe, index: nat, candle: Candle)

  function Finished(t: Timeframe, c: Candle): int {
    c.openTime + 60 * Minutes(t)
  }

  function ToItem(t: Timeframe, rank: nat, series: seq<Candle>, i: nat): Item
    requires i < |series|
  {
    Item(Finished(t, series[i]), rank, t, i, series[i])
  }

  function SeriesItems(t: Timeframe, rank: nat, series: seq<Candle>): seq<Item> {
    seq(|series|, i requires 0 <= i < |series| => ToItem(t, rank, series, i))
  }

  /** The timeframes of a market, shortest first. */
  function Present(market: Market, ts: seq<Timeframe>): seq<Timeframe> {
    Filter((t: Timeframe) => t in market, ts)
  }

  function AllItems(market: Market, ts: seq<Timeframe>, rank: nat): seq<Item>
    requires forall t | t in ts :: t in market
  {
    if ts == [] then []
    else
      assert ts[0] in ts;
      SeriesItems(ts[0], rank, market[ts[0]]) + AllItems(market, ts[1..], rank + 1)
  }

  /** The sort key `(finished, rank)` as one number: a rank is less than 8. */
  function Moment(): Item -> int {
    (x: Item) => 8 * x.finished + x.rank
  }

  function Timeframes(market: Market): (ts: seq<Timeframe>)
    ensures forall t | t in ts :: t in market
  {
    PresentOnly(market, BY_MINUTES);
    Present(market, BY_MINUTES)
  }

  lemma PresentOnly(market: Market, ts: seq<Timeframe>)
    ensures forall t :: t in Present(market, ts) <==> t in ts && t in market
  {
    forall t ensures t in Present(market, ts) <==> t in ts && t in market {
      FilterMembers((t: Timeframe) => t in market, ts, t);
    }
  }

  function Ordering(market: Market): seq<Item> {
    SortBy(Moment(), AllItems(market, Timeframes(market), 0))
  }

  function ToEvent(sequenced: bool): Item -> CandleEvent {
    (x: Item) => CandleEvent(x.timeframe, x.candle, Finished(x.timeframe, x.candle),
                             if sequenced then Some(x.index) else None)
  }

  function Played(items: seq<Item>, spacing: int, sequenced: bool): seq<Step> {
    if items == [] then []
    else
      Played(items[..|items| - 1], spacing, sequenced)
      + [Advance(spacing), Emit(ToEvent(sequenced)(items[|items| - 1]))]
  }

  function Script(market: Market, spacing: int, sequenced: bool, end: bool): seq<Step> {
    [Signal(CONNECTED)] + Played(Ordering(market), spacing, sequenced)
    + if end then [Signal(END_OF_STREAM)] else []
  }

  lemma ItemsFrom(market: Market, ts: seq<Timeframe>, rank: nat)
    requires rank < |ts| && forall t | t in ts :: t in market
    ensures AllItems(market, ts[rank..], rank) ==
            SeriesItems(ts[rank], rank, market[ts[rank]]) + AllItems(market, ts[rank + 1..], rank + 1)
  {
    assert ts[rank..][0] == ts[rank] && ts[rank..][1..] == ts[rank + 1..];
  }

  method CollectSeries(before: seq<Item>, t: Timeframe, rank: nat, series: seq<Candle>) returns (ordered: seq<Item>)
    ensures ordered == before + SeriesItems(t, rank, series)
  {
    ordered := before;
    for i := 0 to |series|
      invariant ordered == before + SeriesItems(t, rank, series)[..i]
    {
      ordered := ordered + [ToItem(t, rank, series, i)];
    }
  }

  method Collect(market: Market, ts: seq<Timeframe>) returns (ordered: seq<Item>)
    requires forall t | t in ts :: t in market
    ensures ordered == AllItems(market, ts, 0)
  {
    ordered := [];
    assert ts[0..] == ts;
    for rank := 0 to |ts|
      invariant ordered + AllItems(market, ts[rank..], rank) == AllItems(market, ts, 0)
    {
      ItemsFrom(market, ts, rank);
      ordered := CollectSeries(ordered, ts[rank], rank, market[ts[rank]]);
    }
    assert ts[|ts|..] == [];
  }

  method HistoricalScript(market: Market, spacing: int, sequenced: bool, end: bool) returns (steps: seq<Step>)
    ensures steps == Script(market, spacing, sequenced, end)
  {
    var ordered := Collect(market, Timeframes(market));
    ordered := SortBy(Moment(), ordered);
    steps := [Signal(CONNECTED)];
    for i := 0 to |ordered|
      invariant steps == [Signal(CONNECTED)] + Played(ordered[..i], spacing, sequenced)
    {
      assert ordered[..i + 1][..i] == ordered[..i];
      steps := steps + [Advance(spacing)];
      steps := steps + [Emit(ToEvent(sequenced)(ordered[i]))];
    }
    assert ordered[..|ordered|] == ordered;
    if end {
      steps := steps + [Signal(END_OF_STREAM)];
    }
  }

  // ---------------------------------------------------------------- what the script emits

  function Events(steps: seq<Step>): seq<CandleEvent> {
    if steps == [] then []
    else Events(steps[..|steps| - 1]) + if steps[|steps| - 1].Emit? then [steps[|steps| - 1].event] else []
  }

  function OfTimeframe(t: Timeframe): Item -> bool {
    (x: Item) => x.timeframe == t
  }

  function EventOf(t: Timeframe): CandleEvent -> bool {
    (e: CandleEvent) => e.timeframe == t
  }

  lemma EventsAppend(steps: seq<Step>, s: Step)
    ensures Events(steps + [s]) == Events(steps) + if s.Emit? then [s.event] else []
  {
    assert (steps + [s])[..|steps|] == steps;
  }

  lemma {:induction false} EventsPlayed(items: seq<Item>, spacing: int, sequenced: bool)
    ensures Events([Signal(CONNECTED)] + Played(items, spacing, sequenced)) == Map(ToEvent(sequenced), items)
  {
    var start := [Signal(CONNECTED)];
    if items == [] {
      assert start + [] == start && start[..0] == [];
    } else {
      var before, x := items[..|items| - 1], items[|items| - 1];
      EventsPlayed(before, spacing, sequenced);
      var steps := start + Played(before, spacing, sequenced);
      EventsAppend(steps, Advance(spacing));
      EventsAppend(steps + [Advance(spacing)], Emit(ToEvent(sequenced)(x)));
      assert start + Played(items, spacing, sequenced) == (steps + [Advance(spacing)]) + [Emit(ToEvent(sequenced)(x))];
      assert Map(ToEvent(sequenced), items) == Map(ToEvent(sequenced), before) + [ToEvent(sequenced)(x)];
    }
  }

  lemma ScriptEvents(market: Market, spacing: int, sequenced: bool, end: bool)
    ensures Events(Script(market, spacing, sequenced, end)) == Map(ToEvent(sequenced), Ordering(market))
  {
    var steps := [Signal(CONNECTED)] + Played(Ordering(market), spacing, sequenced);
    EventsPlayed(Ordering(market), spacing, sequenced);
    if end {
      EventsAppend(steps, Signal(END_OF_STREAM));
    } else {
      assert steps + [] == steps;
    }
  }

  // ---------------------------------------------------------------- every candle once, in order

  /** The items are a timeframe's whole series, under some rank. */
  ghost predicate IsSeries(items: seq<Item>, t: Timeframe, market: Market) {
    t in market && exists rank: nat :: items == SeriesItems(t, rank, market[t])
  }

  lemma {:induction false} ItemsOf(market: Market, ts: seq<Timeframe>, rank: nat, t: Timeframe)
    requires forall u | u in ts :: u in market
    requires forall i, j | 0 <= i < j < |ts| :: ts[i] != ts[j]
    ensures t !in ts ==> Filter(OfTimeframe(t), AllItems(market, ts, rank)) == []
    ensures t in ts ==> IsSeries(Filter(OfTimeframe(t), AllItems(market, ts, rank)), t, market)
  {
    if ts != [] {
      var u, rest := ts[0], ts[1..];
      assert ts == [u] + rest;
      var mine := SeriesItems(u, rank, market[u]);
      FilterAppend(OfTimeframe(t), mine, AllItems(market, rest, rank + 1));
      ItemsOf(market, rest, rank + 1, t);
      if u == t {
        FilterAll(OfTimeframe(t), mine);
        assert t !in rest;
        assert mine + [] == mine;
      } else {
        FilterNone(OfTimeframe(t), mine);
        var others := Filter(OfTimeframe(t), AllItems(market, rest, rank + 1));
        assert [] + others == others;
      }
    }
  }

  /** One timeframe's items of the script are its own series, sorted by when each candle ended. */
  lemma OrderingOf(market: Market, t: Timeframe) returns (rank: nat)
    requires t in market
    ensures Filter(OfTimeframe(t), Ordering(market)) == SortBy(Moment(), SeriesItems(t, rank, market[t]))
  {
    var ts := Timeframes(market);
    TimeframesDistinct(market, t);
    ItemsOf(market, ts, 0, t);
    SortThenFilter(Moment(), OfTimeframe(t), AllItems(market, ts, 0));
    var mine := Filter(OfTimeframe(t), AllItems(market, ts, 0));
    rank :| mine == SeriesItems(t, rank, market[t]);
  }

  lemma TimeframesDistinct(market: Market, t: Timeframe)
    requires t in market
    ensures var ts := Timeframes(market);
            t in ts && forall i, j | 0 <= i < j < |ts| :: ts[i] != ts[j]
  {
    EveryTimeframe(t);
    PresentOnly(market, BY_MINUTES);
    TimeframesRise(market);
  }

  lemma EveryTimeframe(t: Timeframe)
    ensures t in BY_MINUTES
  {
    assert BY_MINUTES[0] == M1 && BY_MINUTES[1] == M5 && BY_MINUTES[2] == M15 && BY_MINUTES[3] == M30
           && BY_MINUTES[4] == H1 && BY_MINUTES[5] == H4 && BY_MINUTES[6] == D1;
  }

  function OpenTime(): Candle -> int {
    (c: Candle) => c.openTime
  }

  /** The event the script should emit `k`-th among a timeframe's own. */
  function ExpectedEvent(t: Timeframe, sequenced: bool, series: seq<Candle>, k: nat): CandleEvent
    requires k < |series|
  {
    CandleEvent(t, series[k], Finished(t, series[k]), if sequenced then Some(k) else None)
  }

  function ExpectedEvents(t: Timeframe, sequenced: bool, series: seq<Candle>): seq<CandleEvent> {
    seq(|series|, k requires 0 <= k < |series| => ExpectedEvent(t, sequenced, series, k))
  }

  lemma FilterThenMap<T, U>(f: T -> U, keep: T -> bool, keep': U -> bool, xs: seq<T>)
    requires forall x :: keep'(f(x)) == keep(x)
    ensures Filter(keep', Map(f, xs)) == Map(f, Filter(keep, xs))
  {
    if xs != [] {
      FilterThenMap(f, keep, keep', xs[1..]);
      assert Map(f, xs) == [f(xs[0])] + Map(f, xs[1..]);
      assert Map(f, xs)[1..] == Map(f, xs[1..]);
    }
  }

  /** Every candle of a timeframe is emitted exactly once, and the `k`-th one emitted is the
      `k`-th of its series and carries sequence `k` - if and only if the series never goes back in
      open time. (The sort is stable, so candles with one open time keep their order.) */
  lemma EachCandleOnceInOrderIff(market: Market, t: Timeframe, spacing: int, end: bool)
    requires t in market
    ensures Filter(EventOf(t), Events(Script(market, spacing, true, end))) == ExpectedEvents(t, true, market[t])
            <==> Ordered(OpenTime(), market[t])
  {
    var series := market[t];
    var rank := OrderingOf(market, t);
    ScriptEvents(market, spacing, true, end);
    FilterThenMap(ToEvent(true), OfTimeframe(t), EventOf(t), Ordering(market));
    var items := SeriesItems(t, rank, series);
    SortFixesExactlyOrdered(Moment(), items);
    MomentsOrderedIff(t, rank, series);
    SameEventsIff(SortBy(Moment(), items), t, rank, series);
  }

  lemma MomentsOrderedIff(t: Timeframe, rank: nat, series: seq<Candle>)
    ensures Ordered(Moment(), SeriesItems(t, rank, series)) <==> Ordered(OpenTime(), series)
  {
    var items := SeriesItems(t, rank, series);
    assert forall i | 0 <= i < |series| :: Moment()(items[i]) == 8 * (OpenTime()(series[i]) + 60 * Minutes(t)) + rank;
  }

  lemma SameEventsIff(sorted: seq<Item>, t: Timeframe, rank: nat, series: seq<Candle>)
    requires sorted == SortBy(Moment(), SeriesItems(t, rank, series))
    ensures Map(ToEvent(true), sorted) == ExpectedEvents(t, true, series) <==> sorted == SeriesItems(t, rank, series)
  {
    var items := SeriesItems(t, rank, series);
    assert Map(ToEvent(true), items) == ExpectedEvents(t, true, series);
    SortMembers(Moment(), items);
    if Map(ToEvent(true), sorted) == ExpectedEvents(t, true, series) {
      forall i | 0 <= i < |items| ensures sorted[i] == items[i] {
        assert sorted[i] in items;
        var k :| 0 <= k < |items| && items[k] == sorted[i];
        assert Map(ToEvent(true), sorted)[i].sequence == ExpectedEvents(t, true, series)[i].sequence;
      }
    }
  }

  // ---------------------------------------------------------------- no look-ahead

  lemma {:induction false} ItemShape(market: Market, ts: seq<Timeframe>, rank: nat, x: Item)
    requires forall u | u in ts :: u in market
    requires x in AllItems(market, ts, rank)
    ensures rank <= x.rank < rank + |ts| && x.timeframe == ts[x.rank - rank]
    ensures x.index < |market[x.timeframe]| && x.candle == market[x.timeframe][x.index]
    ensures x.finished == Finished(x.timeframe, x.candle)
  {
    var u, rest := ts[0], ts[1..];
    assert ts == [u] + rest;
    if x in SeriesItems(u, rank, market[u]) {
    } else {
      ItemShape(market, rest, rank + 1, x);
    }
  }

  lemma {:induction false} FilterOfRising(ts: seq<Timeframe>, keep: Timeframe -> bool)
    requires forall i, j | 0 <= i < j < |ts| :: Minutes(ts[i]) < Minutes(ts[j])
    ensures var r := Filter(keep, ts);
            |r| <= |ts| && forall i, j | 0 <= i < j < |r| :: Minutes(r[i]) < Minutes(r[j])
  {
    if ts != [] {
      var rest := ts[1..];
      FilterOfRising(rest, keep);
      forall u | u in Filter(keep, rest) ensures Minutes(ts[0]) < Minutes(u) {
        FilterMembers(keep, rest, u);
        var i :| 0 <= i < |rest| && rest[i] == u;
        assert ts[i + 1] == u;
      }
    }
  }

  lemma TimeframesRise(market: Market)
    ensures var ts := Timeframes(market);
            |ts| <= 7 && forall i, j | 0 <= i < j < |ts| :: Minutes(ts[i]) < Minutes(ts[j])
  {
    FilterOfRising(BY_MINUTES, (t: Timeframe) => t in market);
  }

  lemma MomentsCompare(x: Item, y: Item)
    requires Moment()(x) <= Moment()(y) && x.rank < 8 && y.rank < 8
    ensures x.finished <= y.finished && (x.finished == y.finished ==> x.rank <= y.rank)
  {
  }

  lemma SortedFrom(items: seq<Item>, x: Item)
    requires x in SortBy(Moment(), items)
    ensures x in items
  {
    SortMembers(Moment(), items);
  }

  lemma SortedRanks(market: Market, ts: seq<Timeframe>, x: Item, y: Item)
    requires forall t | t in ts :: t in market
    requires |ts| <= 7 && forall i, j | 0 <= i < j < |ts| :: Minutes(ts[i]) < Minutes(ts[j])
    requires x in AllItems(market, ts, 0) && y in AllItems(market, ts, 0)
    ensures x.rank < 8 && y.rank < 8 && (x.rank <= y.rank ==> Minutes(x.timeframe) <= Minutes(y.timeframe))
    ensures x.finished == Finished(x.timeframe, x.candle)
  {
    ItemShape(market, ts, 0, x);
    ItemShape(market, ts, 0, y);
  }

  lemma RanksAreMinutes(market: Market, x: Item, y: Item)
    requires x in Ordering(market) && y in Ordering(market)
    ensures x.rank < 8 && y.rank < 8 && (x.rank <= y.rank ==> Minutes(x.timeframe) <= Minutes(y.timeframe))
    ensures x.finished == Finished(x.timeframe, x.candle)
  {
    var ts := Timeframes(market);
    TimeframesRise(market);
    SortedFrom(AllItems(market, ts, 0), x);
    SortedFrom(AllItems(market, ts, 0), y);
    SortedRanks(market, ts, x, y);
  }

  lemma OrderedItems(market: Market, i: nat, j: nat)
    requires i <= j < |Ordering(market)|
    ensures var x, y := Ordering(market)[i], Ordering(market)[j];
            && x.finished <= y.finished
            && (x.finished == y.finished ==> Minutes(x.timeframe) <= Minutes(y.timeframe))
  {
    var items := Ordering(market);
    SortOrders(Moment(), AllItems(market, Timeframes(market), 0));
    assert i < j ==> Moment()(items[i]) <= Moment()(items[j]);
    RanksAreMinutes(market, items[i], items[j]);
    MomentsCompare(items[i], items[j]);
  }

  /** The seconds of each timeframe, written out. */
  ghost function Seconds(t: Timeframe): int {
    match t
    case M1 => 60
    case M5 => 300
    case M15 => 900
    case M30 => 1800
    case H1 => 3600
    case H4 => 14400
    case D1 => 86400
  }

  /** Every event is a candle of the market, stamped with the end of its interval: the moment it
      became a confirmed fact. */
  lemma EventsEndTheirIntervals(market: Market, spacing: int, sequenced: bool, end: bool, i: nat)
    requires i < |Events(Script(market, spacing, sequenced, end))|
    ensures var e := Events(Script(market, spacing, sequenced, end))[i];
            && e.eventTime == e.candle.openTime + Seconds(e.timeframe)
            && e.timeframe in market && e.candle in market[e.timeframe]
            && (e.sequence.Some? <==> sequenced)
            && (sequenced ==> e.sequence.value < |market[e.timeframe]|
                              && e.candle == market[e.timeframe][e.sequence.value])
  {
    var ts := Timeframes(market);
    ScriptEvents(market, spacing, sequenced, end);
    SortedFrom(AllItems(market, ts, 0), Ordering(market)[i]);
    ItemShape(market, ts, 0, Ordering(market)[i]);
    assert Ordering(market)[i].timeframe in ts;
  }

  /** Intervals end in the order in which they are emitted; and of two ending together the shorter
      comes first. So no candle is emitted before a finer one that finishes at or before it. */
  lemma NoLookAhead(market: Market, spacing: int, sequenced: bool, end: bool, i: nat, j: nat)
    requires i < j < |Events(Script(market, spacing, sequenced, end))|
    ensures var events := Events(Script(market, spacing, sequenced, end));
            var x, y := events[i], events[j];
            && x.candle.openTime + Seconds(x.timeframe) <= y.candle.openTime + Seconds(y.timeframe)
            && !(&& Seconds(y.timeframe) < Seconds(x.timeframe)
                 && y.candle.openTime + Seconds(y.timeframe) <= x.candle.openTime + Seconds(x.timeframe))
  {
    ScriptEvents(market, spacing, sequenced, end);
    EventsEndTheirIntervals(market, spacing, sequenced, end, i);
    EventsEndTheirIntervals(market, spacing, sequenced, end, j);
    OrderedItems(market, i, j);
    RanksAreMinutes(market, Ordering(market)[i], Ordering(market)[j]);
    RanksAreMinutes(market, Ordering(market)[j], Ordering(market)[i]);
  }

  /** When a candle is emitted, every finer candle of the market that had finished by its end has
      been emitted before it. */
  lemma FinerCandlesCameFirst(market: Market, spacing: int, sequenced: bool, end: bool, j: nat, t: Timeframe, k: nat)
    returns (i: nat)
    requires j < |Events(Script(market, spacing, sequenced, end))| && t in market && k < |market[t]|
    requires var coarse := Events(Script(market, spacing, sequenced, end))[j];
             && Seconds(t) < Seconds(coarse.timeframe)
             && market[t][k].openTime + Seconds(t) <= coarse.candle.openTime + Seconds(coarse.timeframe)
    ensures i < j
    ensures var e := Events(Script(market, spacing, sequenced, end))[i];
            e.timeframe == t && e.candle == market[t][k] && (sequenced ==> e.sequence == Some(k))
  {
    var rank := OrderingOf(market, t);
    ScriptEvents(market, spacing, sequenced, end);
    var x := SeriesItems(t, rank, market[t])[k];
    SortMembers(Moment(), SeriesItems(t, rank, market[t]));
    FilterMembers(OfTimeframe(t), Ordering(market), x);
    i :| 0 <= i < |Ordering(market)| && Ordering(market)[i] == x;
    if j < i {
      NoLookAhead(market, spacing, sequenced, end, j, i);
    }
  }

  lemma MultiplesAreApart(fine: int, d: int)
    requires fine > 0
    ensures d >= 1 ==> fine * d >= fine
    ensures d <= 0 ==> fine * d <= 0
  {
  }

  lemma NextMultiple(fine: int, k: int, m: int)
    requires fine > 0 && fine * k < fine * m
    ensures fine * k + fine <= fine * m
  {
    assert fine * (m - k) == fine * m - fine * k;
    MultiplesAreApart(fine, m - k);
  }

  lemma MultiplesMeet(a: int, b: int, fine: int, ratio: int)
    requires fine > 0 && ratio > 0 && a % (fine * ratio) == 0 && b % fine == 0
    requires a <= b < a + fine * ratio
    ensures b + fine <= a + fine * ratio
  {
    var q, k := a / (fine * ratio), b / fine;
    var m := ratio * q + ratio;
    assert a == fine * ratio * q && b == fine * k;
    assert fine * m == a + fine * ratio;
    NextMultiple(fine, k, m);
  }

  lemma SecondsDivide(t: Timeframe, u: Timeframe) returns (ratio: int)
    requires Seconds(t) < Seconds(u)
    ensures ratio > 0 && Seconds(u) == Seconds(t) * ratio
  {
    ratio := Seconds(u) / Seconds(t);
  }

  /** With candles that open on the hour, the quarter, ... of their timeframe: a candle comes after
      every finer one that opens within its interval. */
  lemma CandlesInsideCameFirst(
      market: Market, spacing: int, sequenced: bool, end: bool, j: nat, t: Timeframe, k: nat)
    returns (i: nat)
    requires j < |Events(Script(market, spacing, sequenced, end))| && t in market && k < |market[t]|
    requires var coarse, fine := Events(Script(market, spacing, sequenced, end))[j], market[t][k].openTime;
             && Seconds(t) < Seconds(coarse.timeframe)
             && coarse.candle.openTime % Seconds(coarse.timeframe) == 0 && fine % Seconds(t) == 0
             && coarse.candle.openTime <= fine < coarse.candle.openTime + Seconds(coarse.timeframe)
    ensures i < j
    ensures var e := Events(Script(market, spacing, sequenced, end))[i];
            e.timeframe == t && e.candle == market[t][k] && (sequenced ==> e.sequence == Some(k))
  {
    var coarse := Events(Script(market, spacing, sequenced, end))[j];
    var ratio := SecondsDivide(t, coarse.timeframe);
    MultiplesMeet(coarse.candle.openTime, market[t][k].openTime, Seconds(t), ratio);
    i := FinerCandlesCameFirst(market, spacing, sequenced, end, j, t, k);
  }

  // ---------------------------------------------------------------- the clock and the subscription

  datatype Delivery = Event(event: CandleEvent) | Sent(kind: SignalKind) | Ended | Failed(message: string)

  /** A receive-side clock that moves only when told to. */
  class ManualClock {
    var now: int

    constructor (start: int)
      ensures now == start
    {
      now := start;
    }

    /** False, and the clock unmoved, for the error it raises when asked to run backwards. */
    method Tick(delta: int) returns (ok: bool)
      modifies this
      ensures ok == (delta >= 0) && now == old(now) + if ok then delta else 0
    {
      if delta < 0 {
        return false;
      }
      now := now + delta;
      ok := true;
    }
  }

  const BACKWARDS := "a clock does not run backwards"

  /** From `at`, the next thing a reader gets, where the script then stands, and the clock's time. */
  function NextOf(script: seq<Step>, at: nat, now: int): (r: (Delivery, nat, int))
    requires at <= |script|
    ensures r.1 <= |script| && (r.0.Ended? || r.1 > at)
    decreases |script| - at
  {
    if at == |script| then (Ended, at, now)
    else
      match script[at]
      case Advance(delta) =>
        if delta < 0 then (Failed(BACKWARDS), |script|, now) else NextOf(script, at + 1, now + delta)
      case Emit(event) => (Event(event), at + 1, now)
      case Signal(kind) => (Sent(kind), at + 1, now)
      case Fail(message) => (Failed(message), |script|, now)
  }

  /** `at` is where the generator stands; after an error or the end it stands past the script. */
  class Subscription {
    const script: seq<Step>
    const clock: ManualClock
    var at: nat
    var closed: bool

    ghost predicate Valid()
      reads this
    {
      at <= |script|
    }

    constructor (script: seq<Step>, clock: ManualClock)
      ensures Valid() && this.script == script && this.clock == clock && at == 0 && !closed
    {
      this.script, this.clock := script, clock;
      at, closed := 0, false;
    }

    /** Runs the generator to its next item. A closed subscription yields nothing more. */
    method Next() returns (d: Delivery)
      requires Valid()
      modifies this`at, clock
      ensures Valid()
      ensures if old(closed) then d == Ended && at == |script| && clock.now == old(clock.now)
              else (d, at, clock.now) == NextOf(script, old(at), old(clock.now))
    {
      while at < |script|
        invariant at <= |script| && closed == old(closed)
        invariant closed ==> clock.now == old(clock.now)
        invariant !closed ==> NextOf(script, at, clock.now) == NextOf(script, old(at), old(clock.now))
        decreases |script| - at
      {
        if closed {
          at := |script|;
          return Ended;
        }
        var step := script[at];
        match step {
          case Advance(delta) =>
            var ok := clock.Tick(delta);
            if !ok {
              at := |script|;
              return Failed(BACKWARDS);
            }
            at := at + 1;
          case Emit(event) =>
            at := at + 1;
            return Event(event);
          case Signal(kind) =>
            at := at + 1;
            return Sent(kind);
          case Fail(message) =>
            at := |script|;
            return Failed(message);
        }
      }
      d := Ended;
    }

    method Close()
      modifies this`closed
      ensures closed
    {
      closed := true;
    }
  }

  /** What a reader of the whole script gets, with the clock's time at each item. */
  function Heard(script: seq<Step>, at: nat, now: int): seq<(Delivery, int)>
    requires at <= |script|
    decreases |script| - at
  {
    var (d, next, later) := NextOf(script, at, now);
    if d.Ended? then [] else [(d, later)] + Heard(script, next, later)
  }

  /** What any script means to its reader, step by step: a candle or a signal is heard at the clock's
      time; waiting moves the clock, which does not run backwards; a failure is the last thing heard. */
  lemma HeardIs(script: seq<Step>, at: nat, now: int)
    requires at <= |script|
    ensures at == |script| ==> Heard(script, at, now) == []
    ensures at < |script| ==>
              Heard(script, at, now) ==
              match script[at]
              case Advance(delta) =>
                if delta < 0 then [(Failed("a clock does not run backwards"), now)]
                else Heard(script, at + 1, now + delta)
              case Emit(event) => [(Event(event), now)] + Heard(script, at + 1, now)
              case Signal(kind) => [(Sent(kind), now)] + Heard(script, at + 1, now)
              case Fail(message) => [(Failed(message), now)]
  {
    assert Heard(script, |script|, now) == [];
  }

  lemma {:induction false} PlayedAt(items: seq<Item>, spacing: int, sequenced: bool, k: nat)
    requires k < |items|
    ensures var steps := Played(items, spacing, sequenced);
            |steps| == 2 * |items| && steps[2 * k] == Advance(spacing)
            && steps[2 * k + 1] == Emit(ToEvent(sequenced)(items[k]))
  {
    var before := items[..|items| - 1];
    if k < |before| {
      PlayedAt(before, spacing, sequenced, k);
    } else {
      PlayedLength(before, spacing, sequenced);
    }
  }

  lemma {:induction false} PlayedLength(items: seq<Item>, spacing: int, sequenced: bool)
    ensures |Played(items, spacing, sequenced)| == 2 * |items|
  {
    if items != [] {
      PlayedLength(items[..|items| - 1], spacing, sequenced);
    }
  }

  /** Candle events, one spacing of the clock apart, then the end if it is announced. */
  function HeardFrom(items: seq<Item>, spacing: int, sequenced: bool, end: bool, now: int): seq<(Delivery, int)> {
    if items == [] then (if end then [(Sent(END_OF_STREAM), now)] else [])
    else
      [(Event(ToEvent(sequenced)(items[0])), now + spacing)]
      + HeardFrom(items[1..], spacing, sequenced, end, now + spacing)
  }

  lemma {:induction false} HearsItems(
    script: seq<Step>, items: seq<Item>, spacing: int, sequenced: bool, end: bool, k: nat, now: int)
    requires spacing >= 0 && k <= |items|
    requires script == [Signal(CONNECTED)] + Played(items, spacing, sequenced)
                       + if end then [Signal(END_OF_STREAM)] else []
    ensures |script| >= 1 + 2 * k
    ensures Heard(script, 1 + 2 * k, now) == HeardFrom(items[k..], spacing, sequenced, end, now)
    decreases |items| - k
  {
    PlayedLength(items, spacing, sequenced);
    if k < |items| {
      PlayedAt(items, spacing, sequenced, k);
      var at := 1 + 2 * k;
      assert script[at] == Advance(spacing) && script[at + 1] == Emit(ToEvent(sequenced)(items[k]));
      assert NextOf(script, at, now) == NextOf(script, at + 1, now + spacing);
      HearsItems(script, items, spacing, sequenced, end, k + 1, now + spacing);
      assert items[k..][1..] == items[k + 1..];
    } else if end {
      assert script[1 + 2 * k] == Signal(END_OF_STREAM);
      assert Heard(script, |script|, now) == [];
    }
  }

  /** A reader of a historical script hears it whole, the clock moving by the spacing before every
      candle - unless the spacing is negative: then it hears of the connection and of the clock's
      error, and no candle at all. */
  lemma HistoricalScriptIsHeard(market: Market, spacing: int, sequenced: bool, end: bool, now: int)
    ensures Heard(Script(market, spacing, sequenced, end), 0, now) ==
            if spacing >= 0 || Ordering(market) == [] then
              [(Sent(CONNECTED), now)] + HeardFrom(Ordering(market), spacing, sequenced, end, now)
            else
              [(Sent(CONNECTED), now), (Failed(BACKWARDS), now)]
  {
    ScriptIsHeard(Script(market, spacing, sequenced, end), Ordering(market), spacing, sequenced, end, now);
  }

  lemma ScriptIsHeard(script: seq<Step>, items: seq<Item>, spacing: int, sequenced: bool, end: bool, now: int)
    requires script == [Signal(CONNECTED)] + Played(items, spacing, sequenced)
                       + if end then [Signal(END_OF_STREAM)] else []
    ensures Heard(script, 0, now) ==
            if spacing >= 0 || items == [] then
              [(Sent(CONNECTED), now)] + HeardFrom(items, spacing, sequenced, end, now)
            else
              [(Sent(CONNECTED), now), (Failed(BACKWARDS), now)]
  {
    assert Heard(script, 0, now) == [(Sent(CONNECTED), now)] + Heard(script, 1, now);
    if spacing >= 0 {
      HearsItems(script, items, spacing, sequenced, end, 0, now);
      assert items[0..] == items;
    } else if items == [] {
      assert end ==> script[1] == Signal(END_OF_STREAM) && Heard(script, 2, now) == [];
    } else {
      PlayedAt(items, spacing, sequenced, 0);
      assert script[1] == Advance(spacing);
      assert Heard(script, |script|, now) == [];
    }
  }

  // ---------------------------------------------------------------- resending

  /** The archived events after a sequence, at most `limit`; events without one are never resent. */
  function Backfill(archive: seq<CandleEvent>, after: int, limit: nat): seq<CandleEvent> {
    var found := Filter(NewerThan(after), archive);
    if |found| > limit then found[..limit] else found
  }

  function NewerThan(after: int): CandleEvent -> bool {
    (e: CandleEvent) => e.sequence.Some? && e.sequence.value > after
  }

  /** Resending sends what it was asked for and nothing else: archived events with a later sequence, up to
      the limit; and below the limit, all of them. */
  lemma BackfillIs(archive: seq<CandleEvent>, after: int, limit: nat, e: CandleEvent)
    ensures var r := Backfill(archive, after, limit);
            var wanted := e in archive && e.sequence.Some? && e.sequence.value > after;
            && |r| <= limit && (e in r ==> wanted) && (|r| < limit ==> (e in r <==> wanted))
  {
    FilterMembers(NewerThan(after), archive, e);
  }

  /** The first index, from `from` on, that comes after `after`. */
  function FirstAfter(after: int, from: nat, count: nat): nat {
    if after + 1 <= from then from else if after + 1 <= count then after + 1 else count
  }

  lemma {:induction false} FoundAfter(all: seq<CandleEvent>, after: int, from: nat)
    requires from <= |all| && forall k | 0 <= k < |all| :: all[k].sequence == Some(k as nat)
    ensures Filter(NewerThan(after), all[from..]) == all[FirstAfter(after, from, |all|)..]
    decreases |all| - from
  {
    if from < |all| {
      assert all[from..] == [all[from]] + all[from + 1..];
      assert all[from..][1..] == all[from + 1..];
      FoundAfter(all, after, from + 1);
    }
  }

  /** Backfilling a played series resumes exactly after the last sequence seen: the very next
      candles, none missing and none twice; all of them from the start, and none at the end. */
  lemma BackfillResumes(t: Timeframe, series: seq<Candle>, after: int, limit: nat)
    ensures var first := FirstAfter(after, 0, |series|);
            var end := if first + limit <= |series| then first + limit else |series|;
            Backfill(ExpectedEvents(t, true, series), after, limit) == ExpectedEvents(t, true, series)[first..end]
  {
    ResumesAt(ExpectedEvents(t, true, series), after, limit);
  }

  lemma ResumesAt(all: seq<CandleEvent>, after: int, limit: nat)
    requires forall k | 0 <= k < |all| :: all[k].sequence == Some(k as nat)
    ensures var first := FirstAfter(after, 0, |all|);
            Backfill(all, after, limit) == all[first..if first + limit <= |all| then first + limit else |all|]
  {
    assert all[0..] == all;
    FoundAfter(all, after, 0);
    SliceOfRest(all, FirstAfter(after, 0, |all|), limit);
  }

  lemma SliceOfRest<T>(xs: seq<T>, from: nat, limit: nat)
    requires from <= |xs|
    ensures var rest := xs[from..];
            (if |rest| > limit then rest[..limit] else rest)
            == xs[from..if from + limit <= |xs| then from + limit else |xs|]
  {
  }
}
