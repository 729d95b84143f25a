/** A reproducible synthetic market: candle `n` of a series is the same candle in every window that
    shows it. Follows backend/app/adapters/market_data/synthetic_provider.py. */
module SyntheticProvider {
  import opened Sorting

  /** Times are in seconds, `interval` is a timeframe's length; prices are in cents. */
  datatype Profile = Profile(
    basePrice: real, trendPerCandle: real, amplitude: real, cycle: int, baseVolume: real, volumeAmplitude: real)

  datatype Candle = Candle(
    openTime: int, open: int, high: int, low: int, close: int, volume: int, isClosed: bool)

  // ---------------------------------------------------------------- rounding and the wave

  /** To the nearest whole number, a half to the even one. */
  function RoundHalfEven(x: real): int {
    var down := x.Floor;
    var part := x - down as real;
    if part < 0.5 || (part == 0.5 && down % 2 == 0) then down else down + 1
  }

  function Cents(x: real): int {
    RoundHalfEven(x * 100.0)
  }

  /** The wave's numerator over `cycle`: exact, before it is rounded to six places. */
  function Numerator(index: int, cycle: int, shift: int): int
    requires cycle >= 2
  {
    var position := (index + shift) % cycle;
    if 2 * position < cycle then 4 * position - cycle else 3 * cycle - 4 * position
  }

  function Triangle(index: int, cycle: int, shift: int): real
    requires cycle >= 2
  {
    RoundHalfEven(Numerator(index, cycle, shift) as real / cycle as real * 1000000.0) as real / 1000000.0
  }

  function Max(a: int, b: int): int {
    if a >= b then a else b
  }

  function Min(a: int, b: int): int {
    if a <= b then a else b
  }

  /** Whole cents as an amount, and rounded again as the source rounds every price. */
  function Requantized(cents: int): int {
    Cents(cents as real / 100.0)
  }

  function PriceAt(level: real, amplitude: real, wave: real): int {
    Cents(level + amplitude * wave)
  }

  function VolumeAt(base: real, amplitude: real, wave: real): int {
    Cents(if base + amplitude * wave >= 1.0 then base + amplitude * wave else 1.0)
  }

  function Drifted(p: Profile, index: int): real {
    p.basePrice + p.trendPerCandle * index as real
  }

  /** The price drifts by the candle, and the wave goes on top. */
  function OpenAt(p: Profile, index: int): int
    requires p.cycle >= 2
  {
    PriceAt(Drifted(p, index), p.amplitude, Triangle(index, p.cycle, 0))
  }

  function CloseAt(p: Profile, index: int): int
    requires p.cycle >= 2
  {
    PriceAt(Drifted(p, index), p.amplitude, Triangle(index, p.cycle, p.cycle / 3))
  }

  function CandleAt(p: Profile, origin: int, interval: int, index: int): Candle
    requires p.cycle >= 2
  {
    var open, close := OpenAt(p, index), CloseAt(p, index);
    var spread := Cents(p.amplitude / 4.0);
    Candle(origin + index * interval, open, Requantized(Max(open, close) + spread),
           Requantized(Min(open, close) - spread), close,
           VolumeAt(p.baseVolume, p.volumeAmplitude, Triangle(index, p.cycle, p.cycle / 2)), true)
  }

  // ---------------------------------------------------------------- windows

  function CeilDiv(a: int, b: int): int
    requires b > 0
  {
    -((-a) / b)
  }

  function Generate(p: Profile, origin: int, interval: int, offset: int, count: nat): seq<Candle>
    requires p.cycle >= 2
  {
    seq(count, k requires 0 <= k < count => CandleAt(p, origin, interval, offset + k))
  }

  /** A provider without defects. */
  function GetCandles(p: Profile, origin: int, interval: int, start: int, end: int): seq<Candle>
    requires p.cycle >= 2 && interval > 0
  {
    if end <= start then []
    else
      var first := Max(0, CeilDiv(start - origin, interval));
      var last := CeilDiv(end - origin, interval);
      if last <= first then [] else Generate(p, origin, interval, first, last - first)
  }

  lemma CeilDivIs(a: int, b: int, n: int)
    requires b > 0
    ensures CeilDiv(a, b) <= n <==> a <= n * b
  {
    var q := (-a) / b;
    assert q * b <= -a < q * b + b;
    if -q <= n {
      assert -q * b <= n * b;
    } else {
      assert n * b <= (-q - 1) * b;
    }
  }

  /** The index of a candle is in the window exactly when its open time is. */
  lemma InWindowIff(origin: int, interval: int, start: int, end: int, n: int)
    requires interval > 0
    ensures CeilDiv(start - origin, interval) <= n < CeilDiv(end - origin, interval) <==>
            start <= origin + n * interval < end
  {
    CeilDivIs(start - origin, interval, n);
    CeilDivIs(end - origin, interval, n);
  }

  lemma CeilDivRises(a: int, a': int, b: int)
    requires b > 0 && a <= a'
    ensures CeilDiv(a, b) <= CeilDiv(a', b)
  {
    CeilDivIs(a', b, CeilDiv(a', b));
    CeilDivIs(a, b, CeilDiv(a', b));
  }

  /** A window holds exactly the candles with a non-negative index that open in it, in order. */
  lemma WindowIsExact(p: Profile, origin: int, interval: int, start: int, end: int, n: nat)
    requires p.cycle >= 2 && interval > 0
    ensures CandleAt(p, origin, interval, n) in GetCandles(p, origin, interval, start, end) <==>
            start <= origin + n * interval < end
  {
    var first, last := Max(0, CeilDiv(start - origin, interval)), CeilDiv(end - origin, interval);
    InWindowIff(origin, interval, start, end, n);
    if start < end && first < last {
      GeneratedIff(p, origin, interval, first, last - first, n);
    }
  }

  lemma GeneratedIff(p: Profile, origin: int, interval: int, first: int, count: nat, n: int)
    requires p.cycle >= 2 && interval > 0
    ensures CandleAt(p, origin, interval, n) in Generate(p, origin, interval, first, count) <==>
            first <= n < first + count
  {
    SeriesHasIff((i: int) => CandleAt(p, origin, interval, i), Generate(p, origin, interval, first, count),
                 origin, interval, first, n);
  }

  lemma SeriesHasIff(candleAt: int -> Candle, cs: seq<Candle>, origin: int, interval: int, first: int, n: int)
    requires interval > 0 && forall i :: candleAt(i).openTime == origin + i * interval
    requires forall k | 0 <= k < |cs| :: cs[k] == candleAt(first + k)
    ensures candleAt(n) in cs <==> first <= n < first + |cs|
  {
    if first <= n < first + |cs| {
      assert cs[n - first] == candleAt(n);
    }
    if candleAt(n) in cs {
      var k :| 0 <= k < |cs| && cs[k] == candleAt(n);
      SameTimeSameIndex(origin, interval, first + k, n);
    }
  }

  lemma MultiplesAreApart(k: int, d: int)
    requires d > 0
    ensures k >= 1 ==> d * k >= d
    ensures k <= -1 ==> d * k <= -d
  {
  }

  lemma SameTimeSameIndex(origin: int, interval: int, a: int, b: int)
    requires interval > 0 && origin + a * interval == origin + b * interval
    ensures a == b
  {
    assert interval * (a - b) == 0;
    MultiplesAreApart(a - b, interval);
  }

  /** Any window is the matching stretch of any window around it. */
  lemma WindowIsSliceOfWider(p: Profile, origin: int, interval: int, start: int, end: int, start': int, end': int)
    returns (lo: nat, hi: nat)
    requires p.cycle >= 2 && interval > 0 && start' <= start && end <= end'
    ensures var wide := GetCandles(p, origin, interval, start', end');
            lo <= hi <= |wide| && GetCandles(p, origin, interval, start, end) == wide[lo..hi]
  {
    var wide := GetCandles(p, origin, interval, start', end');
    CeilDivRises(start' - origin, start - origin, interval);
    CeilDivRises(end - origin, end' - origin, interval);
    var first, last := Max(0, CeilDiv(start - origin, interval)), CeilDiv(end - origin, interval);
    var first' := Max(0, CeilDiv(start' - origin, interval));
    if end <= start || last <= first {
      lo, hi := 0, 0;
    } else {
      lo, hi := first - first', last - first';
    }
  }

  // ---------------------------------------------------------------- the shape of a candle

  /** The wave stays within one either way, and moves at most four parts of a cycle a candle - also
      from the end of a cycle to the start of the next. */
  lemma WaveIsBounded(index: int, cycle: int, shift: int)
    requires cycle >= 2
    ensures var n, next := Numerator(index, cycle, shift), Numerator(index + 1, cycle, shift);
            -cycle <= n <= cycle && -4 <= next - n <= 4
  {
    var position := (index + shift) % cycle;
    NextPosition(index + shift, cycle);
  }

  lemma NextPosition(i: int, cycle: int)
    requires cycle >= 2
    ensures (i + 1) % cycle == if i % cycle == cycle - 1 then 0 else i % cycle + 1
  {
    var q, r := i / cycle, i % cycle;
    assert i + 1 == cycle * q + (r + 1);
    if r == cycle - 1 {
      assert i + 1 == cycle * (q + 1);
      MultipleHasNoRest(q + 1, cycle);
    } else {
      RestOf(q, r + 1, cycle);
    }
  }

  lemma MultipleHasNoRest(q: int, cycle: int)
    requires cycle >= 2
    ensures (cycle * q) % cycle == 0
  {
    RestOf(q, 0, cycle);
  }

  lemma RestOf(q: int, r: int, cycle: int)
    requires cycle >= 2 && 0 <= r < cycle
    ensures (cycle * q + r) % cycle == r
  {
    DivisionIsUnique(cycle, q, r, (cycle * q + r) / cycle, (cycle * q + r) % cycle);
  }

  lemma DivisionIsUnique(d: int, q: int, r: int, q': int, r': int)
    requires d > 0 && 0 <= r < d && 0 <= r' < d && d * q + r == d * q' + r'
    ensures r == r'
  {
    assert d * (q - q') == r' - r;
    MultiplesAreApart(q - q', d);
  }

  lemma WholeCentsStay(n: int)
    ensures Requantized(n) == n
  {
    assert n as real / 100.0 * 100.0 == n as real;
  }

  /** High and low enclose open and close exactly when the spread does not round below zero: for
      every amplitude that is not negative. */
  lemma CandleEnclosesIff(p: Profile, origin: int, interval: int, index: int)
    requires p.cycle >= 2
    ensures var c := CandleAt(p, origin, interval, index);
            (c.low <= Min(c.open, c.close) && Max(c.open, c.close) <= c.high) <==> Cents(p.amplitude / 4.0) >= 0
    ensures p.amplitude >= 0.0 ==> Cents(p.amplitude / 4.0) >= 0
  {
    var c := CandleAt(p, origin, interval, index);
    var spread := Cents(p.amplitude / 4.0);
    WholeCentsStay(Max(c.open, c.close) + spread);
    WholeCentsStay(Min(c.open, c.close) - spread);
  }

  function Product(x: real, y: real): real {
    x * y
  }

  /** The nearest whole number to `x`, the even one of two that are equally near. */
  ghost predicate IsNearest(r: int, x: real) {
    && -0.5 <= x - r as real <= 0.5
    && (x - r as real == 0.5 || x - r as real == -0.5 ==> r % 2 == 0)
  }

  lemma RoundIsNearest(x: real)
    ensures IsNearest(RoundHalfEven(x), x)
  {
  }

  /** The wave rises from one end of a cycle to its middle and falls again, in a straight line: its
      height is by how much the position is nearer to the middle than a quarter of a cycle. */
  lemma WaveIs(index: int, cycle: int, shift: int)
    requires cycle >= 2
    ensures var offset := 2 * ((index + shift) % cycle) - cycle;
            Numerator(index, cycle, shift) == cycle - 2 * (if offset >= 0 then offset else -offset)
  {
  }

  /** A price is its level moved by its wave, to the nearest cent. */
  lemma PriceIsNearest(level: real, amplitude: real, wave: real)
    ensures IsNearest(PriceAt(level, amplitude, wave), (level + amplitude * wave) * 100.0)
  {
    RoundIsNearest((level + amplitude * wave) * 100.0);
  }

  /** The open follows drift and wave; so does the close, a third of a cycle on; and the volume has a
      wave of its own, half a cycle on. */
  lemma OpenIs(p: Profile, origin: int, interval: int, index: int)
    requires p.cycle >= 2
    ensures CandleAt(p, origin, interval, index).open ==
            PriceAt(Drifted(p, index), p.amplitude, Triangle(index, p.cycle, 0))
  {
    assert CandleAt(p, origin, interval, index).open == OpenAt(p, index);
  }

  lemma CloseIs(p: Profile, origin: int, interval: int, index: int)
    requires p.cycle >= 2
    ensures CandleAt(p, origin, interval, index).close ==
            PriceAt(Drifted(p, index), p.amplitude, Triangle(index, p.cycle, p.cycle / 3))
  {
    assert CandleAt(p, origin, interval, index).close == CloseAt(p, index);
  }

  lemma VolumeIs(p: Profile, origin: int, interval: int, index: int)
    requires p.cycle >= 2
    ensures CandleAt(p, origin, interval, index).volume ==
            VolumeAt(p.baseVolume, p.volumeAmplitude, Triangle(index, p.cycle, p.cycle / 2))
  {
  }

  /** High and low in numbers: each a quarter of the amplitude beyond open and close. */
  lemma WicksInNumbers(p: Profile, origin: int, interval: int, index: int)
    requires p.cycle >= 2
    ensures var c := CandleAt(p, origin, interval, index);
            && c.openTime == origin + index * interval && c.isClosed
            && IsNearest(c.high - (if c.open >= c.close then c.open else c.close), p.amplitude / 4.0 * 100.0)
            && IsNearest((if c.open <= c.close then c.open else c.close) - c.low, p.amplitude / 4.0 * 100.0)
  {
    var open, close := OpenAt(p, index), CloseAt(p, index);
    RoundIsNearest(p.amplitude / 4.0 * 100.0);
    WholeCentsStay(Max(open, close) + Cents(p.amplitude / 4.0));
    WholeCentsStay(Min(open, close) - Cents(p.amplitude / 4.0));
  }

  /** A volume is its base moved by its wave, to the nearest hundredth, and never below one unit. */
  lemma VolumeIsNearest(base: real, amplitude: real, wave: real)
    ensures var volume := base + amplitude * wave;
            && VolumeAt(base, amplitude, wave) >= 100
            && IsNearest(VolumeAt(base, amplitude, wave), (if volume >= 1.0 then volume else 1.0) * 100.0)
  {
    RoundIsNearest((if base + amplitude * wave >= 1.0 then base + amplitude * wave else 1.0) * 100.0);
  }

  lemma SameWaveNextCycle(index: int, cycle: int, shift: int)
    requires cycle >= 2
    ensures Triangle(index + cycle, cycle, shift) == Triangle(index, cycle, shift)
  {
    var q, r := (index + shift) / cycle, (index + shift) % cycle;
    assert index + cycle + shift == cycle * (q + 1) + r;
    RestOf(q + 1, r, cycle);
  }

  lemma NearlyBy(x: real, y: real, d: real, r: int, s: int)
    requires y - x == d && IsNearest(r, x) && IsNearest(s, y)
    ensures d - 1.0 <= (s - r) as real <= d + 1.0
  {
  }

  /** The drift starts at the base price and adds the trend once a candle. */
  lemma DriftAddsUp(p: Profile, index: int, n: int)
    ensures Drifted(p, 0) == p.basePrice
    ensures Drifted(p, index + n) - Drifted(p, index) == Product(p.trendPerCandle, n as real)
  {
    var (t, i) := (p.trendPerCandle, index as real);
    assert t * (i + n as real) == t * i + t * n as real;
  }

  lemma PriceMoves(level: real, later: real, amplitude: real, wave: real, d: real)
    requires later - level == d
    ensures d * 100.0 - 1.0 <= (PriceAt(later, amplitude, wave) - PriceAt(level, amplitude, wave)) as real
            <= d * 100.0 + 1.0
  {
    PriceIsNearest(level, amplitude, wave);
    PriceIsNearest(later, amplitude, wave);
    NearlyBy((level + amplitude * wave) * 100.0, (later + amplitude * wave) * 100.0, d * 100.0,
             PriceAt(level, amplitude, wave), PriceAt(later, amplitude, wave));
  }

  /** `later` is `drift` above `price`, up to the cent each of the two was rounded by. */
  ghost predicate MovedBy(price: int, later: int, drift: real) {
    drift * 100.0 - 1.0 <= (later - price) as real <= drift * 100.0 + 1.0
  }

  lemma OpenMoves(p: Profile, index: int, drift: real)
    requires p.cycle >= 2 && Drifted(p, index + p.cycle) - Drifted(p, index) == drift
    ensures MovedBy(OpenAt(p, index), OpenAt(p, index + p.cycle), drift)
  {
    SameWaveNextCycle(index, p.cycle, 0);
    PriceMoves(Drifted(p, index), Drifted(p, index + p.cycle), p.amplitude, Triangle(index, p.cycle, 0), drift);
  }

  lemma CloseMoves(p: Profile, index: int, drift: real)
    requires p.cycle >= 2 && Drifted(p, index + p.cycle) - Drifted(p, index) == drift
    ensures MovedBy(CloseAt(p, index), CloseAt(p, index + p.cycle), drift)
  {
    SameWaveNextCycle(index, p.cycle, p.cycle / 3);
    PriceMoves(Drifted(p, index), Drifted(p, index + p.cycle), p.amplitude,
               Triangle(index, p.cycle, p.cycle / 3), drift);
  }

  /** One cycle later the wave is where it was and the price has moved by a cycle's drift: up for a
      positive trend, down for a negative one. */
  lemma CycleDrifts(p: Profile, index: int)
    requires p.cycle >= 2
    ensures var drift := Product(p.trendPerCandle, p.cycle as real);
            && MovedBy(OpenAt(p, index), OpenAt(p, index + p.cycle), drift)
            && MovedBy(CloseAt(p, index), CloseAt(p, index + p.cycle), drift)
  {
    var drift := Product(p.trendPerCandle, p.cycle as real);
    DriftAddsUp(p, index, p.cycle);
    OpenMoves(p, index, drift);
    CloseMoves(p, index, drift);
  }

  // ---------------------------------------------------------------- bars without a body

  /** Where the wave has the same height as a third of a cycle later. */
  predicate Level(index: int, cycle: int)
    requires cycle >= 2
  {
    cycle / 3 == 0 || (2 * index + cycle / 3) % cycle == 0
  }

  lemma RestOfTwice(q: int, r: int, cycle: int)
    requires cycle >= 2 && 0 <= r < 2 * cycle
    ensures (cycle * q + r) % cycle == if r < cycle then r else r - cycle
  {
    if r < cycle {
      RestOf(q, r, cycle);
    } else {
      assert cycle * q + r == cycle * (q + 1) + (r - cycle);
      RestOf(q + 1, r - cycle, cycle);
    }
  }

  /** The wave's numerator where the position in the cycle is known. */
  function Height(position: int, cycle: int): int {
    if 2 * position < cycle then 4 * position - cycle else 3 * cycle - 4 * position
  }

  lemma HeightsApart(x: int, y: int, cycle: int)
    requires 0 <= x < cycle && 0 <= y < cycle
    ensures var a, b := Height(x, cycle), Height(y, cycle);
            if x == y || x + y == cycle then a == b else a - b >= 4 || b - a >= 4
  {
  }

  lemma SamePlaceIff(index: int, shift: int, cycle: int)
    requires cycle >= 2 && 0 <= shift < cycle
    ensures index % cycle == (index + shift) % cycle <==> shift == 0
  {
    var q, q' := index / cycle, (index + shift) / cycle;
    assert index == cycle * q + index % cycle && index + shift == cycle * q' + (index + shift) % cycle;
    if index % cycle == (index + shift) % cycle {
      assert cycle * (q' - q) == shift;
      MultiplesAreApart(q' - q, cycle);
    }
  }

  lemma MirroredIff(index: int, shift: int, cycle: int)
    requires cycle >= 2 && 0 <= shift < cycle
    ensures var x, y := index % cycle, (index + shift) % cycle;
            (2 * index + shift) % cycle == 0 <==> x + y == 0 || x + y == cycle
  {
    var x, y := index % cycle, (index + shift) % cycle;
    var q, q' := index / cycle, (index + shift) / cycle;
    assert index == cycle * q + x && index + shift == cycle * q' + y;
    assert 2 * index + shift == cycle * (q + q') + (x + y);
    RestOfTwice(q + q', x + y, cycle);
  }

  /** Two points of the wave are level or four parts of a cycle apart, at least. */
  lemma LevelIff(index: int, cycle: int)
    requires cycle >= 2
    ensures var a, b := Numerator(index, cycle, 0), Numerator(index, cycle, cycle / 3);
            if Level(index, cycle) then a == b else a - b >= 4 || b - a >= 4
  {
    SamePlaceIff(index, cycle / 3, cycle);
    MirroredIff(index, cycle / 3, cycle);
    HeightsApart(index % cycle, (index + cycle / 3) % cycle, cycle);
  }

  lemma RoundIsNear(x: real)
    ensures RoundHalfEven(x) as real - 0.5 <= x <= RoundHalfEven(x) as real + 0.5
  {
  }

  lemma TriangleIsNear(index: int, cycle: int, shift: int)
    requires cycle >= 2
    ensures var exact := Numerator(index, cycle, shift) as real / cycle as real;
            exact - 0.0000005 <= Triangle(index, cycle, shift) <= exact + 0.0000005
  {
    RoundIsNear(Numerator(index, cycle, shift) as real / cycle as real * 1000000.0);
  }

  lemma QuotientsApart(a: int, b: int, cycle: int)
    requires cycle >= 2 && a - b >= 4
    ensures a as real / cycle as real - b as real / cycle as real >= 4.0 / cycle as real
  {
    var c := cycle as real;
    assert a as real / c - b as real / c == (a - b) as real / c;
    assert (a - b) as real / c - 4.0 / c == ((a - b) as real - 4.0) / c;
  }

  function Abs(x: real): real {
    if x >= 0.0 then x else -x
  }

  lemma ProductsApart(amplitude: real, d: real, least: real)
    requires Abs(d) >= least
    ensures Abs(amplitude * d) >= Abs(amplitude) * least
  {
    assert Abs(amplitude * d) == Abs(amplitude) * Abs(d);
    assert Abs(amplitude) * (Abs(d) - least) >= 0.0;
  }

  lemma CentsApart(x: real, y: real)
    requires Abs(x - y) > 0.01
    ensures Cents(x) != Cents(y)
  {
    RoundIsNear(x * 100.0);
    RoundIsNear(y * 100.0);
  }

  /** The least by which the wave moves from one candle to the next, whatever six places round away. */
  function Step(cycle: int): real
    requires cycle >= 2
  {
    4.0 / cycle as real - 0.000001
  }

  /** That is more than a cent. */
  predicate Steep(p: Profile)
    requires p.cycle >= 2
  {
    Product(Abs(p.amplitude), Step(p.cycle)) > 0.01
  }

  lemma NearlyApart(w: real, w': real, exact: real, exact': real, gap: real)
    requires exact - 0.0000005 <= w <= exact + 0.0000005 && exact' - 0.0000005 <= w' <= exact' + 0.0000005
    requires exact - exact' >= gap || exact' - exact >= gap
    ensures Abs(w - w') >= gap - 0.000001
  {
  }

  lemma WavesApart(a: int, b: int, cycle: int, w: real, w': real)
    requires cycle >= 2 && (a - b >= 4 || b - a >= 4)
    requires a as real / cycle as real - 0.0000005 <= w <= a as real / cycle as real + 0.0000005
    requires b as real / cycle as real - 0.0000005 <= w' <= b as real / cycle as real + 0.0000005
    ensures Abs(w - w') >= Step(cycle)
  {
    if a - b >= 4 {
      QuotientsApart(a, b, cycle);
    } else {
      QuotientsApart(b, a, cycle);
    }
    NearlyApart(w, w', a as real / cycle as real, b as real / cycle as real, 4.0 / cycle as real);
  }

  lemma TrianglesApart(index: int, cycle: int)
    requires cycle >= 2 && !Level(index, cycle)
    ensures Abs(Triangle(index, cycle, 0) - Triangle(index, cycle, cycle / 3)) >= Step(cycle)
  {
    LevelIff(index, cycle);
    TriangleIsNear(index, cycle, 0);
    TriangleIsNear(index, cycle, cycle / 3);
    WavesApart(Numerator(index, cycle, 0), Numerator(index, cycle, cycle / 3), cycle,
               Triangle(index, cycle, 0), Triangle(index, cycle, cycle / 3));
  }

  lemma Differ(x: real, y: real, d: real)
    requires x - y == d && Abs(d) > 0.01
    ensures Cents(x) != Cents(y)
  {
    CentsApart(x, y);
  }

  lemma Distributes(level: real, a: real, w: real, w': real)
    ensures level + a * w - (level + a * w') == a * (w - w')
  {
  }

  lemma PricesApart(level: real, amplitude: real, w: real, w': real)
    requires Abs(Product(amplitude, w - w')) > 0.01
    ensures PriceAt(level, amplitude, w) != PriceAt(level, amplitude, w')
  {
    var d := Product(amplitude, w - w');
    Distributes(level, amplitude, w, w');
    Differ(level + amplitude * w, level + amplitude * w', d);
  }

  lemma StepShows(amplitude: real, d: real, least: real)
    requires Abs(d) >= least && Product(Abs(amplitude), least) > 0.01
    ensures Abs(Product(amplitude, d)) > 0.01
  {
    ProductsApart(amplitude, d, least);
  }

  lemma LevelWaves(index: int, cycle: int)
    requires cycle >= 2 && Level(index, cycle)
    ensures Triangle(index, cycle, 0) == Triangle(index, cycle, cycle / 3)
  {
    LevelIff(index, cycle);
  }

  lemma WavesShow(level: real, amplitude: real, wave: real, wave': real, step: real)
    requires Abs(wave - wave') >= step && Product(Abs(amplitude), step) > 0.01
    ensures PriceAt(level, amplitude, wave) != PriceAt(level, amplitude, wave')
  {
    StepShows(amplitude, wave - wave', step);
    PricesApart(level, amplitude, wave, wave');
  }

  lemma SteepWavesShow(level: real, amplitude: real, index: int, cycle: int)
    requires cycle >= 2 && !Level(index, cycle) && Product(Abs(amplitude), Step(cycle)) > 0.01
    ensures PriceAt(level, amplitude, Triangle(index, cycle, 0))
            != PriceAt(level, amplitude, Triangle(index, cycle, cycle / 3))
  {
    TrianglesApart(index, cycle);
    WavesShow(level, amplitude, Triangle(index, cycle, 0), Triangle(index, cycle, cycle / 3), Step(cycle));
  }

  lemma SteepIsTwoPrices(p: Profile, index: int)
    requires p.cycle >= 2 && Steep(p) && !Level(index, p.cycle)
    ensures OpenAt(p, index) != CloseAt(p, index)
  {
    SteepWavesShow(Drifted(p, index), p.amplitude, index, p.cycle);
  }

  /** A bar opens and closes at one price wherever the wave is level with itself a third of a cycle
      on - and, of a profile whose wave is not too flat for cents to show, nowhere else. */
  lemma BarHasNoBodyIff(p: Profile, origin: int, interval: int, index: int)
    requires p.cycle >= 2
    ensures var c := CandleAt(p, origin, interval, index);
            && (Level(index, p.cycle) ==> c.open == c.close)
            && (Steep(p) ==> (c.open == c.close <==> Level(index, p.cycle)))
  {
    if Level(index, p.cycle) {
      LevelWaves(index, p.cycle);
    } else if Steep(p) {
      SteepIsTwoPrices(p, index);
    }
  }

  /** With the default cycle of 24 candles that is every twelfth bar, from the ninth on. */
  lemma EveryTwelfthHasNoBody(p: Profile, origin: int, interval: int, k: nat)
    requires p.cycle == 24
    ensures var c := CandleAt(p, origin, interval, 8 + 12 * k);
            c.open == c.close
  {
    assert 2 * (8 + 12 * k) + 24 / 3 == 24 * (k + 1);
    MultipleHasNoRest(k + 1, 24);
    BarHasNoBodyIff(p, origin, interval, 8 + 12 * k);
  }

  // ---------------------------------------------------------------- defects

  datatype Defect = GAP | DUPLICATE | OUT_OF_ORDER | FORMING_LAST | ZERO_VOLUME

  /** `after` is `before` with another candle at `i`. */
  ghost predicate OnlyAt(before: seq<Candle>, after: seq<Candle>, i: int, changed: Candle) {
    && |after| == |before| && 0 <= i < |before| && after[i] == changed
    && forall k | 0 <= k < |before| && k != i :: after[k] == before[k]
  }

  /** The two candles around the middle have changed places. */
  ghost predicate Swapped(before: seq<Candle>, after: seq<Candle>)
    requires |before| > 2
  {
    var m := |before| / 2;
    && |after| == |before| && after[m] == before[m - 1] && after[m - 1] == before[m]
    && forall k | 0 <= k < |before| && k != m && k != m - 1 :: after[k] == before[k]
  }

  /** Each index the source touches exists, whatever the defects and however short the series. */
  method ApplyDefects(candles: seq<Candle>, defects: set<Defect>) returns (working: seq<Candle>)
    ensures |working| == |candles| - (if GAP in defects && |candles| > 2 then 1 else 0)
                         + (if DUPLICATE in defects && |candles| > 1 then 1 else 0)
    ensures forall c | c in working :: exists o :: o in candles && SameBar(o, c)
    ensures candles != [] && FORMING_LAST in defects ==> !working[|working| - 1].isClosed
    ensures candles != [] && ZERO_VOLUME in defects ==>
              |candles| / 2 < |working| && working[|candles| / 2].volume == 0
    ensures defects == {} ==> working == candles
    ensures defects == {DUPLICATE} && |candles| > 1 ==>
              working == candles[..|candles| / 2] + [candles[|candles| / 2]] + candles[|candles| / 2..]
    ensures defects == {GAP} && |candles| > 2 ==>
              working == candles[..|candles| / 2] + candles[|candles| / 2 + 1..]
    ensures defects == {OUT_OF_ORDER} ==> if |candles| > 2 then Swapped(candles, working) else working == candles
    ensures defects == {ZERO_VOLUME} && candles != [] ==>
              OnlyAt(candles, working, |candles| / 2, candles[|candles| / 2].(volume := 0))
    ensures defects == {FORMING_LAST} && candles != [] ==>
              OnlyAt(candles, working, |candles| - 1, candles[|candles| - 1].(isClosed := false))
  {
    working := candles;
    if defects == {} || candles == [] {
      assert forall c | c in working :: SameBar(c, c);
      return;
    }
    var middle := |working| / 2;
    working := Moved(candles, middle, defects);
    working := Spoiled(candles, working, middle, defects);
  }

  /** The three defects that change where candles stand. */
  method Moved(candles: seq<Candle>, middle: nat, defects: set<Defect>) returns (working: seq<Candle>)
    requires candles != [] && middle == |candles| / 2
    ensures |working| == |candles| - (if GAP in defects && |candles| > 2 then 1 else 0)
                         + (if DUPLICATE in defects && |candles| > 1 then 1 else 0)
    ensures middle < |working| && forall c | c in working :: c in candles
    ensures defects !! {GAP, DUPLICATE, OUT_OF_ORDER} ==> working == candles
    ensures defects == {DUPLICATE} && |candles| > 1 ==>
              working == candles[..middle] + [candles[middle]] + candles[middle..]
    ensures defects == {GAP} && |candles| > 2 ==> working == candles[..middle] + candles[middle + 1..]
    ensures defects == {OUT_OF_ORDER} ==> if |candles| > 2 then Swapped(candles, working) else working == candles
  {
    working := candles;
    if GAP in defects && |working| > 2 {
      working := working[..middle] + working[middle + 1..];
    }
    if DUPLICATE in defects && |working| > 1 {
      working := working[..middle] + [working[middle]] + working[middle..];
    }
    if OUT_OF_ORDER in defects && |working| > 2 {
      working := working[middle := working[middle - 1]][middle - 1 := working[middle]];
    }
  }

  /** The two defects that change a candle rather than where it stands. */
  method Spoiled(
      candles: seq<Candle>, shuffled: seq<Candle>, middle: nat, defects: set<Defect>) returns (working: seq<Candle>)
    requires middle < |shuffled| && forall c | c in shuffled :: c in candles
    ensures |working| == |shuffled| && forall i | 0 <= i < |working| :: SameBar(shuffled[i], working[i])
    ensures forall c | c in working :: exists o :: o in candles && SameBar(o, c)
    ensures FORMING_LAST in defects ==> !working[|working| - 1].isClosed
    ensures ZERO_VOLUME in defects ==> working[middle].volume == 0
    ensures ZERO_VOLUME !in defects && FORMING_LAST !in defects ==> working == shuffled
    ensures ZERO_VOLUME in defects && FORMING_LAST !in defects ==>
              OnlyAt(shuffled, working, middle, shuffled[middle].(volume := 0))
    ensures ZERO_VOLUME !in defects && FORMING_LAST in defects ==>
              OnlyAt(shuffled, working, |shuffled| - 1, shuffled[|shuffled| - 1].(isClosed := false))
  {
    working := shuffled;
    if ZERO_VOLUME in defects {
      working := working[middle := working[middle].(volume := 0)];
    }
    if FORMING_LAST in defects {
      working := working[|working| - 1 := working[|working| - 1].(isClosed := false)];
    }
    forall c | c in working ensures exists o :: o in candles && SameBar(o, c) {
      var i :| 0 <= i < |working| && working[i] == c;
      assert shuffled[i] in shuffled && SameBar(shuffled[i], c);
    }
  }

  /** The same bar, but for its volume and whether it is closed. */
  ghost predicate SameBar(a: Candle, b: Candle) {
    b == a.(volume := b.volume, isClosed := b.isClosed)
  }
}
