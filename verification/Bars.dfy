/** Trades and bars, shared by the bar builder and the timeframe engine. */
module Bars {
  import opened Basics

  datatype Trade = Trade(price: real, size: real, timestamp: int, isBuyerMaker: bool, seqNo: int, arrivalTime: int)

  /** The figures of a bar; symbol, exchange and timeframe labels are not part of the model. */
  datatype Bar = Bar(
    open: real,
    high: real,
    low: real,
    close: real,
    volume: real,
    quoteVolume: real,
    buyVolume: real,
    sellVolume: real,
    tradeCount: nat,
    timestamp: int,
    closeTime: int,
    isComplete: bool,
    seqNo: int,
    arrivalTime: int)

  const MINUTE: int := 60000

  /** Start of the window of `width` milliseconds that holds `time` (flooring division). */
  function WindowStart(time: int, width: int): int
    requires width > 0
  {
    time / width * width
  }

  /** A traded value fits a volume traded between two prices. */
  predicate ValueInRange(low: real, high: real, volume: real, value: real) {
    low * volume <= value <= high * volume
  }

  /** What a chart may rely on. */
  predicate Sane(b: Bar) {
    && 0.0 < b.low
    && b.low <= b.open <= b.high && b.low <= b.close <= b.high
    && b.volume > 0.0
    && b.buyVolume + b.sellVolume == b.volume
    && 0.0 <= b.buyVolume && 0.0 <= b.sellVolume
    && ValueInRange(b.low, b.high, b.volume, b.quoteVolume)
    && b.tradeCount > 0
  }

  function SumVolume(bars: seq<Bar>): real {
    if bars == [] then 0.0 else SumVolume(bars[..|bars| - 1]) + bars[|bars| - 1].volume
  }

  /** Merging two price ranges keeps the traded value between low and high times volume. */
  lemma ValueStaysInRange(lo1: real, hi1: real, v1: real, q1: real, lo2: real, hi2: real, v2: real, q2: real,
                          lo: real, hi: real)
    requires v1 > 0.0 && v2 > 0.0
    requires ValueInRange(lo1, hi1, v1, q1) && ValueInRange(lo2, hi2, v2, q2)
    requires lo == MinReal(lo1, lo2) && hi == MaxReal(hi1, hi2)
    ensures ValueInRange(lo, hi, v1 + v2, q1 + q2)
  {
    RangeWidens(lo1, hi1, v1, q1, lo, hi);
    RangeWidens(lo2, hi2, v2, q2, lo, hi);
    RangesAdd(lo, hi, v1, q1, v2, q2);
  }

  lemma RangeWidens(lo1: real, hi1: real, v: real, q: real, lo: real, hi: real)
    requires v > 0.0 && ValueInRange(lo1, hi1, v, q) && lo <= lo1 && hi1 <= hi
    ensures ValueInRange(lo, hi, v, q)
  {
    ScaleUp(lo, lo1, v);
    ScaleUp(hi1, hi, v);
  }

  lemma RangesAdd(lo: real, hi: real, v1: real, q1: real, v2: real, q2: real)
    requires ValueInRange(lo, hi, v1, q1) && ValueInRange(lo, hi, v2, q2)
    ensures ValueInRange(lo, hi, v1 + v2, q1 + q2)
  {
    SplitProduct(lo, v1, v2, lo * v1, lo * v2);
    SplitProduct(hi, v1, v2, hi * v1, hi * v2);
  }

  lemma ScaleUp(a: real, b: real, v: real)
    requires a <= b && v > 0.0
    ensures a * v <= b * v
  {
    var gap := b - a;
    assert gap * v >= 0.0;
    assert gap * v == (b - a) * v;
  }

  lemma SplitProduct(x: real, v1: real, v2: real, p1: real, p2: real)
    requires p1 == x * v1 && p2 == x * v2
    ensures x * (v1 + v2) == p1 + p2
  {
  }
}
