/** One normalized bar, as the provider parser makes it and the validator and converter take it. */
module Bars {
  import opened Basics
  import opened Calendar
  import opened Decimals

  // The dataclass does not check its price fields' type.
  datatype Price = Num(value: Decimal) | NotDecimal

  datatype Bar = Bar(symbol: Text, timestamp: Stamp, open: Price, high: Price, low: Price, close: Price, volume: int)

  // `NormalizedBar.__post_init__` raises nothing.
  predicate ValidBar(b: Bar) { !Blank(b.symbol) && ValidStamp(b.timestamp) && b.volume >= 0 }

  predicate PositivePrice(p: Price) { p.Num? && Positive(p.value) }

  predicate PositivePrices(b: Bar) {
    PositivePrice(b.open) && PositivePrice(b.high) && PositivePrice(b.low) && PositivePrice(b.close)
  }

  predicate Ohlc(b: Bar)
    requires PositivePrices(b)
  {
    Le(b.low.value, b.open.value) && Le(b.open.value, b.high.value) &&
    Le(b.low.value, b.close.value) && Le(b.close.value, b.high.value)
  }

  predicate GoodPrices(b: Bar) { PositivePrices(b) && Ohlc(b) }

  // Microseconds from one bar to the next.
  function Gap(bars: seq<Bar>, i: int): int
    requires 0 < i < |bars|
  {
    Instant(bars[i].timestamp) - Instant(bars[i - 1].timestamp)
  }
}
