/** `cross_signal` of ma7_bot.py: classifies the last two (price, average)
    pairs as an upward cross, a downward cross, or no cross. */
module Crossover {
  import opened Wrappers
  import MovingAverage

  /** The classification; `NoSignal` is the `None` that `cross_signal` returns. */
  datatype Signal = NoSignal | CrossUp | CrossDown

  /** A price is above its average only when strictly greater: a tie is "not above". */
  predicate Above(price: real, average: real)
  {
    price > average
  }

  /** Both series have two entries and the last two averages are defined. */
  predicate Ready(prices: seq<real>, averages: seq<Option<real>>)
  {
    |prices| >= 2 && |averages| >= 2 &&
    averages[|averages| - 2].Some? && averages[|averages| - 1].Some?
  }

  /** Whether the next-to-last price is above the next-to-last average. */
  predicate WasAbove(prices: seq<real>, averages: seq<Option<real>>)
    requires Ready(prices, averages)
  {
    Above(prices[|prices| - 2], averages[|averages| - 2].value)
  }

  /** Whether the last price is above the last average. */
  predicate NowAbove(prices: seq<real>, averages: seq<Option<real>>)
    requires Ready(prices, averages)
  {
    Above(prices[|prices| - 1], averages[|averages| - 1].value)
  }

  /** The crossing classifier. */
  function CrossSignal(prices: seq<real>, averages: seq<Option<real>>): (r: Signal)
    ensures !Ready(prices, averages) ==> r == NoSignal
    ensures Ready(prices, averages) ==>
      (r == CrossUp <==> !WasAbove(prices, averages) && NowAbove(prices, averages))
    ensures Ready(prices, averages) ==>
      (r == CrossDown <==> WasAbove(prices, averages) && !NowAbove(prices, averages))
  {
    if |prices| < 2 || |averages| < 2 then NoSignal
    else
      var pPrev, pLast := prices[|prices| - 2], prices[|prices| - 1];
      var mPrev, mLast := averages[|averages| - 2], averages[|averages| - 1];
      if mPrev.None? || mLast.None? then NoSignal
      else
        var wasAbove := pPrev > mPrev.value;
        var nowAbove := pLast > mLast.value;
        if !wasAbove && nowAbove then CrossUp
        else if wasAbove && !nowAbove then CrossDown
        else NoSignal
  }

  /** A cross is reported exactly when the price changed sides of its average
      between the last two samples, and its direction is the side it moved to. */
  lemma CrossIffSideChanged(prices: seq<real>, averages: seq<Option<real>>)
    ensures CrossSignal(prices, averages) != NoSignal <==>
      Ready(prices, averages) && WasAbove(prices, averages) != NowAbove(prices, averages)
    ensures CrossSignal(prices, averages) == CrossUp ==> NowAbove(prices, averages)
    ensures CrossSignal(prices, averages) == CrossDown ==> !NowAbove(prices, averages)
  {
  }

  /** Crossing examples: below-then-above is up, above-then-below is down, and
      staying above is no cross; a tie counts as below. */
  lemma CrossExamples()
    ensures CrossSignal([9.0, 11.0], [Some(10.0), Some(10.0)]) == CrossUp
    ensures CrossSignal([11.0, 9.0], [Some(10.0), Some(10.0)]) == CrossDown
    ensures CrossSignal([11.0, 11.0], [Some(10.0), Some(10.0)]) == NoSignal
    ensures CrossSignal([10.0, 11.0], [Some(10.0), Some(10.0)]) == CrossUp
    ensures CrossSignal([11.0, 10.0], [Some(10.0), Some(10.0)]) == CrossDown
    ensures CrossSignal([9.0, 11.0], [None, Some(10.0)]) == NoSignal
  {
  }

  /** Against its own moving average, a price series can show a cross only once
      it holds at least `period + 1` prices: both of the last two averages must
      be defined. */
  lemma NoCrossDuringWarmup(prices: seq<real>, period: int)
    requires |prices| <= period || period < 1
    ensures CrossSignal(prices, MovingAverage.MaSpec(prices, period)) == NoSignal
  {
  }
}
