/** The decisions `run_once` in ma7_bot.py takes in one evaluation cycle, once
    the candles are fetched: the lookback sent to the fetch, the signal, the
    status label, the report lines and whether the report is sent. */
module SignalCycle {
  import opened Wrappers
  import opened MovingAverage
  import opened Crossover

  /** The moving-average period the bot uses. */
  const MaPeriod: int := 7
  /** The bounds the fetch limit is clamped to. */
  const MinLookback: int := 10
  const MaxLookback: int := 1000

  /** One fetched candle: close time in epoch milliseconds and close price. */
  datatype Candle = Candle(closeTime: int, closePrice: real)

  /** The "Side" line: each price with `>` or `<` against its average. */
  datatype SideLine = SideLine(prevPrice: real, prevOp: char, prevMa: real,
                               lastPrice: real, nowOp: char, lastMa: real)

  /** What one cycle produces: the report lines (the timestamp kept as epoch
      milliseconds), the signal and whether the report is sent. */
  datatype Report = Report(symbol: string, interval: string, lastTime: int,
                           lastPrice: real, lastMa: Option<real>, signal: Signal,
                           status: string, side: Option<SideLine>, notify: bool)

  /** Why a cycle fails once the candles are in: `times[-1]` on an empty list. */
  datatype CycleError = NoCandles

  /** The limit passed to the fetch: the configured lookback clamped to [10, 1000]. */
  function ClampLookback(lookback: int): (r: int)
    ensures MinLookback <= r <= MaxLookback
    ensures MinLookback <= lookback <= MaxLookback ==> r == lookback
    ensures lookback < MinLookback ==> r == MinLookback
    ensures lookback > MaxLookback ==> r == MaxLookback
  {
    var atLeast := if lookback > MinLookback then lookback else MinLookback;
    if atLeast < MaxLookback then atLeast else MaxLookback
  }

  /** The status label of a signal. */
  function StatusLabel(sig: Signal): (r: string)
    ensures r == "NO_CROSS" <==> sig == NoSignal
    ensures sig == CrossUp ==> |r| >= 8 && r[..8] == "CROSS_UP"
    ensures sig == CrossDown ==> |r| >= 10 && r[..10] == "CROSS_DOWN"
  {
    match sig
    case CrossUp => "CROSS_UP \U{1F680}"
    case CrossDown => "CROSS_DOWN \U{1F53B}"
    case NoSignal => "NO_CROSS"
  }

  /** Different signals get different labels. */
  lemma StatusLabelInjective(a: Signal, b: Signal)
    requires StatusLabel(a) == StatusLabel(b)
    ensures a == b
  {
  }

  /** The anti-spam gate: only a cross is sent. */
  function ShouldNotify(sig: Signal): (r: bool)
    ensures r <==> sig == CrossUp || sig == CrossDown
    ensures r <==> StatusLabel(sig) != "NO_CROSS"
  {
    sig in {CrossUp, CrossDown}
  }

  /** The comparison character of the "Side" line. */
  function SideOp(price: real, average: real): (c: char)
    ensures c == '>' <==> Above(price, average)
    ensures c == '<' <==> !Above(price, average)
  {
    if price > average then '>' else '<'
  }

  /** The closing prices of the candles, in order. */
  function Prices(candles: seq<Candle>): (r: seq<real>)
    ensures |r| == |candles|
    ensures forall i :: 0 <= i < |r| ==> r[i] == candles[i].closePrice
  {
    seq(|candles|, i requires 0 <= i < |candles| => candles[i].closePrice)
  }

  /** One cycle after the fetch. The "Side" line compares the last price with
      the last average; that average is defined whenever the previous one is
      (`DefinedStaysDefined`), so it is always a number here. */
  function RunOnce(symbol: string, interval: string, candles: seq<Candle>): (r: Result<Report, CycleError>)
    ensures r.Failure? <==> |candles| == 0
    ensures r.Success? ==>
      var n, ps := |candles|, Prices(candles);
      var ma7 := MaSpec(ps, MaPeriod);
      && r.value.symbol == symbol && r.value.interval == interval
      && r.value.signal == CrossSignal(ps, ma7)
      && r.value.lastMa == ma7[n - 1]
      && r.value.status == StatusLabel(r.value.signal)
      && r.value.notify == ShouldNotify(r.value.signal)
      && (r.value.side.Some? ==>
            && r.value.lastMa.Some? && ma7[n - 2].Some?
            && r.value.side.value == SideLine(ps[n - 2], SideOp(ps[n - 2], ma7[n - 2].value), ma7[n - 2].value,
                                              ps[n - 1], SideOp(ps[n - 1], r.value.lastMa.value), r.value.lastMa.value))
    ensures r.Success? ==>
      var n := |candles|;
      && r.value.lastTime == candles[n - 1].closeTime
      && r.value.lastPrice == candles[n - 1].closePrice
      && (r.value.lastMa.Some? <==> n >= MaPeriod)
      && (r.value.side.Some? <==> n >= MaPeriod + 1)
      && (r.value.notify <==> r.value.signal != NoSignal)
      && (r.value.notify ==> n >= MaPeriod + 1)
      && (r.value.status == "NO_CROSS" <==> !r.value.notify)
  {
    if |candles| == 0 then Failure(NoCandles)
    else
      var n := |candles|;
      var prices := Prices(candles);
      var ma7 := MaSpec(prices, MaPeriod);
      var sig := CrossSignal(prices, ma7);
      var side :=
        if n >= 2 && ma7[n - 2].Some? then
          DefinedStaysDefined(prices, MaPeriod, n - 2, n - 1);
          Some(SideLine(prices[n - 2], SideOp(prices[n - 2], ma7[n - 2].value), ma7[n - 2].value,
                        prices[n - 1], SideOp(prices[n - 1], ma7[n - 1].value), ma7[n - 1].value))
        else None;
      Success(Report(symbol, interval, candles[n - 1].closeTime, prices[n - 1], ma7[n - 1],
                     sig, StatusLabel(sig), side, ShouldNotify(sig)))
  }

  /** The "Side" line agrees with the signal: an upward cross shows `<` then `>`,
      a downward cross `>` then `<`, and any other pair of characters goes with
      no cross. */
  lemma SideLineAgreesWithSignal(symbol: string, interval: string, candles: seq<Candle>)
    requires RunOnce(symbol, interval, candles).Success?
    ensures var rep := RunOnce(symbol, interval, candles).value;
      rep.side.Some? ==>
        && (rep.signal == CrossUp <==> rep.side.value.prevOp == '<' && rep.side.value.nowOp == '>')
        && (rep.signal == CrossDown <==> rep.side.value.prevOp == '>' && rep.side.value.nowOp == '<')
  {
  }

  /** The comparison for "now" as `run_once` in ma7_bot.py writes it (line 126): `last_ma7 or last_price`
      falls back to the price itself both when the average is `None` and when
      it is exactly `0.0`, which Python treats as false. */
  function SideNowAsWritten(lastPrice: real, lastMa: Option<real>): (c: char)
    ensures lastMa.Some? && lastMa.value != 0.0 ==> c == SideOp(lastPrice, lastMa.value)
    ensures lastMa.None? || lastMa.value == 0.0 ==> c == '<'
  {
    var against := if lastMa.Some? && lastMa.value != 0.0 then lastMa.value else lastPrice;
    if lastPrice > against then '>' else '<'
  }

  /** Eight prices whose last two averages are both 0.0: the signal is an upward
      cross, yet the `last_ma7 or last_price` fallback as written prints `<` for "now". */
  lemma SideNowAsWrittenDisagrees()
    ensures var prices := [1.0, -1.0, 0.0, 0.0, 0.0, 0.0, 0.0, 1.0];
      var ma7 := MaSpec(prices, MaPeriod);
      && CrossSignal(prices, ma7) == CrossUp
      && ma7[7] == Some(0.0)
      && SideNowAsWritten(prices[7], ma7[7]) == '<'
  {
    var prices := [1.0, -1.0, 0.0, 0.0, 0.0, 0.0, 0.0, 1.0];
    var ma7 := MaSpec(prices, MaPeriod);
    assert SumRange(prices, 0, 2) == 0.0;
    assert SumRange(prices, 0, 4) == 0.0;
    assert SumRange(prices, 0, 6) == 0.0;
    assert SumRange(prices, 0, 7) == 0.0;
    assert SumRange(prices, 1, 3) == -1.0;
    assert SumRange(prices, 1, 5) == -1.0;
    assert SumRange(prices, 1, 7) == -1.0;
    assert SumRange(prices, 1, 8) == 0.0;
    assert ma7[6] == Some(0.0);
    assert ma7[7] == Some(0.0);
  }
}
