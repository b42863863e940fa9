# MA7 signal bot: moving average, crossover and notification decisions

This project models, in Dafny, the signal-detection core of the MA7 signal bot
(`ma7_bot.py`). Once per cycle the bot fetches candles for a trading pair at the configured interval (hourly by default).
It computes a 7-period trailing simple moving average of the closing prices and
classifies the last two (price, average) pairs as an upward cross, a downward
cross, or neither. It then builds a short report and sends the report to a chat
only when there is a cross.

- `MovingAverage` (moving_average.dfy) models `ma`. The method `Ma` keeps the
  source's window buffer: append the new price, drop the oldest price with
  `pop(0)` once the window is longer than `period`, and emit `sum(window) / period`
  or `None`. `Ma` is proved equal to the specification `MaSpec`, which gives the
  mean of the `period` prices that end at each index. The lemmas cover the
  warm-up, that a defined average stays defined, the sliding-window identity and
  the range of the mean.
- `Crossover` (crossover.dfy) models `cross_signal` with the same strict `>`
  comparison, so a price equal to its average counts as "not above".
- `SignalCycle` (signal_cycle.dfy) models the decisions `run_once` makes. These are
  the lookback clamp, the status label, the "Side" line and its guard, and the
  anti-spam gate. `RunOnce` takes the fetched candles as input and returns the
  report, or the error raised when no candles came back.
- `Wrappers` (wrappers.dfy) holds `Option` (Python's `None`) and `Result` (an
  exception).

Prices are exact `real` numbers. Python's `None` results are `Option.None`.
`cross_signal`'s string results are the datatype `Signal`.

The model of `ma` follows the code for every integer period, not only positive ones:
- `ma` accepts any integer `period`. With a negative period, the window is always
  emptied again and every entry is `None`. With `period == 0` and a non-empty
  input, `sum([]) / 0` raises `ZeroDivisionError`. `Ma` models both cases.
- `ma` recomputes `sum(window)` at every step. It does not keep a running total.
- The fallback on line 126 (`last_ma7 or last_price`) applies when the average is
  `None` and also when the average is exactly `0.0`. Only `SideNowAsWritten`
  models that line as written. `RunOnce` builds the "Side" line with the
  corrected comparison against the average itself (see Findings).

## Model

| member | source | states |
|---|---|---|
| `MovingAverage.MaSpec` | ma7_bot.py:43-54 | The series has one entry per price. Entry `i` is defined iff `1 <= period <= i + 1`, so the first defined index is `period - 1`. It is what `ma` returns whenever `ma` returns: with a negative period every entry is `None`, and with `period == 0` and a non-empty input `ma` raises instead (see `Ma`). |
| `MovingAverage.Ma` | ma7_bot.py:43-54 | The window loop fails with a zero division iff `period == 0` and the input is non-empty. Otherwise it returns exactly `MaSpec`. Its invariants state that after `i` prices the window holds the last `min(i, period)` of them, and nothing when `period <= 0`. |
| `MovingAverage.WindowEmits` | ma7_bot.py:47-53 | After price `i` enters, the window is full with `period != 0` exactly when the average at `i` is defined, and then `sum(window) / period` is that average. With `period <= 0` the window is empty. |
| `MovingAverage.SumOfSlice` | ma7_bot.py:51 | Python's left-to-right `sum` over a slice of the prices equals the total over that index range. |
| `MovingAverage.DefinedIsWindowMean` | ma7_bot.py:47-51 | A defined average at `i`, times `period`, is `sum(values[i-period+1 .. i])`. |
| `MovingAverage.DefinedStaysDefined` | ma7_bot.py:48-51 | Once the series is defined at index `i`, it is defined at every later index. |
| `MovingAverage.ShortInputUndefined` | ma7_bot.py:50-53 | An input shorter than `period` gives `None` at every index. |
| `MovingAverage.SlideStep` | ma7_bot.py:47-51 | Between two consecutive defined averages, `period` times their difference equals the price that enters minus the price that `pop(0)` evicts. |
| `MovingAverage.MeanWithinWindow` | ma7_bot.py:51 | A defined average lies between any lower and upper bound of the prices in its window. |
| `Crossover.CrossSignal` | ma7_bot.py:56-70 | The result is no cross when either list has fewer than two entries or either of the last two averages is `None`. Otherwise it is `CrossUp` iff the price was not above and is now above, and `CrossDown` iff the price was above and is now not above. "Above" means strictly greater. |
| `Crossover.CrossIffSideChanged` | ma7_bot.py:64-70 | A cross is reported iff the price changed sides of its average between the last two samples. An upward cross ends above the average and a downward cross ends not above it. |
| `Crossover.CrossExamples` | ma7_bot.py:64-70 | [9,11] against averages [10,10] is an upward cross, [11,9] is a downward cross and [11,11] is no cross. A tie counts as below, and an undefined average gives no cross. |
| `Crossover.NoCrossDuringWarmup` | ma7_bot.py:58-63 | Against its own `MaSpec` series, a series of at most `period` prices, or any series when `period < 0`, never shows a cross. (With `period == 0` a non-empty input makes `ma` raise, so there is no series to test.) |
| `SignalCycle.ClampLookback` | ma7_bot.py:96 | The fetch limit always lies in [10, 1000]. It equals the configured lookback when that is in range, and the nearer bound otherwise. |
| `SignalCycle.StatusLabel` | ma7_bot.py:110-114 | The label is `NO_CROSS` iff there is no cross. An upward cross gets a label that starts with `CROSS_UP`, and a downward cross one that starts with `CROSS_DOWN`. |
| `SignalCycle.StatusLabelInjective` | ma7_bot.py:110-114 | Different signals get different labels. |
| `SignalCycle.ShouldNotify` | ma7_bot.py:130-135 | The report is sent iff the signal is `CrossUp` or `CrossDown`, which holds iff the status label is not `NO_CROSS`. |
| `SignalCycle.SideOp` | ma7_bot.py:125 | The side character is `>` iff the price is strictly above the average, and `<` otherwise. |
| `SignalCycle.Prices` | ma7_bot.py:98 | The price list has one closing price per candle, in order. |
| `SignalCycle.RunOnce` | ma7_bot.py:97-135 | A cycle fails iff no candles were fetched, because of `times[-1]`. Otherwise the report carries the given symbol and interval and the last candle's time and price. Its signal is `CrossSignal` of the closing prices against their 7-period `MaSpec`. Its average is the last entry of that series, defined iff at least 7 candles came in. Its status is `StatusLabel` of the signal, and it is sent iff `ShouldNotify` of the signal holds, which needs at least 8 candles. Its "Side" line is present iff at least 8 candles came in. It then holds the last two prices and averages, both averages defined, each price with its `SideOp` character. |
| `SignalCycle.SideLineAgreesWithSignal` | ma7_bot.py:124-127 | When the "Side" line is present, the signal is `CrossUp` iff the line reads `<` then `>`, and `CrossDown` iff it reads `>` then `<`. |
| `SignalCycle.SideNowAsWritten` | ma7_bot.py:126 | The "now" comparison as written compares the price with the average only when the average is defined and non-zero. Otherwise it prints `<`. |
| `SignalCycle.SideNowAsWrittenDisagrees` | ma7_bot.py:124-127 | For the closes [1, -1, 0, 0, 0, 0, 0, 1], the signal is an upward cross and the last average is 0.0. Line 126 as written still prints `<`. |

## Findings

| source | as written | input that shows it | evidently intended | confidence | as-written member | corrected member |
|---|---|---|---|---|---|---|
| ma7_bot.py:126 | `last_ma7 or last_price` treats an average of exactly `0.0` as missing, so the "now" side compares the price with itself and prints `<` | closes [1, -1, 0, 0, 0, 0, 0, 1]: both last averages are 0.0, the signal is `CROSS_UP`, and the side line reads `now 1.000000 < MA7 0.000000` | fall back only when the average is `None`, which the guard on line 124 already excludes, and compare against the average itself | low; not executed; a zero average needs non-positive closes, which market prices do not produce | `SignalCycle.SideNowAsWrittenDisagrees` | `SignalCycle.SideLineAgreesWithSignal` |

## Left out

- `fetch_klines` (HTTP request to the market-data endpoint, JSON decoding, status checks) is not modelled. `RunOnce` takes the fetched candles as input, and fetch and parse errors are not modelled.
- `send_telegram` (HTTP POST to the chat endpoint) is not modelled. The report's `notify` field says whether it would be sent, and delivery errors are not modelled.
- `fmt_jkt` (time-zone conversion and `strftime`) is not modelled. The report keeps the close time in epoch milliseconds.
- `env`, the configuration reading in `main` and its start-up check for credentials are not modelled. They are environment plumbing.
- The scheduling loop with `time.sleep` and the per-cycle exception handler are not modelled. They are I/O and timing. The one error the modelled decisions can raise, `times[-1]` on an empty candle list, is `CycleError.NoCandles`.
- Float arithmetic and the `:.6f` formatting are not modelled. Averages are exact reals, so IEEE rounding of `sum(window) / period` is not captured.
- The HTML markup and the console `OK:` line are not modelled. The status labels keep their emoji.
- `SignalCycle.RunOnce`: the "Side" line uses the corrected "now" comparison (see Findings), not the `or` fallback as written.
