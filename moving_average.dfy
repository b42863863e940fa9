/** The trailing simple moving average of `ma` in ma7_bot.py: a window buffer
    that takes each new price at its end and drops its oldest price once it
    holds more than `period` prices; the mean of a full window is emitted, and
    `None` while the window is still filling. */
module MovingAverage {
  import opened Wrappers

  /** Why `ma` can fail: `sum(window) / period` with `period == 0`. */
  datatype MaError = ZeroDivision

  /** Python's `sum` over the window list, folded from the left as Python does. */
  function Sum(s: seq<real>): real
  {
    if |s| == 0 then 0.0 else Sum(s[..|s| - 1]) + s[|s| - 1]
  }

  /** The total of the prices at indices `lo` up to but excluding `hi`. */
  function SumRange(values: seq<real>, lo: nat, hi: nat): real
    requires lo <= hi <= |values|
    decreases hi - lo
  {
    if lo == hi then 0.0 else SumRange(values, lo, hi - 1) + values[hi - 1]
  }

  /** The average emitted at index `i`: the mean of the `period` prices ending
      at `i`, or `None` when fewer than `period` prices exist up to `i`. */
  function MaAt(values: seq<real>, period: int, i: nat): Option<real>
    requires i < |values|
  {
    if 1 <= period <= i + 1 then Some(SumRange(values, i + 1 - period, i + 1) / period as real)
    else None
  }

  /** The moving-average series, one entry per price, index-aligned with the
      prices. This is the specification that the window algorithm `Ma` meets. */
  function MaSpec(values: seq<real>, period: int): (r: seq<Option<real>>)
    ensures |r| == |values|
    ensures forall i :: 0 <= i < |r| ==> (r[i].Some? <==> 1 <= period <= i + 1)
  {
    seq(|values|, i requires 0 <= i < |values| => MaAt(values, period, i))
  }

  /** The sum of a slice of the prices is the total over its index range. */
  lemma {:induction false} SumOfSlice(values: seq<real>, lo: nat, hi: nat)
    requires lo <= hi <= |values|
    ensures Sum(values[lo .. hi]) == SumRange(values, lo, hi)
    decreases hi - lo
  {
    if lo < hi {
      assert values[lo .. hi][..hi - lo - 1] == values[lo .. hi - 1];
      SumOfSlice(values, lo, hi - 1);
    }
  }

  /** The first index of the window the buffer holds after `i` prices. */
  function WindowStart(i: nat, period: int): nat
  {
    if period <= 0 then i else if i <= period then 0 else i - period
  }

  /** After price `i` enters, the window is full exactly when an average is
      defined at `i` or `period` is 0, and the mean of a full window is that
      average. */
  lemma WindowEmits(values: seq<real>, period: int, i: nat)
    requires i < |values|
    ensures var w := values[WindowStart(i + 1, period) .. i + 1];
      && (period <= 0 ==> w == [])
      && (|w| == period && period != 0 <==> MaAt(values, period, i).Some?)
      && (|w| == period && period != 0 ==> MaAt(values, period, i) == Some(Sum(w) / period as real))
  {
    SumOfSlice(values, WindowStart(i + 1, period), i + 1);
  }

  /** The window loop of `ma`: append the price, evict the oldest when the window
      grows past `period`, emit the mean of a full window or `None`. The buffer is
      a Python list changed by `append` and `pop(0)`; here a local `seq` that is
      reassigned, with the ghost `lo` tracking which prices it holds. */
  method Ma(values: seq<real>, period: int) returns (r: Result<seq<Option<real>>, MaError>)
    ensures r.Failure? <==> period == 0 && |values| > 0
    ensures r.Success? ==> r.value == MaSpec(values, period)
  {
    var out: seq<Option<real>> := [];
    var window: seq<real> := [];
    var i := 0;
    ghost var lo := 0;
    while i < |values|
      invariant 0 <= lo <= i <= |values|
      invariant period == 0 ==> i == 0
      invariant lo == WindowStart(i, period)
      invariant window == values[lo .. i]
      invariant out == MaSpec(values, period)[..i]
    {
      assert window + [values[i]] == values[lo .. i + 1];
      window := window + [values[i]];
      if |window| > period {
        window := window[1..];
        lo := lo + 1;
      }
      assert window == values[lo .. i + 1];
      WindowEmits(values, period, i);
      var avg: Option<real>;
      if |window| == period {
        if period == 0 {
          r := Failure(ZeroDivision);
          return;
        }
        avg := Some(Sum(window) / period as real);
      } else {
        avg := None;
      }
      assert avg == MaSpec(values, period)[i];
      assert out + [avg] == MaSpec(values, period)[..i + 1];
      out := out + [avg];
      i := i + 1;
    }
    assert MaSpec(values, period)[..|values|] == MaSpec(values, period);
    r := Success(out);
  }

  /** A defined average times `period` is the total of the `period` prices
      ending at its index. */
  lemma DefinedIsWindowMean(values: seq<real>, period: int, i: nat)
    requires i < |values| && MaSpec(values, period)[i].Some?
    ensures MaSpec(values, period)[i].value * period as real == Sum(values[i + 1 - period .. i + 1])
  {
    SumOfSlice(values, i + 1 - period, i + 1);
  }

  /** Once the series is defined at `i`, it is defined at every later index: the
      window never shrinks below `period` once it has filled. */
  lemma DefinedStaysDefined(values: seq<real>, period: int, i: nat, j: nat)
    requires i <= j < |values|
    requires MaSpec(values, period)[i].Some?
    ensures MaSpec(values, period)[j].Some?
  {
  }

  /** Fewer prices than `period` give an all-`None` series. */
  lemma ShortInputUndefined(values: seq<real>, period: int)
    requires |values| < period
    ensures forall i :: 0 <= i < |values| ==> MaSpec(values, period)[i] == None
  {
  }

  /** Taking the first price off a range takes it off the total. */
  lemma {:induction false} SumRangeFront(values: seq<real>, lo: nat, hi: nat)
    requires lo < hi <= |values|
    ensures SumRange(values, lo, hi) == values[lo] + SumRange(values, lo + 1, hi)
    decreases hi - lo
  {
    if lo + 1 < hi {
      SumRangeFront(values, lo, hi - 1);
    }
  }

  /** Sliding the window by one price changes its total by the price that enters
      minus the price that is evicted by `pop(0)`. */
  lemma SlideStep(values: seq<real>, period: int, i: nat)
    requires 1 <= period <= i < |values|
    ensures MaSpec(values, period)[i].Some? && MaSpec(values, period)[i - 1].Some?
    ensures period as real * (MaSpec(values, period)[i].value - MaSpec(values, period)[i - 1].value)
            == values[i] - values[i - period]
  {
    var a := MaSpec(values, period);
    var p := period as real;
    SumRangeFront(values, i - period, i);
    var inner := SumRange(values, i + 1 - period, i);
    assert a[i].value == (inner + values[i]) / p;
    assert a[i - 1].value == (values[i - period] + inner) / p;
  }

  /** A total of prices that all lie in `[lo, hi]` lies between `n * lo` and
      `n * hi`, for the number `n` of prices. */
  lemma {:induction false} SumRangeBounds(values: seq<real>, start: nat, stop: nat, lo: real, hi: real)
    requires start <= stop <= |values|
    requires forall k :: start <= k < stop ==> lo <= values[k] <= hi
    ensures (stop - start) as real * lo <= SumRange(values, start, stop) <= (stop - start) as real * hi
    decreases stop - start
  {
    if start < stop {
      SumRangeBounds(values, start, stop - 1, lo, hi);
      var n := (stop - 1 - start) as real;
      assert (stop - start) as real == n + 1.0;
      assert (n + 1.0) * lo == n * lo + lo && (n + 1.0) * hi == n * hi + hi;
    }
  }

  /** A defined average lies between the smallest and the largest price of its window. */
  lemma MeanWithinWindow(values: seq<real>, period: int, i: nat, lo: real, hi: real)
    requires i < |values| && MaSpec(values, period)[i].Some?
    requires forall k :: i + 1 - period <= k <= i ==> lo <= values[k] <= hi
    ensures lo <= MaSpec(values, period)[i].value <= hi
  {
    SumRangeBounds(values, i + 1 - period, i + 1, lo, hi);
    var total, p := SumRange(values, i + 1 - period, i + 1), period as real;
    assert lo <= total / p <= hi;
  }
}
