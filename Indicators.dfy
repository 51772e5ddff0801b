/** The 14-period Relative Strength Index of `compute_rsi`, in exact real arithmetic.

    pandas computes `close.diff()`, clips it into gains and losses, and takes the rolling
    mean of each over `period` values; the last row of that rolling mean covers exactly
    the last `period` differences, i.e. the last `period + 1` closes. */
module Indicators {
  import opened Wrappers

  /** `delta.clip(lower=0)` for one difference. */
  function Gain(d: real): (g: real)
    ensures g >= 0.0 && g >= d
    ensures g == 0.0 || g == d
  {
    if d > 0.0 then d else 0.0
  }

  /** `(-delta).clip(lower=0)` for one difference. */
  function Loss(d: real): (l: real)
    ensures l >= 0.0 && l >= -d
    ensures l == 0.0 || l == -d
  {
    if d < 0.0 then -d else 0.0
  }

  /** The sum of the gains over the successive differences of `w`. */
  function SumGains(w: seq<real>): (s: real)
    ensures s >= 0.0
  {
    if |w| < 2 then 0.0 else Gain(w[1] - w[0]) + SumGains(w[1..])
  }

  /** The sum of the losses over the successive differences of `w`. */
  function SumLosses(w: seq<real>): (s: real)
    ensures s >= 0.0
  {
    if |w| < 2 then 0.0 else Loss(w[1] - w[0]) + SumLosses(w[1..])
  }

  /** The closes the last rolling window looks at: the last `period + 1` of them. */
  function Window(close: seq<real>, period: nat): (w: seq<real>)
    requires period + 1 <= |close|
    ensures |w| == period + 1
    ensures forall i :: 0 <= i < |w| ==> w[i] == close[|close| - 1 - period + i]
  {
    close[|close| - 1 - period..]
  }

  /** `compute_rsi(close, period)`. `None` exactly when there are fewer than `period + 1`
      closes, or the rolling mean is undefined: the window is empty (`period == 0`) or the
      window has no loss (a zero average loss is replaced by NaN in the source). */
  function ComputeRsi(close: seq<real>, period: nat): (r: Option<real>)
    ensures r.None? <==> |close| < period + 1 || period == 0 || SumLosses(Window(close, period)) == 0.0
    ensures r.Some? ==> 0.0 <= r.value < 100.0
  {
    if |close| < period + 1 || period == 0 then None
    else
      var w := Window(close, period);
      var avgGain := SumGains(w) / period as real;
      var avgLoss := SumLosses(w) / period as real;
      ZeroMean(SumLosses(w), period as real);
      if avgLoss == 0.0 then None
      else
        var rs := avgGain / avgLoss;
        assert rs >= 0.0;
        var rsi := 100.0 - 100.0 / (1.0 + rs);
        assert 0.0 < 100.0 / (1.0 + rs) <= 100.0;
        Some(rsi)
  }

  /** A mean over a non-empty window is zero exactly when the sum is. */
  lemma ZeroMean(x: real, p: real)
    requires p > 0.0
    ensures x / p == 0.0 <==> x == 0.0
  {
    if x / p == 0.0 {
      assert x == (x / p) * p;
    }
  }

  /** Gains minus losses telescope to the net move over the window. */
  lemma {:induction false} NetMove(w: seq<real>)
    requires |w| >= 1
    ensures SumGains(w) - SumLosses(w) == w[|w| - 1] - w[0]
  {
    if |w| >= 2 {
      NetMove(w[1..]);
    }
  }

  /** Gains plus losses add up to the total distance travelled (the sum of |differences|). */
  function Travel(w: seq<real>): (t: real)
    ensures t >= 0.0
  {
    if |w| < 2 then 0.0
    else (if w[1] >= w[0] then w[1] - w[0] else w[0] - w[1]) + Travel(w[1..])
  }

  lemma {:induction false} GainsPlusLosses(w: seq<real>)
    ensures SumGains(w) + SumLosses(w) == Travel(w)
  {
    if |w| >= 2 {
      GainsPlusLosses(w[1..]);
    }
  }

  /** Whenever an RSI is produced, it is the share of gains in the total movement of the
      window, scaled to 100: RSI = 100 * G / (G + L). */
  lemma RsiIsGainShare(close: seq<real>, period: nat)
    requires ComputeRsi(close, period).Some?
    ensures period >= 1 && |close| >= period + 1
    ensures var w := Window(close, period);
            SumLosses(w) > 0.0 &&
            ComputeRsi(close, period).value == 100.0 * SumGains(w) / (SumGains(w) + SumLosses(w))
  {
    var w := Window(close, period);
    var p := period as real;
    var g, l := SumGains(w), SumLosses(w);
    assert l / p != 0.0;
    MeansRatio(g, l, p);
    RatioForm(g, l);
  }

  /** Dividing both sums by the period does not change their ratio. */
  lemma MeansRatio(g: real, l: real, p: real)
    requires l > 0.0 && p > 0.0
    ensures (g / p) / (l / p) == g / l
  {
    calc {
      (g / p) / (l / p);
      (g / p) * (p / l);
      g / l;
    }
  }

  /** 100 - 100 / (1 + g/l) == 100 g / (g + l). */
  lemma RatioForm(g: real, l: real)
    requires g >= 0.0 && l > 0.0
    ensures 100.0 - 100.0 / (1.0 + g / l) == 100.0 * g / (g + l)
  {
    var q := g / l;
    assert q * l == g;
    assert (1.0 + q) * l == l + g;
    var x := 100.0 / (1.0 + q);
    assert x * (1.0 + q) == 100.0;
    assert x * (l + g) == (x * (1.0 + q)) * l == 100.0 * l;
    assert (100.0 - x) * (g + l) == 100.0 * g;
    var y := 100.0 * g / (g + l);
    assert y * (g + l) == 100.0 * g;
    Cancel(100.0 - x, y, g + l);
  }

  lemma Cancel(a: real, b: real, c: real)
    requires c > 0.0 && a * c == b * c
    ensures a == b
  {
    assert (a - b) * c == 0.0;
  }

  /** The RSI is zero exactly when the window has no gain. */
  lemma RsiZeroIffNoGain(close: seq<real>, period: nat)
    requires ComputeRsi(close, period).Some?
    ensures period >= 1 && |close| >= period + 1
    ensures ComputeRsi(close, period).value == 0.0 <==> SumGains(Window(close, period)) == 0.0
  {
    RsiIsGainShare(close, period);
  }

  /** Every close is at least the one before it. */
  predicate NonDecreasing(w: seq<real>) {
    forall i :: 0 <= i < |w| - 1 ==> w[i] <= w[i + 1]
  }

  /** Every close is at most the one before it. */
  predicate NonIncreasing(w: seq<real>) {
    forall i :: 0 <= i < |w| - 1 ==> w[i] >= w[i + 1]
  }

  lemma {:induction false} NoLossWhenRising(w: seq<real>)
    requires NonDecreasing(w)
    ensures SumLosses(w) == 0.0
  {
    if |w| >= 2 {
      assert NonDecreasing(w[1..]) by {
        forall i | 0 <= i < |w[1..]| - 1
          ensures w[1..][i] <= w[1..][i + 1]
        {
          assert w[1..][i] == w[i + 1] && w[1..][i + 1] == w[i + 2];
        }
      }
      NoLossWhenRising(w[1..]);
    }
  }

  lemma {:induction false} NoGainWhenFalling(w: seq<real>)
    requires NonIncreasing(w)
    ensures SumGains(w) == 0.0
  {
    if |w| >= 2 {
      assert NonIncreasing(w[1..]) by {
        forall i | 0 <= i < |w[1..]| - 1
          ensures w[1..][i] >= w[1..][i + 1]
        {
          assert w[1..][i] == w[i + 1] && w[1..][i + 1] == w[i + 2];
        }
      }
      NoGainWhenFalling(w[1..]);
    }
  }

  /** A window without a loss never yields an RSI, whatever the gains: a steadily rising
      series gives `None`, not 100. */
  lemma RisingWindowHasNoRsi(close: seq<real>, period: nat)
    requires |close| >= period + 1
    requires NonDecreasing(Window(close, period))
    ensures ComputeRsi(close, period) == None
  {
    NoLossWhenRising(Window(close, period));
  }

  /** A window that only falls, and falls somewhere, has RSI 0. */
  lemma FallingWindowHasRsiZero(close: seq<real>, period: nat)
    requires period >= 1 && |close| >= period + 1
    requires NonIncreasing(Window(close, period))
    requires close[|close| - 1] < close[|close| - 1 - period]
    ensures ComputeRsi(close, period) == Some(0.0)
  {
    var w := Window(close, period);
    NoGainWhenFalling(w);
    NetMove(w);
    assert SumLosses(w) > 0.0;
  }

  /** Closes before the last `period + 1` have no influence. */
  lemma OnlyWindowMatters(older: seq<real>, close: seq<real>, period: nat)
    requires |close| >= period + 1
    ensures ComputeRsi(older + close, period) == ComputeRsi(close, period)
  {
    assert Window(older + close, period) == Window(close, period);
  }

  function Shift(w: seq<real>, c: real): (v: seq<real>)
    ensures |v| == |w|
    ensures forall i :: 0 <= i < |w| ==> v[i] == w[i] + c
  {
    seq(|w|, i requires 0 <= i < |w| => w[i] + c)
  }

  lemma {:induction false} ShiftKeepsMoves(w: seq<real>, c: real)
    ensures SumGains(Shift(w, c)) == SumGains(w)
    ensures SumLosses(Shift(w, c)) == SumLosses(w)
  {
    if |w| >= 2 {
      assert Shift(w, c)[1..] == Shift(w[1..], c);
      ShiftKeepsMoves(w[1..], c);
    }
  }

  /** The RSI depends only on price differences: adding a constant to every close
      leaves it unchanged. */
  lemma RsiShiftInvariant(close: seq<real>, period: nat, c: real)
    ensures ComputeRsi(Shift(close, c), period) == ComputeRsi(close, period)
  {
    if |close| >= period + 1 {
      assert Window(Shift(close, c), period) == Shift(Window(close, period), c);
      ShiftKeepsMoves(Window(close, period), c);
    }
  }
}
