/** Per-bar aggregation in `computeBars`: the average magnitude over a bar's
    bins and its conversion to a height in `[0, 1]` on a -60 dB .. 0 dB
    scale. `log10f` is a parameter. */
module Bars {

  /** `mag[lo] + ... + mag[hi - 1]`, added left to right as `sum += mag[k]`.
      A sum of magnitudes is never negative. */
  function Sum(mag: seq<real>, lo: int, hi: int): (r: real)
    requires 0 <= lo <= hi <= |mag|
    ensures (forall k :: lo <= k < hi ==> 0.0 <= mag[k]) ==> 0.0 <= r
    decreases hi - lo
  {
    if lo == hi then 0.0 else Sum(mag, lo, hi - 1) + mag[hi - 1]
  }

  /** A sum of `hi - lo` terms, each in `[0, m]`, lies in `[0, (hi - lo) * m]`. */
  lemma {:induction false} SumBounds(mag: seq<real>, lo: int, hi: int, m: real)
    requires 0 <= lo <= hi <= |mag|
    requires forall k :: lo <= k < hi ==> 0.0 <= mag[k] <= m
    ensures 0.0 <= Sum(mag, lo, hi) <= (hi - lo) as real * m
    decreases hi - lo
  {
    if lo < hi {
      SumBounds(mag, lo, hi - 1, m);
      assert (hi - lo) as real * m == (hi - 1 - lo) as real * m + m;
    }
  }

  /** The average of `mag[lo..hi]` (both ends included): `sum / count`, or
      `0.0` when the range is empty and `count` is 0. */
  function BarAverage(mag: seq<real>, lo: int, hi: int): (avg: real)
    requires 0 <= lo && hi < |mag|
    ensures hi < lo ==> avg == 0.0
  {
    var count := if lo <= hi then hi - lo + 1 else 0;
    if count > 0 then Sum(mag, lo, hi + 1) / count as real else 0.0
  }

  /** An average of magnitudes in `[0, m]` lies in `[0, m]`. */
  lemma AverageBounds(mag: seq<real>, lo: int, hi: int, m: real)
    requires 0 <= lo <= hi < |mag|
    requires forall k :: lo <= k <= hi ==> 0.0 <= mag[k] <= m
    ensures 0.0 <= BarAverage(mag, lo, hi) <= m
  {
    SumBounds(mag, lo, hi + 1, m);
    var count := (hi - lo + 1) as real;
    DivBound(Sum(mag, lo, hi + 1), count, m);
  }

  /** A total of at most `count * m` over `count` terms averages to at most `m`. */
  lemma DivBound(x: real, count: real, m: real)
    requires count > 0.0 && x <= count * m
    ensures x / count <= m
  {
    var a := x / count;
    assert a * count == x;
    if a > m {
      assert (a - m) * count > 0.0;
    }
  }

  /** The `1e-10f` added before taking the logarithm, so that silence maps
      to a finite level. */
  const Floor: real := 0.0000000001

  /** The level in decibels of an average magnitude, relative to the full
      scale `n * 0.5` of an `n`-point FFT. Silence is at the level of the
      floor, full scale at that of `1 + 1e-10`. */
  function Decibels(avg: real, n: int, log10: real -> real): (db: real)
    requires n > 0
    ensures avg == 0.0 ==> db == 20.0 * log10(Floor)
    ensures avg == n as real * 0.5 ==> db == 20.0 * log10(1.0 + Floor)
  {
    assert avg == n as real * 0.5 ==> avg / (n as real * 0.5) == 1.0;
    20.0 * log10(avg / (n as real * 0.5) + Floor)
  }

  /** The bar height: the level mapped from -60 dB .. 0 dB onto 0 .. 1 and
      clamped into that range. Levels at or below -60 dB give 0, levels at or
      above 0 dB give 1. */
  function Height(avg: real, n: int, log10: real -> real): (h: real)
    requires n > 0
    ensures 0.0 <= h <= 1.0
    ensures Decibels(avg, n, log10) <= -60.0 ==> h == 0.0
    ensures Decibels(avg, n, log10) >= 0.0 ==> h == 1.0
  {
    var norm := (Decibels(avg, n, log10) + 60.0) / 60.0;
    if norm < 0.0 then 0.0 else if norm > 1.0 then 1.0 else norm
  }

  /** A bar over silent bins is 0 whenever `log10f` maps the `1e-10f` floor
      to -3 or below, as it does: silence sits at -200 dB. */
  lemma SilentBar(mag: seq<real>, lo: int, hi: int, n: int, log10: real -> real)
    requires 0 <= lo <= hi < |mag| && n > 0
    requires forall k :: lo <= k <= hi ==> mag[k] == 0.0
    requires log10(Floor) <= -3.0
    ensures Height(BarAverage(mag, lo, hi), n, log10) == 0.0
  {
    AverageBounds(mag, lo, hi, 0.0);
    assert BarAverage(mag, lo, hi) / (n as real * 0.5) + Floor == Floor;
  }

  /** Bars computed over a table of silent magnitudes are all 0 whenever
      `log10f` maps the floor to -3 or below. */
  lemma SilentBars(mag: seq<real>, lo: seq<int>, hi: seq<int>, bars: seq<real>, n: int, log10: real -> real)
    requires |lo| == |hi| == |bars| && n > 0
    requires forall b :: 0 <= b < |lo| ==> 0 <= lo[b] <= hi[b] < |mag|
    requires forall k :: 0 <= k < |mag| ==> mag[k] == 0.0
    requires log10(Floor) <= -3.0
    requires forall b :: 0 <= b < |bars| ==> bars[b] == Height(BarAverage(mag, lo[b], hi[b]), n, log10)
    ensures forall b :: 0 <= b < |bars| ==> bars[b] == 0.0
  {
    forall b | 0 <= b < |bars|
      ensures bars[b] == 0.0
    {
      SilentBar(mag, lo[b], hi[b], n, log10);
    }
  }

  /** A louder level never gives a lower bar. */
  lemma HeightMonotone(avg: real, avg': real, n: int, log10: real -> real)
    requires n > 0
    requires Decibels(avg, n, log10) <= Decibels(avg', n, log10)
    ensures Height(avg, n, log10) <= Height(avg', n, log10)
  {
  }
}
