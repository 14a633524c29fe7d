/** Log-spaced frequency bins (`ensureBins`), as functions of the raw edge
    indices. A raw edge index is `(int)(f * FFT_SIZE / SAMPLE_RATE)` for an
    edge frequency `f`; the C cast truncates toward zero. */
module Binning {

  /** The C conversion `(int)x` of a finite value: truncation toward zero. */
  function Trunc(x: real): (r: int)
    ensures 0.0 <= x ==> 0 <= r && r as real <= x < r as real + 1.0
    ensures x < 0.0 ==> r <= 0 && r as real - 1.0 < x <= r as real
  {
    if x >= 0.0 then x.Floor else -((-x).Floor)
  }

  /** Truncation preserves order. */
  lemma TruncMonotone(x: real, y: real)
    requires x <= y
    ensures Trunc(x) <= Trunc(y)
  {
  }

  /** Comparing with a quotient by a positive `c` is comparing products. */
  lemma DivOrder(a: real, b: real, c: real)
    requires c > 0.0
    ensures a <= b / c <==> a * c <= b
    ensures a < b / c <==> a * c < b
  {
  }

  /** The raw bin index `(int)(f * size / rate)` of a frequency `f` in an
      FFT of `size` points sampled at `rate` Hz. */
  function RawBin(f: real, size: int, rate: int): (r: int)
    requires rate > 0
  {
    Trunc(f * size as real / rate as real)
  }

  /** A frequency `f >= 0` falls in its raw bin `r`: the band
      `[r * rate / size, (r + 1) * rate / size)` holds `f`, stated without
      division as `r * rate <= f * size < (r + 1) * rate`. */
  lemma RawBinBand(f: real, size: int, rate: int)
    requires 0.0 <= f && size > 0 && rate > 0
    ensures 0 <= RawBin(f, size, rate)
    ensures RawBin(f, size, rate) as real * rate as real <= f * size as real
    ensures f * size as real < (RawBin(f, size, rate) + 1) as real * rate as real
  {
    assert RawBin(f, size, rate) == Trunc(f * size as real / rate as real);
    TruncQuotient(f * size as real, rate as real);
  }

  /** The truncated quotient `r = (int)(p / d)` of `p >= 0` by `d > 0` is the
      one with `r * d <= p < (r + 1) * d`. */
  lemma TruncQuotient(p: real, d: real)
    requires 0.0 <= p && d > 0.0
    ensures 0 <= Trunc(p / d)
    ensures Trunc(p / d) as real * d <= p < (Trunc(p / d) + 1) as real * d
  {
    var x := p / d;
    var r := Trunc(x);
    assert 0.0 <= x by {
      DivOrder(0.0, p, d);
    }
    assert r as real <= x < (r + 1) as real;
    DivOrder(r as real, p, d);
    DivOrder((r + 1) as real, p, d);
  }

  /** A higher frequency never falls in a lower raw bin. */
  lemma RawBinMonotone(f: real, g: real, size: int, rate: int)
    requires size > 0 && rate > 0 && f <= g
    ensures RawBin(f, size, rate) <= RawBin(g, size, rate)
  {
    var scale := size as real / rate as real;
    assert f * size as real / rate as real == f * scale;
    assert g * size as real / rate as real == g * scale;
    assert f * scale <= g * scale;
    TruncMonotone(f * scale, g * scale);
  }

  /** First bin of a bar: the raw index, raised to 1 so that bin 0 (DC) is
      never used. */
  function BinLo(rawLo: int): (lo: int)
    ensures lo >= 1 && lo >= rawLo
    ensures rawLo >= 1 ==> lo == rawLo
  {
    if rawLo < 1 then 1 else rawLo
  }

  /** Last bin of a bar whose raw edges are `rawLo` and `rawHi`, for an FFT of
      `2 * half` points: lowered to `half - 1`, then raised to the first bin.
      Every bar covers at least one bin, and ends at the larger of its first
      bin and `half - 1` at most. So when the raw first bin lies below the
      Nyquist bin `half`, so does the last; the first bin is never lowered,
      so without that condition (or with `half < 2`) the last bin lies beyond
      the magnitude table. Raw edges already in order inside `[1, half - 1]`
      are kept as they are. */
  function BinHi(rawLo: int, rawHi: int, half: int): (hi: int)
    ensures 1 <= BinLo(rawLo) <= hi
    ensures hi <= BinLo(rawLo) || hi <= half - 1
    ensures 2 <= half && rawLo <= half - 1 ==> hi <= half - 1
    ensures 1 <= rawLo <= rawHi <= half - 1 ==> hi == rawHi
  {
    var hi := if rawHi >= half then half - 1 else rawHi;
    if hi < BinLo(rawLo) then BinLo(rawLo) else hi
  }

  /** Clamping keeps bars in order: when the raw edges of one bar are at most
      those of the next, so are the clamped ones. */
  lemma BinsMonotone(rawLo: int, rawHi: int, rawLo': int, rawHi': int, half: int)
    requires rawLo <= rawLo' && rawHi <= rawHi'
    ensures BinLo(rawLo) <= BinLo(rawLo')
    ensures BinHi(rawLo, rawHi, half) <= BinHi(rawLo', rawHi', half)
  {
  }
}
