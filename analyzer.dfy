/** The state of `fft.h`: the lazily built Hanning and bin-edge tables with
    their ready flags, the static work buffers, and `computeBars`, which turns
    one block of mono samples into bar heights. The compile-time constants of
    `protocol.h` and the C maths functions it calls are fields fixed at
    construction. */
module Analysis {
  import opened ComplexMath
  import opened BitReversal
  import opened FastFourier
  import opened Binning
  import opened Bars

  /** The arithmetic `fft` applies: unit twiddle `{1, 0}`, `cadd`, `csub`, `cmul`. */
  const ComplexArith: Arith<Complex> := Arith(One, CAdd, CSub, CMul)

  /** `cadd`, `csub` and `cmul` map zero operands to zero. */
  lemma ComplexZero()
    ensures IsZero(ComplexArith, Zero)
  {
  }

  /** The complex 2-point transform is `{a + b, a - b}`, whatever the twiddle. */
  lemma ComplexPair(a: Complex, b: Complex, root: int -> Complex)
    ensures Transform(ComplexArith, [a, b], 1, root) == [CAdd(a, b), CSub(a, b)]
  {
    TransformPair(ComplexArith, a, b, root);
  }

  /** Silent samples, whatever the window, transform to a buffer of zeros. */
  lemma SilentSpectrum(samples: seq<real>, window: seq<real>, width: nat, root: int -> Complex)
    requires |samples| >= Pow2(width) && |window| >= Pow2(width)
    requires forall i :: 0 <= i < Pow2(width) ==> samples[i] == 0.0
    ensures forall k :: 0 <= k < Pow2(width) ==>
              Transform(ComplexArith, Windowed(samples, window, Pow2(width)), width, root)[k] == Zero
  {
    ComplexZero();
    TransformZero(ComplexArith, Windowed(samples, window, Pow2(width)), width, root, Zero);
  }

  /** The buffer loaded from `samples` weighted by `window`: cell `k` is
      `{samples[k] * window[k], 0}`. */
  function Windowed(samples: seq<real>, window: seq<real>, n: nat): (s: seq<Complex>)
    requires |samples| >= n && |window| >= n
    ensures |s| == n
  {
    seq(n, k requires 0 <= k < n => Complex(samples[k] * window[k], 0.0))
  }

  class Analyzer {
    /** `FFT_SIZE`, a power of two, `2^logSize`. */
    const fftSize: int
    ghost const logSize: nat
    /** `BAR_COUNT`. */
    const barCount: int
    /** `SAMPLE_RATE` in Hz. */
    const sampleRate: int
    /** `freqEdge(i)` is `FREQ_MIN * powf(FREQ_MAX / FREQ_MIN, (float)i / BAR_COUNT)`,
        the low edge of bar `i` and the high edge of bar `i - 1`. */
    const freqEdge: int -> real
    /** `M_PI`, `cosf`, `sinf`, `sqrtf`, `log10f`. */
    const pi: real
    const cos: real -> real
    const sin: real -> real
    const sqrt: real -> real
    const log10: real -> real

    /** `g_hanning`, `g_binLo`, `g_binHi` and their ready flags. */
    const hanning: array<real>
    const binLo: array<int>
    const binHi: array<int>
    var hanningReady: bool
    var binsReady: bool
    /** The static `buf` and `mag` of `computeBars`. */
    const buf: array<Complex>
    const mag: array<real>

    /** Coefficient `i` of the Hanning window of `FFT_SIZE` points. */
    ghost function Hann(i: int): (h: real)
      requires fftSize >= 2
      ensures -1.0 <= cos(2.0 * pi * i as real / (fftSize - 1) as real) <= 1.0 ==> 0.0 <= h <= 1.0
    {
      0.5 * (1.0 - cos(2.0 * pi * i as real / (fftSize - 1) as real))
    }

    /** The raw bin index of an edge frequency `f`: `(int)(f * FFT_SIZE / SAMPLE_RATE)`. */
    function BinIndex(f: real): (r: int)
      requires sampleRate > 0
    {
      RawBin(f, fftSize, sampleRate)
    }

    /** A nonnegative frequency `f` falls in bin `r = BinIndex(f)`: the band
        `[r * SAMPLE_RATE / FFT_SIZE, (r + 1) * SAMPLE_RATE / FFT_SIZE)` holds `f`. */
    lemma BinBand(f: real)
      requires sampleRate > 0 && fftSize > 0 && 0.0 <= f
      ensures 0 <= BinIndex(f)
      ensures BinIndex(f) as real * sampleRate as real <= f * fftSize as real
      ensures f * fftSize as real < (BinIndex(f) + 1) as real * sampleRate as real
    {
      RawBinBand(f, fftSize, sampleRate);
    }

    /** The raw bin index of edge `i`. */
    ghost function RawEdge(i: int): (r: int)
      requires sampleRate > 0
    {
      BinIndex(freqEdge(i))
    }

    /** A higher frequency never falls in a lower bin. */
    lemma BinIndexMonotone(f: real, g: real)
      requires fftSize > 0 && sampleRate > 0 && f <= g
      ensures BinIndex(f) <= BinIndex(g)
    {
      RawBinMonotone(f, g, fftSize, sampleRate);
    }

    /** Edge frequencies that do not decrease give bars whose first and last
        bins do not decrease either. */
    lemma BinsOrdered(b: int)
      requires fftSize > 0 && sampleRate > 0
      requires freqEdge(b) <= freqEdge(b + 1) <= freqEdge(b + 2)
      ensures BinLo(RawEdge(b)) <= BinLo(RawEdge(b + 1))
      ensures BinHi(RawEdge(b), RawEdge(b + 1), fftSize / 2) <= BinHi(RawEdge(b + 1), RawEdge(b + 2), fftSize / 2)
    {
      BinIndexMonotone(freqEdge(b), freqEdge(b + 1));
      BinIndexMonotone(freqEdge(b + 1), freqEdge(b + 2));
      BinsMonotone(RawEdge(b), RawEdge(b + 1), RawEdge(b + 1), RawEdge(b + 2), fftSize / 2);
    }

    /** The twiddle `wn` of a stage of length `len`: the point of angle
        `-2π / len`, on the unit circle whenever `cosf` and `sinf` satisfy
        `cos² + sin² = 1` there. */
    function Twiddle(len: int): (wn: Complex)
      ensures len == 0 ==> wn == One
      ensures len != 0 && Squares(-2.0 * pi / len as real) == 1.0 ==> Norm2(wn) == 1.0
    {
      if len == 0 then One
      else Complex(cos(-2.0 * pi / len as real), sin(-2.0 * pi / len as real))
    }

    /** `cos(a)² + sin(a)²`. */
    function Squares(a: real): (r: real)
    {
      cos(a) * cos(a) + sin(a) * sin(a)
    }

    ghost predicate Valid()
      reads this, hanning, binLo, binHi
    {
      && fftSize == Pow2(logSize) && fftSize >= 2
      && barCount >= 1 && sampleRate > 0
      && hanning.Length == buf.Length == fftSize
      && mag.Length == fftSize / 2
      && binLo.Length == binHi.Length == barCount
      && binLo != binHi && hanning != mag
      && (hanningReady ==> forall i :: 0 <= i < fftSize ==> hanning[i] == Hann(i))
      && (binsReady ==> forall b :: 0 <= b < barCount ==>
            binLo[b] == BinLo(RawEdge(b)) && binHi[b] == BinHi(RawEdge(b), RawEdge(b + 1), fftSize / 2))
    }

    /** The program's start: static tables allocated, nothing computed yet. */
    constructor (fftSize: int, ghost logSize: nat, barCount: int, sampleRate: int, freqEdge: int -> real,
                 pi: real, cos: real -> real, sin: real -> real, sqrt: real -> real, log10: real -> real)
      requires fftSize == Pow2(logSize) && fftSize >= 2
      requires barCount >= 1 && sampleRate > 0
      ensures Valid() && !hanningReady && !binsReady
      ensures this.fftSize == fftSize && this.barCount == barCount && this.sampleRate == sampleRate
      ensures this.freqEdge == freqEdge && this.pi == pi && this.cos == cos && this.sin == sin
      ensures this.sqrt == sqrt && this.log10 == log10
      ensures fresh(hanning) && fresh(binLo) && fresh(binHi) && fresh(buf) && fresh(mag)
    {
      this.fftSize, this.logSize, this.barCount, this.sampleRate := fftSize, logSize, barCount, sampleRate;
      this.freqEdge, this.pi, this.cos, this.sin := freqEdge, pi, cos, sin;
      this.sqrt, this.log10 := sqrt, log10;
      hanning := new real[fftSize];
      binLo := new int[barCount];
      binHi := new int[barCount];
      buf := new Complex[fftSize];
      mag := new real[fftSize / 2];
      hanningReady, binsReady := false, false;
    }

    /** `ensureHanning`: fills the window table once; a later call returns at
        once and changes nothing. */
    method EnsureHanning()
      requires Valid()
      modifies this`hanningReady, hanning
      ensures Valid() && hanningReady
      ensures old(hanningReady) ==> unchanged(hanning)
      ensures forall i :: 0 <= i < fftSize ==> hanning[i] == Hann(i)
    {
      if hanningReady {
        return;
      }
      for i := 0 to fftSize
        invariant forall k :: 0 <= k < i ==> hanning[k] == Hann(k)
      {
        hanning[i] := 0.5 * (1.0 - cos(2.0 * pi * i as real / (fftSize - 1) as real));
        assert hanning[i] == Hann(i);
      }
      hanningReady := true;
    }

    /** `ensureBins`: fills the bin-edge tables once, truncating each raw
        edge and clamping it as `BinLo`/`BinHi` state; a later call returns at
        once and changes nothing. */
    method EnsureBins()
      requires Valid()
      modifies this`binsReady, binLo, binHi
      ensures Valid() && binsReady
      ensures old(binsReady) ==> unchanged(binLo) && unchanged(binHi)
      ensures forall b :: 0 <= b < barCount ==>
                binLo[b] == BinLo(RawEdge(b)) && binHi[b] == BinHi(RawEdge(b), RawEdge(b + 1), fftSize / 2)
    {
      if binsReady {
        return;
      }
      for i := 0 to barCount
        invariant forall b :: 0 <= b < i ==>
                    binLo[b] == BinLo(RawEdge(b)) && binHi[b] == BinHi(RawEdge(b), RawEdge(b + 1), fftSize / 2)
      {
        FillBar(i);
      }
      binsReady := true;
    }

    /** The body of the loop of `ensureBins`: bar `i`'s edges are truncated
        and clamped; the other bars keep theirs. */
    method FillBar(i: int)
      requires 0 <= i < binLo.Length == binHi.Length && binLo != binHi && sampleRate > 0
      modifies binLo, binHi
      ensures binLo[..] == old(binLo[..])[i := BinLo(RawEdge(i))]
      ensures binHi[..] == old(binHi[..])[i := BinHi(RawEdge(i), RawEdge(i + 1), fftSize / 2)]
    {
      var fLo := freqEdge(i);
      var fHi := freqEdge(i + 1);
      binLo[i] := BinIndex(fLo);
      binHi[i] := BinIndex(fHi);
      ghost var rawLo, rawHi := RawEdge(i), RawEdge(i + 1);
      if binLo[i] < 1 {
        binLo[i] := 1;
      }
      if binHi[i] >= fftSize / 2 {
        binHi[i] := fftSize / 2 - 1;
      }
      if binHi[i] < binLo[i] {
        binHi[i] := binLo[i];
      }
      assert binLo[i] == BinLo(rawLo) && binHi[i] == BinHi(rawLo, rawHi, fftSize / 2);
    }

    /** Every bar's raw first bin lies below the Nyquist bin of an FFT of at
        least 4 points. `computeBars` relies on it: the first bin is never
        lowered, and it is the first index read from `mag`. */
    ghost predicate BinsFit()
    {
      fftSize >= 4 && sampleRate > 0 && forall b :: 0 <= b < barCount ==> RawEdge(b) <= fftSize / 2 - 1
    }

    /** `computeBars`: builds the tables if needed, loads the windowed samples
        into `buf`, transforms it, takes the magnitude of the first half of
        the bins, and writes each bar's height in `[0, 1]`: the average
        magnitude over its bins on the -60 dB .. 0 dB scale. Every magnitude
        read lies in `mag[1 .. FFT_SIZE/2 - 1]` and every bar covers at least
        one bin. Silent input gives bars of 0. */
    method ComputeBars(samples: seq<real>, bars: array<real>)
      requires Valid() && BinsFit()
      requires |samples| >= fftSize && bars.Length == barCount
      requires bars != hanning && bars != mag
      modifies this`hanningReady, this`binsReady, hanning, binLo, binHi, buf, mag, bars
      ensures Valid() && hanningReady && binsReady
      ensures forall b :: 0 <= b < barCount ==> 1 <= binLo[b] <= binHi[b] <= fftSize / 2 - 1
      ensures buf[..] == Transform(ComplexArith, Windowed(samples, hanning[..], fftSize), logSize, Twiddle)
      ensures forall i :: 0 <= i < fftSize / 2 ==> mag[i] == sqrt(Norm2(buf[i]))
      ensures forall b :: 0 <= b < barCount ==>
                bars[b] == Height(BarAverage(mag[..], binLo[b], binHi[b]), fftSize, log10)
      ensures forall b :: 0 <= b < barCount ==> 0.0 <= bars[b] <= 1.0
      ensures (forall i :: 0 <= i < fftSize ==> samples[i] == 0.0) && sqrt(0.0) == 0.0 && log10(Floor) <= -3.0 ==>
                forall b :: 0 <= b < barCount ==> bars[b] == 0.0
    {
      EnsureTables();
      Spectrum(samples);
      AverageBars(bars);
      if (forall i :: 0 <= i < fftSize ==> samples[i] == 0.0) && sqrt(0.0) == 0.0 && log10(Floor) <= -3.0 {
        assert forall k :: 0 <= k < mag.Length ==> mag[..][k] == 0.0;
        SilentBars(mag[..], binLo[..], binHi[..], bars[..], fftSize, log10);
      }
    }

    /** The table phase of `computeBars`: both tables are built, and every
        bar's first and last bins lie in `[1, FFT_SIZE/2 - 1]` in order. */
    method EnsureTables()
      requires Valid() && BinsFit()
      modifies this`hanningReady, this`binsReady, hanning, binLo, binHi
      ensures Valid() && hanningReady && binsReady
      ensures forall i :: 0 <= i < fftSize ==> hanning[i] == Hann(i)
      ensures forall b :: 0 <= b < barCount ==> 1 <= binLo[b] <= binHi[b] <= fftSize / 2 - 1
    {
      EnsureHanning();
      EnsureBins();
      forall b | 0 <= b < barCount
        ensures 1 <= binLo[b] <= binHi[b] <= fftSize / 2 - 1
      {
        assert binHi[b] == BinHi(RawEdge(b), RawEdge(b + 1), fftSize / 2);
      }
    }

    /** The spectrum pass of `computeBars`: the windowed samples are loaded
        into `buf` and transformed, and `mag` receives the modulus of the
        lower half of the bins. Silent samples give magnitudes `sqrtf(0)`. */
    method Spectrum(samples: seq<real>)
      requires Valid() && |samples| >= fftSize
      modifies buf, mag
      ensures Valid()
      ensures buf[..] == Transform(ComplexArith, Windowed(samples, hanning[..], fftSize), logSize, Twiddle)
      ensures forall k :: 0 <= k < fftSize / 2 ==> mag[k] == sqrt(Norm2(buf[k]))
      ensures (forall i :: 0 <= i < fftSize ==> samples[i] == 0.0) ==>
                forall k :: 0 <= k < fftSize / 2 ==> mag[k] == sqrt(0.0)
    {
      TransformWindow(samples);
      if forall i :: 0 <= i < fftSize ==> samples[i] == 0.0 {
        SilentSpectrum(samples, hanning[..], logSize, Twiddle);
        assert forall k :: 0 <= k < fftSize / 2 ==> buf[k] == Zero;
      }
      Magnitudes();
      assert unchanged(this, hanning, binLo, binHi);
    }

    /** The windowed samples are loaded into `buf` and transformed in place. */
    method TransformWindow(samples: seq<real>)
      requires |samples| >= fftSize && hanning.Length == buf.Length == fftSize == Pow2(logSize)
      modifies buf
      ensures buf[..] == Transform(ComplexArith, Windowed(samples, hanning[..], fftSize), logSize, Twiddle)
    {
      LoadWindow(samples);
      assert forall k :: 0 <= k < fftSize ==> buf[..][k] == Windowed(samples, hanning[..], fftSize)[k];
      assert buf[..] == Windowed(samples, hanning[..], fftSize);
      Fft(buf, fftSize, logSize, Twiddle, ComplexArith);
    }

    /** The window load of `computeBars`: `buf[i]` is `samples[i]` weighted by
        the Hanning window, with imaginary part 0. */
    method LoadWindow(samples: seq<real>)
      requires |samples| >= fftSize && hanning.Length == buf.Length == fftSize
      modifies buf
      ensures forall k :: 0 <= k < fftSize ==> buf[k] == Complex(samples[k] * hanning[k], 0.0)
      ensures (forall k :: 0 <= k < fftSize ==> samples[k] == 0.0) ==> forall k :: 0 <= k < fftSize ==> buf[k] == Zero
    {
      for i := 0 to fftSize
        invariant forall k :: 0 <= k < i ==> buf[k] == Complex(samples[k] * hanning[k], 0.0)
      {
        buf[i] := buf[i].(re := samples[i] * hanning[i]);
        buf[i] := buf[i].(im := 0.0);
      }
    }

    /** The magnitude pass of `computeBars`: `mag[i]` is the modulus of bin `i`
        for the lower half of the spectrum. */
    method Magnitudes()
      requires buf.Length == fftSize && mag.Length == fftSize / 2
      modifies mag
      ensures forall k :: 0 <= k < fftSize / 2 ==> mag[k] == sqrt(Norm2(buf[k]))
      ensures (forall k :: 0 <= k < fftSize / 2 ==> buf[k] == Zero) ==> forall k :: 0 <= k < fftSize / 2 ==> mag[k] == sqrt(0.0)
    {
      for i := 0 to fftSize / 2
        invariant forall k :: 0 <= k < i ==> mag[k] == sqrt(Norm2(buf[k]))
      {
        mag[i] := sqrt(Norm2(buf[i]));
      }
    }

    /** The bar pass of `computeBars`: each bar sums `mag[lo..hi]`, counting
        `hi - lo + 1` terms, converts the average to decibels and clamps the
        normalised level into `[0, 1]`. */
    method AverageBars(bars: array<real>)
      requires bars.Length == binLo.Length == binHi.Length == barCount
      requires fftSize > 0 && bars != mag
      requires forall b :: 0 <= b < barCount ==> 0 <= binLo[b] <= binHi[b] < mag.Length
      modifies bars
      ensures forall b :: 0 <= b < barCount ==>
                bars[b] == Height(BarAverage(mag[..], binLo[b], binHi[b]), fftSize, log10)
      ensures forall b :: 0 <= b < barCount ==> 0.0 <= bars[b] <= 1.0
    {
      for b := 0 to barCount
        invariant forall c :: 0 <= c < b ==>
                    bars[c] == Height(BarAverage(mag[..], binLo[c], binHi[c]), fftSize, log10)
        invariant forall c :: 0 <= c < b ==> 0.0 <= bars[c] <= 1.0
      {
        var sum := 0.0;
        var count := 0;
        var k := binLo[b];
        while k <= binHi[b]
          invariant binLo[b] <= k <= binHi[b] + 1
          invariant sum == Sum(mag[..], binLo[b], k) && count == k - binLo[b]
        {
          sum := sum + mag[k];
          count := count + 1;
          k := k + 1;
        }
        var avg := if count > 0 then sum / count as real else 0.0;
        assert avg == BarAverage(mag[..], binLo[b], binHi[b]);
        var db := Decibels(avg, fftSize, log10);
        var norm := (db + 60.0) / 60.0;
        if norm < 0.0 {
          norm := 0.0;
        }
        if norm > 1.0 {
          norm := 1.0;
        }
        bars[b] := norm;
        assert bars[b] == Height(avg, fftSize, log10);
      }
    }
  }
}
