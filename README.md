# Spectrum analyser core of the audio visualiser

This project models `native/common/fft.h`, the header-only DSP library of the
visualiser's capture daemon. The library turns one block of `FFT_SIZE` mono
samples into `BAR_COUNT` bar heights in `[0, 1]`, in these steps:

- a Hanning window, computed once into a global table;
- an in-place radix-2 Cooley-Tukey FFT, made of a bit-reversal permutation followed by butterfly stages;
- the magnitudes of the lower half of the spectrum;
- an average over each bar's log-spaced range of bins, whose edges are computed once into global tables;
- a conversion to a -60 dB .. 0 dB scale, clamped into `[0, 1]`.

The model has one module per part of the header:

- `ComplexMath`: `struct Complex` and `cadd`, `csub`, `cmul`. Floats are reals.
- `BitReversal`: `bitReverse`. Arrays are generic, and the bit-twiddled counter is modelled with integer arithmetic. The counter is proved to be the bit-reversal of the index, and the result `out[k] = in[rev(k)]` is proved to be a permutation.
- `FastFourier`: `fft`. It is written over any element type together with the arithmetic it applies (`Arith`: the unit twiddle, add, sub, mul). The function `Transform` is a recursive reference definition of the result: the bit-reversal permutation, then butterfly stages of length 2, 4, …, n. The in-place method `Fft` is proved to leave exactly `Transform` of the old buffer in `buf`, with every array access in bounds. About `Transform` the model proves that a zero buffer stays zero, that the 2-point transform is `{a + b, a - b}`, and that a block's butterflies touch only that block's cells.
- `Binning`: the truncating `(int)` conversion and the clamping of bin edges done by `ensureBins`.
- `Bars`: the per-bar sum, average, decibel level and clamp done by `computeBars`.
- `Analysis`: class `Analyzer`, which gathers the state the C code keeps in statics. That state is:
  - the window and bin tables with their ready flags;
  - the `buf` and `mag` work arrays;
  - the compile-time constants of `protocol.h` (`FFT_SIZE`, `BAR_COUNT`, `SAMPLE_RATE`, and the edge frequencies built from `FREQ_MIN` and `FREQ_MAX`);
  - `M_PI` and the C maths functions it calls (`cosf`, `sinf`, `powf` through the edge frequencies, `sqrtf`, `log10f`).

  The constants, `M_PI`, the maths functions and the five arrays are `const` fields set by the constructor; the arrays' contents change in place. The two ready flags `hanningReady` and `binsReady` are `var` fields that `EnsureHanning` and `EnsureBins` set.

`ensureHanning` and `ensureBins` become methods that fill their table once and then keep it. `computeBars` becomes `ComputeBars`. It runs in phases, each a method:

- `EnsureTables`: `ensureHanning` then `ensureBins`;
- `Spectrum`: load the windowed samples, run `Fft`, and compute the magnitudes (`LoadWindow` and `Fft` in `TransformWindow`, then `Magnitudes`);
- `AverageBars`: compute each bar's height.

The lengths and the Nyquist index `FFT_SIZE/2` follow the source exactly. Where the source does a float-to-int cast, the model truncates toward zero, as C does.

## Model

| member | source | states |
|---|---|---|
| ComplexMath.CAdd | native/common/fft.h:13 | `cadd` is undone by `csub` of the same operand; `{0,0}` is its identity on either side |
| ComplexMath.CSub | native/common/fft.h:14 | `csub` is undone by adding the operand back; subtracting `{0,0}` changes nothing; `a - a` is `{0,0}` |
| ComplexMath.CMul | native/common/fft.h:15-17 | `cmul` with a `{0,0}` operand gives `{0,0}`; `{1,0}` is its identity on either side |
| ComplexMath.Norm2 | native/common/fft.h:100 | the squared modulus `re*re + im*im` fed to `sqrtf` is never negative, and is 0 for `{0,0}` |
| BitReversal.RevInvolution | native/common/fft.h:20-27 | `width`-bit reversal maps `[0, 2^width)` into itself and is its own inverse, so `bitReverse` pairs cells |
| BitReversal.HasBitBits | native/common/fft.h:23 | the test `j & bit`, with `bit = 1 << t`, reads bit `t` of `j`'s binary digits |
| BitReversal.FlipBitToggles | native/common/fft.h:23-24 | `j ^= bit` inverts the tested bit, and a nonnegative counter stays nonnegative |
| BitReversal.FlipBitBits | native/common/fft.h:23-24 | `j ^= (1 << t)` inverts bit `t` of `j` and keeps every other bit |
| BitReversal.RevIncrementRange | native/common/fft.h:22-24 | the counter update keeps `j` in `[0, n)`, the indices of the buffer |
| BitReversal.RevIncrementStep | native/common/fft.h:22-24 | the inner `for (; j & bit; bit >>= 1) j ^= bit; j ^= bit;` turns the reversal of `i-1` into the reversal of `i` |
| BitReversal.NextRev | native/common/fft.h:22-24 | the loop run on the counter `j = rev(i-1)` leaves `j = rev(i)` |
| BitReversal.SwapSourceStep | native/common/fft.h:25 | the swap guarded by `i < j` moves only cells `i` and `rev(i)`, and only once per pair |
| BitReversal.SwapPair | native/common/fft.h:25 | the guarded swap at index `i` moves each cell of the pair `{i, rev(i)}` to its final place once, and permutes the contents |
| BitReversal.BitReverse | native/common/fft.h:20-27 | after `bitReverse`, `buf[k]` is the old `buf[rev(k)]` for every `k`, `j` stays in `[0, n)`, and the contents are a permutation of the old contents |
| FastFourier.StageDivides | native/common/fft.h:32-35 | a stage length `2^s`, `s <= log2 n`, splits the buffer into whole blocks, so `i += len` lands exactly on `n` |
| FastFourier.Pow2Increasing | native/common/fft.h:32 | powers of two strictly increase, so a stage length `len = 2^s <= n` has `s <= log2 n` |
| FastFourier.ButterfliesFrame | native/common/fft.h:37-43 | the butterflies of one block leave every cell outside the block's unprocessed halves unchanged |
| FastFourier.TransformZero | native/common/fft.h:30-46 | a buffer of zeros transforms to zeros, whatever the twiddles, when add, sub and mul map zero operands to zero |
| FastFourier.TransformPair | native/common/fft.h:30-46 | the 2-point transform is one butterfly with the unit twiddle: `{a + 1*b, a - 1*b}` |
| FastFourier.Block | native/common/fft.h:36-43 | the inner loop, starting from `w = {1,0}` and updating `w = cmul(w, wn)`, leaves the block's butterflies of the old buffer (`Butterflies`) |
| FastFourier.StagePass | native/common/fft.h:35-44 | the middle loop over `i += len` leaves one stage of the old buffer (`Stage`) |
| FastFourier.Fft | native/common/fft.h:30-46 | `fft` leaves in `buf` exactly `Transform` of the old contents: the bit-reversal permutation, then the butterfly stages of length 2, 4, …, n, each with twiddle `root(len)` |
| Binning.Trunc | native/common/fft.h:72-73 | the `(int)` cast truncates toward zero: the result is within 1 of its argument, on the zero side |
| Binning.TruncMonotone | native/common/fft.h:72-73 | truncation preserves order |
| Binning.TruncQuotient | native/common/fft.h:72-73 | the truncated quotient `r = (int)(p / d)` of `p >= 0` by `d > 0` is the one with `r * d <= p < (r + 1) * d` |
| Binning.RawBinBand | native/common/fft.h:72-73 | a frequency `f >= 0` lies in the band of its raw bin `r = (int)(f * FFT_SIZE / SAMPLE_RATE)`: `r * SAMPLE_RATE <= f * FFT_SIZE < (r + 1) * SAMPLE_RATE` |
| Binning.RawBinMonotone | native/common/fft.h:72-73 | a higher frequency never has a lower raw bin |
| Binning.BinLo | native/common/fft.h:74 | the first bin is at least 1 (DC excluded) and otherwise the raw index |
| Binning.BinHi | native/common/fft.h:75-76 | the last bin is never below the first and is at most `max(first, FFT_SIZE/2 - 1)`; when the raw first bin is below `FFT_SIZE/2` (and `FFT_SIZE >= 4`) it is at most `FFT_SIZE/2 - 1`; raw edges already in range are kept |
| Binning.BinsMonotone | native/common/fft.h:74-76 | the clamping keeps the bar order of first and last bins |
| Bars.Sum | native/common/fft.h:106-109 | the running `sum += mag[k]` over nonnegative magnitudes is never negative |
| Bars.SumBounds | native/common/fft.h:106-109 | the running `sum += mag[k]` of terms in `[0, m]` lies in `[0, count * m]` |
| Bars.BarAverage | native/common/fft.h:104-110 | an empty range (`count == 0`) averages to `0.0` |
| Bars.AverageBounds | native/common/fft.h:104-110 | a bar's average of magnitudes in `[0, m]` lies in `[0, m]` |
| Bars.Decibels | native/common/fft.h:114 | a silent average is at the level `20 log10(1e-10)` of the floor; an average of `FFT_SIZE * 0.5` (full scale) is at `20 log10(1 + 1e-10)` |
| Bars.Height | native/common/fft.h:114-117 | the bar height is in `[0, 1]`; -60 dB and below give 0, 0 dB and above give 1 |
| Bars.SilentBar | native/common/fft.h:104-117 | a bar over zero magnitudes has height 0 when `log10f(1e-10f) <= -3` |
| Bars.SilentBars | native/common/fft.h:103-119 | every bar computed over a table of zero magnitudes is 0 when `log10f(1e-10f) <= -3` |
| Bars.HeightMonotone | native/common/fft.h:114-117 | a higher level never gives a lower bar |
| Analysis.ComplexZero | native/common/fft.h:39-42 | the arithmetic of the butterflies (`{1,0}`, `cadd`, `csub`, `cmul`) maps `{0,0}` operands to `{0,0}`, as the zero preservation of `fft` needs |
| Analysis.ComplexPair | native/common/fft.h:30-46 | the complex 2-point `fft` gives `{cadd(a, b), csub(a, b)}` |
| Analysis.SilentSpectrum | native/common/fft.h:88-95 | silent samples, whatever the window, give a transformed buffer of `{0,0}` |
| Analysis.Analyzer.Hann | native/common/fft.h:55 | a window coefficient lies in `[0, 1]` whenever `cosf` returns a value in `[-1, 1]` |
| Analysis.Analyzer.BinBand | native/common/fft.h:72-73 | a frequency `f >= 0` lies in the band of its bin `r = (int)(f * FFT_SIZE / SAMPLE_RATE)`: `r * SAMPLE_RATE <= f * FFT_SIZE < (r + 1) * SAMPLE_RATE`, and `r >= 0` |
| Analysis.Analyzer.BinIndexMonotone | native/common/fft.h:72-73 | a higher frequency never falls in a lower bin |
| Analysis.Analyzer.BinsOrdered | native/common/fft.h:70-76 | non-decreasing edge frequencies give non-decreasing first and last bins |
| Analysis.Analyzer.Twiddle | native/common/fft.h:33-34 | the twiddle `{cosf(angle), sinf(angle)}` with `angle = -2π/len` has modulus 1 whenever `cos² + sin² = 1` at that angle |
| Analysis.Analyzer.constructor | native/common/fft.h:49-63 | at start the tables exist with the configured sizes and neither ready flag is set |
| Analysis.Analyzer.EnsureHanning | native/common/fft.h:52-58 | after `ensureHanning` the flag is set and `g_hanning[i]` is the Hanning coefficient of `i`; once the flag is set a call changes nothing |
| Analysis.Analyzer.FillBar | native/common/fft.h:70-76 | one pass of the loop of `ensureBins` sets bar `i`'s edges to the truncated, clamped raw edges and changes no other bar |
| Analysis.Analyzer.EnsureBins | native/common/fft.h:65-79 | after `ensureBins` the flag is set and each bar's edges are the truncated, clamped raw edges `BinLo`/`BinHi`; once the flag is set a call changes nothing |
| Analysis.Analyzer.EnsureTables | native/common/fft.h:85-86 | after both table calls, the window is built and every bar's bins satisfy `1 <= lo <= hi <= FFT_SIZE/2 - 1` |
| Analysis.Analyzer.LoadWindow | native/common/fft.h:90-93 | `buf[i]` becomes `{samples[i] * g_hanning[i], 0}`; zero samples give a zero buffer |
| Analysis.Analyzer.TransformWindow | native/common/fft.h:88-95 | after the window load and `fft`, `buf` is `Transform` of the windowed samples |
| Analysis.Analyzer.Magnitudes | native/common/fft.h:99-101 | `mag[i]` is `sqrtf` of the squared modulus of bin `i` for `i < FFT_SIZE/2`; a zero lower half gives magnitudes `sqrtf(0)` |
| Analysis.Analyzer.Spectrum | native/common/fft.h:88-101 | `buf` ends as `Transform` of the windowed samples, and `mag[i]` as `sqrtf` of the squared modulus of `buf[i]` for `i < FFT_SIZE/2`; silent samples give magnitudes `sqrtf(0)`; the tables and flags are not touched |
| Analysis.Analyzer.AverageBars | native/common/fft.h:103-119 | every bar's output is the height of the average of `mag[lo..hi]`, in `[0, 1]` |
| Analysis.Analyzer.ComputeBars | native/common/fft.h:84-120 | `computeBars` leaves both tables ready; `buf` holds `Transform` of the windowed samples and `mag` its magnitudes; every bar reads `mag[lo..hi]` with `1 <= lo <= hi <= FFT_SIZE/2 - 1`, so the `0.0f` fallback is never taken; it writes exactly `BAR_COUNT` heights, each the height of its average and in `[0, 1]`; silent input gives all-zero bars when `sqrtf(0) = 0` and `log10f(1e-10f) <= -3` |

## Left out

- `native/linux/main.cpp` as a whole is not part of this model. It covers audio capture, the WebSocket server, signal handling and frame pacing. These are I/O, concurrency and wall-clock time.
- `protocol.h` is not part of this model. Its constants are constructor parameters. The model requires:
  - `FFT_SIZE` is `2^logSize` and at least 2;
  - `BAR_COUNT` is at least 1;
  - `SAMPLE_RATE` is positive.
- Floating point: `float` values are exact reals, so rounding, overflow, NaN and infinity are not modelled.
- The twiddle factors, window coefficients, edge frequencies, square roots and logarithms come from `cosf`, `sinf`, `powf`, `sqrtf` and `log10f`. The model takes these functions and `M_PI` as parameters. So it does not capture numerical accuracy, such as which bin a sinusoid's peak lands in.
- FastFourier.Fft: does not state that the result is the discrete Fourier transform of the input. The twiddles `root(len)` are an abstract function, and `cosf`/`sinf` are parameters, so that would be a statement about float numerics.
  - It states that `buf` becomes the reference `Transform` of its old contents: the same permutation, the same butterflies and the same running twiddle `w = cmul(w, wn)`.
  - No lemma ties the running twiddle to `wn^j`.
- Analysis.Analyzer.Twiddle: returns `{1, 0}` for a stage length of 0. `fft` never asks for that length; the branch only keeps the division `-2π / len` total.
- Analysis.Analyzer.ComputeBars: requires `BinsFit()`, which says:
  - `FFT_SIZE >= 4`;
  - every bar's raw first bin `(int)(f * FFT_SIZE / SAMPLE_RATE)` is at most `FFT_SIZE/2 - 1`.

  The source has no such check. It never lowers the first bin, and it raises the last bin to the first. So with constants that break this condition, it reads `mag` past its end.
- Bin edges: the code converts a frequency to a bin with a truncating `(int)` cast (`native/common/fft.h:72-73`), not by rounding, and so does the model. It gives `high ≤ FFT_SIZE/2 - 1` only under `BinsFit()` (`Binning.BinHi`).
- Edge order: the model does not state that the bin edges are non-decreasing for the actual `powf` values. It proves instead that non-decreasing edge frequencies give non-decreasing bins (`Analysis.Analyzer.BinsOrdered`).
- The C arrays are passed as separate pointers. The model requires the output `bars` to be distinct from the internal `g_hanning` and `mag` tables. The samples are an immutable sequence of at least `FFT_SIZE` values.
