/** The in-place radix-2 decimation-in-time transform (`fft`). It is written
    over any element type together with the arithmetic it applies to the
    elements: `Spectrum` instantiates it with `Complex` and `cadd`, `csub`,
    `cmul`. The twiddle factor of each stage, `(cosf(-2π/len), sinf(-2π/len))`,
    is supplied by the caller as `root(len)`. */
module FastFourier {
  import opened BitReversal

  /** The unit twiddle `{1, 0}` and the operations `cadd`, `csub`, `cmul`. */
  datatype Arith<!T> = Arith(one: T, add: (T, T) -> T, sub: (T, T) -> T, mul: (T, T) -> T)

  /** `z` is a zero of `ar`: a butterfly whose inputs are `z` outputs `z`. */
  ghost predicate IsZero<T(!new)>(ar: Arith<T>, z: T)
  {
    ar.add(z, z) == z && ar.sub(z, z) == z && forall x :: ar.mul(x, z) == z
  }

  /** Every element of `s` is `z`. */
  ghost predicate AllEqual<T>(s: seq<T>, z: T)
  {
    forall k :: 0 <= k < |s| ==> s[k] == z
  }

  /** `x` is a whole number of blocks of `len` cells. */
  predicate WholeBlocks(x: int, len: int)
    requires len > 0
    decreases x
  {
    x == 0 || (x >= len && WholeBlocks(x - len, len))
  }

  lemma {:induction false} WholeBlocksAdd(x: int, y: int, len: int)
    requires len > 0 && WholeBlocks(x, len) && WholeBlocks(y, len)
    ensures WholeBlocks(x + y, len)
    decreases x
  {
    if x != 0 {
      WholeBlocksAdd(x - len, y, len);
    }
  }

  /** A stage length `Pow2(stage)` with `stage <= width` splits a buffer of
      `Pow2(width)` cells into whole blocks. */
  lemma {:induction false} StageDivides(stage: nat, width: nat)
    requires stage <= width
    ensures WholeBlocks(Pow2(width), Pow2(stage))
  {
    if stage == width {
      assert WholeBlocks(0, Pow2(stage));
    } else {
      StageDivides(stage, width - 1);
      WholeBlocksAdd(Pow2(width - 1), Pow2(width - 1), Pow2(stage));
    }
  }

  lemma {:induction false} Pow2Increasing(a: nat, b: nat)
    requires a < b
    ensures Pow2(a) < Pow2(b)
  {
    if a + 1 < b {
      Pow2Increasing(a, b - 1);
    }
  }

  /** The input of the butterfly stages: cell `k` holds input cell `Rev(k)`. */
  function BitReversed<T>(s: seq<T>, width: nat): (r: seq<T>)
    requires |s| == Pow2(width)
    ensures |r| == |s|
  {
    seq(|s|, k requires 0 <= k < |s| => RevInvolution(k, width); s[Rev(k, width)])
  }

  /** Butterflies `j, j + 1, ..., half - 1` of the block of `2 * half` cells
      starting at `i`, `w` being the twiddle of butterfly `j`: with
      `u = s[i + j]` and `v = w * s[i + j + half]`, cell `i + j` becomes
      `u + v`, cell `i + j + half` becomes `u - v`, and the next twiddle is
      `w * wn`. */
  function Butterflies<T>(ar: Arith<T>, s: seq<T>, i: nat, half: nat, wn: T, j: nat, w: T): (r: seq<T>)
    requires i + 2 * half <= |s| && j <= half
    ensures |r| == |s|
    decreases half - j
  {
    if j == half then s
    else
      var u := s[i + j];
      var v := ar.mul(w, s[i + j + half]);
      Butterflies(ar, s[i + j := ar.add(u, v)][i + j + half := ar.sub(u, v)], i, half, wn, j + 1, ar.mul(w, wn))
  }

  /** One stage of butterflies of half-length `half`, on the blocks starting
      at `i`, `i + 2 * half`, ..., each starting again from the unit twiddle. */
  function Stage<T>(ar: Arith<T>, s: seq<T>, half: nat, wn: T, i: nat): (r: seq<T>)
    requires half >= 1 && i <= |s| && WholeBlocks(|s| - i, 2 * half)
    ensures |r| == |s|
    decreases |s| - i
  {
    if i == |s| then s
    else Stage(ar, Butterflies(ar, s, i, half, wn, 0, ar.one), half, wn, i + 2 * half)
  }

  /** Stages `stage`, `stage + 1`, ..., `width`: stage `t` has blocks of
      `len = 2^t` cells and twiddle `root(len)`. */
  function Stages<T>(ar: Arith<T>, s: seq<T>, stage: nat, width: nat, root: int -> T): (r: seq<T>)
    requires 1 <= stage && |s| == Pow2(width)
    ensures |r| == |s|
    decreases width + 1 - stage
  {
    if stage > width then s
    else
      StageDivides(stage, width);
      Stages(ar, Stage(ar, s, Pow2(stage - 1), root(Pow2(stage)), 0), stage + 1, width, root)
  }

  /** What `fft` computes from its input `s` of `2^width` cells: the
      bit-reversal permutation, then the butterfly stages of length 2, 4, ...,
      `2^width`. */
  function Transform<T>(ar: Arith<T>, s: seq<T>, width: nat, root: int -> T): (r: seq<T>)
    requires |s| == Pow2(width)
    ensures |r| == |s|
  {
    Stages(ar, BitReversed(s, width), 1, width, root)
  }

  /** The butterflies of a block touch only the cells `i + j .. i + half - 1`
      and `i + half + j .. i + 2 * half - 1` not yet done: every other cell
      keeps its value. */
  lemma {:induction false} ButterfliesFrame<T>(ar: Arith<T>, s: seq<T>, i: nat, half: nat, wn: T, j: nat, w: T, k: int)
    requires i + 2 * half <= |s| && j <= half
    requires 0 <= k < i + j || i + half <= k < i + half + j || i + 2 * half <= k < |s|
    ensures Butterflies(ar, s, i, half, wn, j, w)[k] == s[k]
    decreases half - j
  {
    if j < half {
      var v := ar.mul(w, s[i + j + half]);
      var t := s[i + j := ar.add(s[i + j], v)][i + j + half := ar.sub(s[i + j], v)];
      ButterfliesFrame(ar, t, i, half, wn, j + 1, ar.mul(w, wn), k);
    }
  }

  lemma {:induction false} ButterfliesZero<T(!new)>(ar: Arith<T>, s: seq<T>, i: nat, half: nat, wn: T, j: nat, w: T, z: T)
    requires i + 2 * half <= |s| && j <= half
    requires IsZero(ar, z) && AllEqual(s, z)
    ensures AllEqual(Butterflies(ar, s, i, half, wn, j, w), z)
    decreases half - j
  {
    if j < half {
      var v := ar.mul(w, s[i + j + half]);
      var t := s[i + j := ar.add(s[i + j], v)][i + j + half := ar.sub(s[i + j], v)];
      assert AllEqual(t, z);
      ButterfliesZero(ar, t, i, half, wn, j + 1, ar.mul(w, wn), z);
    }
  }

  lemma {:induction false} StageZero<T(!new)>(ar: Arith<T>, s: seq<T>, half: nat, wn: T, i: nat, z: T)
    requires half >= 1 && i <= |s| && WholeBlocks(|s| - i, 2 * half)
    requires IsZero(ar, z) && AllEqual(s, z)
    ensures AllEqual(Stage(ar, s, half, wn, i), z)
    decreases |s| - i
  {
    if i < |s| {
      ButterfliesZero(ar, s, i, half, wn, 0, ar.one, z);
      StageZero(ar, Butterflies(ar, s, i, half, wn, 0, ar.one), half, wn, i + 2 * half, z);
    }
  }

  lemma {:induction false} StagesZero<T(!new)>(ar: Arith<T>, s: seq<T>, stage: nat, width: nat, root: int -> T, z: T)
    requires 1 <= stage && |s| == Pow2(width)
    requires IsZero(ar, z) && AllEqual(s, z)
    ensures AllEqual(Stages(ar, s, stage, width, root), z)
    decreases width + 1 - stage
  {
    if stage <= width {
      StageDivides(stage, width);
      StageZero(ar, s, Pow2(stage - 1), root(Pow2(stage)), 0, z);
      StagesZero(ar, Stage(ar, s, Pow2(stage - 1), root(Pow2(stage)), 0), stage + 1, width, root, z);
    }
  }

  /** A buffer of zeros transforms to zeros when add, sub and mul map zero
      operands to zero, whatever the twiddles. */
  lemma TransformZero<T(!new)>(ar: Arith<T>, s: seq<T>, width: nat, root: int -> T, z: T)
    requires |s| == Pow2(width)
    requires IsZero(ar, z) && AllEqual(s, z)
    ensures AllEqual(Transform(ar, s, width, root), z)
  {
    forall k | 0 <= k < |s|
      ensures BitReversed(s, width)[k] == z
    {
      RevInvolution(k, width);
    }
    StagesZero(ar, BitReversed(s, width), 1, width, root, z);
  }

  /** The 2-point transform is a single butterfly with the unit twiddle. */
  lemma TransformPair<T>(ar: Arith<T>, a: T, b: T, root: int -> T)
    ensures Transform(ar, [a, b], 1, root) == [ar.add(a, ar.mul(ar.one, b)), ar.sub(a, ar.mul(ar.one, b))]
  {
    var s, v := [a, b], ar.mul(ar.one, b);
    RevUnfold(0, 1);
    RevUnfold(1, 1);
    assert BitReversed(s, 1) == s;
    var t := s[0 := ar.add(a, v)][1 := ar.sub(a, v)];
    ButterflyStep(ar, s, 0, 1, ar.one, 0, ar.one);
    assert Butterflies(ar, s, 0, 1, root(2), 0, ar.one) == t;
    assert WholeBlocks(0, 2) && WholeBlocks(2, 2);
    assert Stage(ar, s, 1, root(2), 0) == t;
    assert Transform(ar, s, 1, root) == Stages(ar, t, 2, 1, root) == t;
  }

  /** One butterfly of `Butterflies`, unfolded. */
  lemma ButterflyStep<T>(ar: Arith<T>, s: seq<T>, i: nat, half: nat, wn: T, j: nat, w: T)
    requires i + 2 * half <= |s| && j < half
    ensures Butterflies(ar, s, i, half, wn, j, w)
         == Butterflies(ar, s[i + j := ar.add(s[i + j], ar.mul(w, s[i + j + half]))]
                             [i + j + half := ar.sub(s[i + j], ar.mul(w, s[i + j + half]))],
                        i, half, wn, j + 1, ar.mul(w, wn))
  {
  }

  /** One block of `Stage`, unfolded. */
  lemma StageStep<T>(ar: Arith<T>, s: seq<T>, half: nat, wn: T, i: nat)
    requires half >= 1 && i < |s| && WholeBlocks(|s| - i, 2 * half)
    ensures i + 2 * half <= |s| && WholeBlocks(|s| - (i + 2 * half), 2 * half)
    ensures Stage(ar, s, half, wn, i) == Stage(ar, Butterflies(ar, s, i, half, wn, 0, ar.one), half, wn, i + 2 * half)
  {
  }

  /** One stage of `Stages`, unfolded. */
  lemma StagesStep<T>(ar: Arith<T>, s: seq<T>, stage: nat, width: nat, root: int -> T)
    requires 1 <= stage <= width && |s| == Pow2(width)
    ensures WholeBlocks(|s|, 2 * Pow2(stage - 1))
    ensures Stages(ar, s, stage, width, root)
         == Stages(ar, Stage(ar, s, Pow2(stage - 1), root(Pow2(stage)), 0), stage + 1, width, root)
  {
    StageDivides(stage, width);
  }

  /** The inner loop of `fft`: the butterflies of the block of `len` cells
      starting at `i`, with the running twiddle `w` starting at `{1, 0}`. */
  method Block<T>(buf: array<T>, i: int, len: int, ghost half: nat, wn: T, ar: Arith<T>)
    requires 0 <= i && len == 2 * half && i + len <= buf.Length
    modifies buf
    ensures buf[..] == Butterflies(ar, old(buf[..]), i, half, wn, 0, ar.one)
  {
    var w := ar.one;
    var j := 0;
    while j < len / 2
      invariant 0 <= j <= half
      invariant Butterflies(ar, buf[..], i, half, wn, j, w) == Butterflies(ar, old(buf[..]), i, half, wn, 0, ar.one)
    {
      ButterflyStep(ar, buf[..], i, half, wn, j, w);
      var u := buf[i + j];
      var v := ar.mul(w, buf[i + j + len / 2]);
      ghost var prev := buf[..];
      buf[i + j] := ar.add(u, v);
      buf[i + j + len / 2] := ar.sub(u, v);
      assert buf[..] == prev[i + j := ar.add(u, v)][i + j + half := ar.sub(u, v)];
      w := ar.mul(w, wn);
      j := j + 1;
    }
  }

  /** The middle loop of `fft`: one stage, block after block. */
  method StagePass<T>(buf: array<T>, n: int, len: int, ghost half: nat, wn: T, ar: Arith<T>)
    requires buf.Length == n && half >= 1 && len == 2 * half && WholeBlocks(n, len)
    modifies buf
    ensures buf[..] == Stage(ar, old(buf[..]), half, wn, 0)
  {
    var i := 0;
    while i < n
      invariant 0 <= i <= n && WholeBlocks(n - i, len)
      invariant Stage(ar, buf[..], half, wn, i) == Stage(ar, old(buf[..]), half, wn, 0)
    {
      StageStep(ar, buf[..], half, wn, i);
      Block(buf, i, len, half, wn, ar);
      i := i + len;
    }
  }

  /** `fft`: the bit-reversal permutation, then butterfly stages of length
      2, 4, ..., n, updating `buf` in place into the transform of its old
      contents. */
  method Fft<T>(buf: array<T>, n: int, ghost width: nat, root: int -> T, ar: Arith<T>)
    requires buf.Length == n == Pow2(width)
    modifies buf
    ensures buf[..] == Transform(ar, old(buf[..]), width, root)
  {
    BitReverse(buf, n, width);
    ghost var reversed := buf[..];
    assert reversed == BitReversed(old(buf[..]), width);
    var len := 2;
    ghost var stage: nat := 1;
    while len <= n
      invariant 1 <= stage && len == Pow2(stage)
      invariant len <= n <==> stage <= width
      invariant Stages(ar, buf[..], stage, width, root) == Stages(ar, reversed, 1, width, root)
    {
      StagesStep(ar, buf[..], stage, width, root);
      StagePass(buf, n, len, Pow2(stage - 1), root(len), ar);
      if stage + 1 > width {
        Pow2Increasing(width, stage + 1);
      } else if stage + 1 < width {
        Pow2Increasing(stage + 1, width);
      }
      len := len * 2;
      stage := stage + 1;
    }
  }
}
