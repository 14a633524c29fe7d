/** The bit-reversal permutation that opens the transform (`bitReverse`).
    A mask `bit` of the source is always zero or a power of two, so `j & bit`
    and `j ^= bit` are written with division and addition on integers. */
module BitReversal {

  function Pow2(e: nat): (r: nat)
    ensures r >= 1
  {
    if e == 0 then 1 else 2 * Pow2(e - 1)
  }

  /** The `width` low bits of `k`, least significant first. */
  function Bits(k: nat, width: nat): (s: seq<bool>)
    ensures |s| == width
  {
    if width == 0 then [] else [k % 2 == 1] + Bits(k / 2, width - 1)
  }

  /** The number whose bits, least significant first, are `s`. */
  function Value(s: seq<bool>): (v: nat)
  {
    if s == [] then 0 else (if s[0] then 1 else 0) + 2 * Value(s[1..])
  }

  function Reverse<T>(s: seq<T>): (r: seq<T>)
    ensures |r| == |s|
  {
    if s == [] then [] else Reverse(s[1..]) + [s[0]]
  }

  /** The `width`-bit reversal of `k`. */
  function Rev(k: nat, width: nat): (r: nat)
  {
    Value(Reverse(Bits(k, width)))
  }

  lemma {:induction false} ValueBound(s: seq<bool>)
    ensures Value(s) < Pow2(|s|)
  {
    if s != [] {
      ValueBound(s[1..]);
    }
  }

  lemma {:induction false} ValueOfBits(k: nat, width: nat)
    requires k < Pow2(width)
    ensures Value(Bits(k, width)) == k
  {
    if width > 0 {
      ValueOfBits(k / 2, width - 1);
      assert Bits(k, width)[1..] == Bits(k / 2, width - 1);
    }
  }

  lemma {:induction false} BitsOfValue(s: seq<bool>)
    ensures Bits(Value(s), |s|) == s
  {
    if s != [] {
      BitsOfValue(s[1..]);
      var v := Value(s);
      assert v % 2 == (if s[0] then 1 else 0);
      assert v / 2 == Value(s[1..]);
      assert Bits(v, |s|) == [s[0]] + s[1..];
    }
  }

  lemma {:induction false} ReverseAppend<T>(s: seq<T>, x: T)
    ensures Reverse(s + [x]) == [x] + Reverse(s)
  {
    if s == [] {
      assert [x][1..] == [];
    } else {
      assert (s + [x])[1..] == s[1..] + [x];
      ReverseAppend(s[1..], x);
    }
  }

  lemma {:induction false} ReverseReverse<T>(s: seq<T>)
    ensures Reverse(Reverse(s)) == s
  {
    if s != [] {
      ReverseAppend(Reverse(s[1..]), s[0]);
      ReverseReverse(s[1..]);
      assert s == [s[0]] + s[1..];
    }
  }

  lemma {:induction false} ValueAppend(s: seq<bool>, b: bool)
    ensures Value(s + [b]) == Value(s) + (if b then Pow2(|s|) else 0)
  {
    if s == [] {
      assert [b][1..] == [];
    } else {
      assert (s + [b])[1..] == s[1..] + [b];
      ValueAppend(s[1..], b);
    }
  }

  /** Reversal maps [0, 2^width) onto itself and undoes itself, so it is a
      permutation of the indices. */
  lemma RevInvolution(k: nat, width: nat)
    requires k < Pow2(width)
    ensures Rev(k, width) < Pow2(width)
    ensures Rev(Rev(k, width), width) == k
  {
    var s := Reverse(Bits(k, width));
    ValueBound(s);
    BitsOfValue(s);
    ReverseReverse(Bits(k, width));
    ValueOfBits(k, width);
  }

  /** The lowest bit of `k` becomes the highest bit of its reversal. */
  lemma RevUnfold(k: nat, width: nat)
    requires width >= 1
    ensures Rev(k, width) == Rev(k / 2, width - 1) + (if k % 2 == 1 then Pow2(width - 1) else 0)
  {
    var t := Bits(k / 2, width - 1);
    assert Bits(k, width)[1..] == t;
    assert Reverse(Bits(k, width)) == Reverse(t) + [k % 2 == 1];
    ValueAppend(Reverse(t), k % 2 == 1);
  }

  lemma {:induction false} RevZero(width: nat)
    ensures Rev(0, width) == 0
  {
    if width >= 1 {
      RevUnfold(0, width);
      RevZero(width - 1);
    }
  }

  /** `j & bit != 0`, for a mask `bit` that is zero or a power of two. */
  predicate HasBit(j: int, bit: int)
  {
    bit > 0 && (j / bit) % 2 == 1
  }

  /** `j ^ bit`, for a mask `bit` that is zero or a power of two. */
  function FlipBit(j: int, bit: int): (r: int)
  {
    if HasBit(j, bit) then j - bit else j + bit
  }

  /** `j ^ bit` toggles the tested bit, and a nonnegative counter stays
      nonnegative. */
  lemma FlipBitToggles(j: int, bit: int)
    requires bit > 0
    ensures HasBit(FlipBit(j, bit), bit) <==> !HasBit(j, bit)
    ensures 0 <= j ==> 0 <= FlipBit(j, bit)
  {
    ShiftQuotient(j, bit);
  }

  /** Adding or removing one `bit` moves the quotient by `bit` by one. */
  lemma ShiftQuotient(j: int, bit: int)
    requires bit > 0
    ensures (j + bit) / bit == j / bit + 1 && (j - bit) / bit == j / bit - 1
    ensures 0 <= j && j / bit >= 1 ==> j >= bit
  {
    var q, m := j / bit, j % bit;
    assert j == q * bit + m;
    assert j + bit == (q + 1) * bit + m;
    assert j - bit == (q - 1) * bit + m;
    DivUnique(j + bit, bit, q + 1, m);
    DivUnique(j - bit, bit, q - 1, m);
    if 0 <= j && q >= 1 {
      assert q * bit >= bit;
    }
  }

  /** Euclidean division is determined by quotient and remainder. */
  lemma DivUnique(a: int, d: int, q: int, m: int)
    requires d > 0 && a == q * d + m && 0 <= m < d
    ensures a / d == q && a % d == m
  {
    var q', m' := a / d, a % d;
    assert a == q' * d + m';
    if q' > q {
      MulAtLeast(q' - q, d);
    } else if q' < q {
      MulAtLeast(q - q', d);
    }
  }

  lemma MulAtLeast(x: int, d: int)
    requires x >= 1 && d > 0
    ensures x * d >= d
  {
  }

  /** `j / (2 * p)` is `j / 2 / p`: shifting right twice. */
  lemma DivDiv(j: nat, p: nat)
    requires p > 0
    ensures j / (2 * p) == j / 2 / p
  {
    var q, m := j / (2 * p), j % (2 * p);
    assert j == 2 * (q * p) + m;
    DivUnique(j, 2, q * p + m / 2, j % 2);
    DivUnique(j / 2, p, q, m / 2);
  }

  /** `j & (1 << t)` tests bit `t` of `j`. */
  lemma {:induction false} HasBitBits(j: nat, t: nat, width: nat)
    requires t < width
    ensures HasBit(j, Pow2(t)) == Bits(j, width)[t]
  {
    if t > 0 {
      HasBitBits(j / 2, t - 1, width - 1);
      DivDiv(j, Pow2(t - 1));
    }
  }

  /** `j ^ (1 << t)` toggles bit `t` of `j` and keeps the others. */
  lemma {:induction false} FlipBitBits(j: nat, t: nat, width: nat)
    requires t < width
    ensures 0 <= FlipBit(j, Pow2(t))
    ensures Bits(FlipBit(j, Pow2(t)), width) == Bits(j, width)[t := !Bits(j, width)[t]]
  {
    FlipBitToggles(j, Pow2(t));
    var r := FlipBit(j, Pow2(t));
    if t == 0 {
      assert r % 2 != j % 2 && r / 2 == j / 2 by {
        HasBitBits(j, 0, width);
      }
      assert Bits(r, width)[1..] == Bits(j, width)[1..];
    } else {
      var p := Pow2(t - 1);
      assert r % 2 == j % 2 && r / 2 == FlipBit(j / 2, p) by {
        assert Pow2(t) == 2 * p;
        DivDiv(j, p);
        assert HasBit(j, 2 * p) == HasBit(j / 2, p);
        if HasBit(j / 2, p) {
          DivUnique(r, 2, j / 2 - p, j % 2);
        } else {
          DivUnique(r, 2, j / 2 + p, j % 2);
        }
      }
      FlipBitBits(j / 2, t - 1, width - 1);
    }
  }

  /** The counter `j` after `for (; j & bit; bit >>= 1) j ^= bit; j ^= bit;`:
      clear set bits from the top down, then set the first clear one. */
  function RevIncrement(j: int, bit: int): (r: int)
    decreases bit
  {
    if HasBit(j, bit) then RevIncrement(FlipBit(j, bit), bit / 2) else FlipBit(j, bit)
  }

  /** The counter stays in `[0, 2 * bit)`, the indices of the buffer. */
  lemma {:induction false} RevIncrementRange(j: int, bit: int)
    requires 0 <= j < 2 * bit
    ensures 0 <= RevIncrement(j, bit) < 2 * bit
    decreases bit
  {
    if HasBit(j, bit) {
      var j', half := j - bit, bit / 2;
      assert 0 <= j' < bit by {
        ShiftQuotient(j, bit);
      }
      if j' < 2 * half {
        RevIncrementRange(j', half);
      } else {
        assert RevIncrement(j', half) == j' + half by {
          if half > 0 {
            DivUnique(j', half, 2, 0);
          }
        }
      }
    } else {
      assert j < bit by {
        if j >= bit {
          DivUnique(j, bit, 1, j - bit);
        }
      }
    }
  }

  lemma DivFacts(r: int, h: int)
    requires 0 <= r < h
    ensures r / h == 0 && (r + h) / h == 1
  {
  }

  /** The counter update turns the reversal of `k` into the reversal of `k + 1`:
      it is an increment carried from the top bit downwards. */
  lemma {:induction false} RevIncrementStep(k: nat, width: nat)
    requires width >= 1 && k + 1 < Pow2(width)
    ensures RevIncrement(Rev(k, width), Pow2(width - 1)) == Rev(k + 1, width)
  {
    var h := Pow2(width - 1);
    var low := Rev(k / 2, width - 1);
    ValueBound(Reverse(Bits(k / 2, width - 1)));
    DivFacts(low, h);
    RevUnfold(k, width);
    RevUnfold(k + 1, width);
    if k % 2 == 0 {
      calc {
        RevIncrement(Rev(k, width), h);
        RevIncrement(low, h);
        { assert !HasBit(low, h); }
        low + h;
        Rev(k + 1, width);
      }
    } else {
      assert width >= 2;
      assert h / 2 == Pow2(width - 2);
      calc {
        RevIncrement(Rev(k, width), h);
        RevIncrement(low + h, h);
        { assert HasBit(low + h, h); }
        RevIncrement(low, h / 2);
        { RevIncrementStep(k / 2, width - 1); }
        Rev(k / 2 + 1, width - 1);
        { assert (k + 1) / 2 == k / 2 + 1; }
        Rev(k + 1, width);
      }
    }
  }

  /** Where the cell at `k` comes from once indices below `i` have been
      processed: pair {k, Rev(k)} is swapped when its smaller member is. */
  function SwapSource(k: nat, width: nat, i: int): (r: nat)
    requires k < Pow2(width)
    ensures r < Pow2(width)
  {
    RevInvolution(k, width);
    if k < i || Rev(k, width) < i then Rev(k, width) else k
  }

  /** Processing index `i` changes the source only of `i` and of its reversal. */
  lemma SwapSourceStep(k: nat, width: nat, i: nat)
    requires k < Pow2(width) && i < Pow2(width)
    ensures k != i && k != Rev(i, width) ==> SwapSource(k, width, i + 1) == SwapSource(k, width, i)
    ensures k == i || k == Rev(i, width) ==> SwapSource(k, width, i + 1) == Rev(k, width)
    ensures k == i && i < Rev(i, width) ==> SwapSource(k, width, i) == k
    ensures k == Rev(i, width) && i < k ==> SwapSource(k, width, i) == k
    ensures k == Rev(i, width) && k < i ==> SwapSource(k, width, i) == i
    ensures k == i && Rev(i, width) < i ==> SwapSource(k, width, i) == Rev(i, width)
  {
    RevInvolution(k, width);
    RevInvolution(i, width);
  }

  /** The counter update of `bitReverse`,
      `int bit = n >> 1; for (; j & bit; bit >>= 1) j ^= bit; j ^= bit;`:
      it takes the reversal of `i - 1` to the reversal of `i`. */
  method NextRev(j: int, n: int, ghost i: nat, ghost width: nat) returns (r: int)
    requires 1 <= i < n == Pow2(width) && j == Rev(i - 1, width)
    ensures r == Rev(i, width)
  {
    var bit := n / 2;
    assert bit == Pow2(width - 1);
    RevIncrementStep(i - 1, width);
    r := j;
    while HasBit(r, bit)
      invariant bit >= 0
      invariant RevIncrement(r, bit) == Rev(i, width)
      decreases bit
    {
      r := FlipBit(r, bit);
      bit := bit / 2;
    }
    r := FlipBit(r, bit);
  }

  /** Cell `k` of `s` holds the cell of `orig` it holds once indices below
      `i` are processed. */
  ghost predicate Processed<T>(s: seq<T>, orig: seq<T>, width: nat, i: int)
    requires |s| == |orig| == Pow2(width)
  {
    forall k :: 0 <= k < |s| ==> s[k] == orig[SwapSource(k, width, i)]
  }

  /** The guarded swap `if (i < j) swap(buf[i], buf[j])` of `bitReverse`,
      with `j` the reversal of `i`: index `i` is now processed. */
  method SwapPair<T>(buf: array<T>, i: int, j: int, ghost width: nat, ghost orig: seq<T>)
    requires buf.Length == |orig| == Pow2(width) && 0 <= i < buf.Length && j == Rev(i, width)
    requires Processed(buf[..], orig, width, i)
    modifies buf
    ensures Processed(buf[..], orig, width, i + 1)
    ensures multiset(buf[..]) == multiset(old(buf[..]))
  {
    RevInvolution(i, width);
    if i < j {
      buf[i], buf[j] := buf[j], buf[i];
    }
    forall k | 0 <= k < buf.Length
      ensures buf[k] == orig[SwapSource(k, width, i + 1)]
    {
      SwapSourceStep(k, width, i);
    }
  }

  /** Before the loop of `bitReverse` no index is processed: every cell
      holds its own value. */
  lemma SwapSourceStart(width: nat)
    ensures forall k :: 0 <= k < Pow2(width) ==> SwapSource(k, width, 1) == k
  {
    RevZero(width);
    forall k | 0 <= k < Pow2(width)
      ensures SwapSource(k, width, 1) == k
    {
      RevInvolution(k, width);
    }
  }

  /** Once every index is processed, cell `k` holds the old cell `Rev(k)`. */
  lemma SwapSourceEnd(width: nat)
    ensures forall k :: 0 <= k < Pow2(width) ==> SwapSource(k, width, Pow2(width)) == Rev(k, width)
  {
    forall k | 0 <= k < Pow2(width)
      ensures SwapSource(k, width, Pow2(width)) == Rev(k, width)
    {
      RevInvolution(k, width);
    }
  }

  /** `bitReverse`: in place, the cell at `k` receives the old cell at the
      reversal of `k`, and the contents are permuted. */
  method BitReverse<T>(buf: array<T>, n: int, ghost width: nat)
    requires buf.Length == n == Pow2(width)
    modifies buf
    ensures forall k :: 0 <= k < n ==> Rev(k, width) < n && buf[k] == old(buf[Rev(k, width)])
    ensures multiset(buf[..]) == multiset(old(buf[..]))
  {
    ghost var orig := buf[..];
    RevZero(width);
    SwapSourceStart(width);
    var i, j := 1, 0;
    while i < n
      invariant 1 <= i <= n
      invariant j == Rev(i - 1, width)
      invariant Processed(buf[..], orig, width, i)
      invariant multiset(buf[..]) == multiset(orig)
    {
      j := NextRev(j, n, i, width);
      SwapPair(buf, i, j, width, orig);
      i := i + 1;
    }
    SwapSourceEnd(width);
  }
}
