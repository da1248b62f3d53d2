/**
 * `calculateRMS`: the root-mean-square amplitude of the 16-bit PCM samples read in
 * one tick, truncated to an integer.
 */
module Signal {

  /** A 16-bit PCM sample (Kotlin `Short`). */
  newtype Short = x: int | -0x8000 <= x < 0x8000

  /** Largest square a sample can have: (-32768)^2 = 2^30, which still fits an `Int`. */
  const MaxSquare: int := 0x4000_0000

  function Square(x: Short): (r: int)
    ensures 0 <= r <= MaxSquare
  {
    SquareBound(x);
    (x as int) * (x as int)
  }

  lemma SquareBound(x: Short)
    ensures 0 <= (x as int) * (x as int) <= MaxSquare
  {
    var v := x as int;
    var a: nat := if v >= 0 then v else -v;
    assert v * v == a * a;
    MulMonotone(a, 0x8000);
  }

  /** Sum of the squares of a block of samples, first sample first. */
  function SumSquares(s: seq<Short>): nat {
    if s == [] then 0 else SumSquares(s[..|s| - 1]) + Square(s[|s| - 1])
  }

  /** The integer square root: the largest r with r * r <= n, which is what
      `sqrt(...).toInt()` yields for a non-negative argument. */
  function ISqrt(n: nat): (r: nat)
    ensures r * r <= n < (r + 1) * (r + 1)
  {
    if n == 0 then 0
    else
      var s := ISqrt(n - 1);
      if (s + 1) * (s + 1) <= n then
        assert (s + 2) * (s + 2) == (s + 1) * (s + 1) + 2 * s + 3;
        s + 1
      else s
  }

  /** The truncated root of `n`, searched by halving the interval [lo, hi) known to
      hold it; `ISqrt` is its specification (`SqrtSearchIsISqrt`). */
  function SqrtSearch(n: nat, lo: nat, hi: nat): (r: nat)
    requires lo < hi && lo * lo <= n < hi * hi
    ensures lo <= r < hi
    ensures r * r <= n < (r + 1) * (r + 1)
    decreases hi - lo
  {
    if hi == lo + 1 then lo
    else
      var mid := (lo + hi) / 2;
      if mid * mid <= n then SqrtSearch(n, mid, hi) else SqrtSearch(n, lo, mid)
  }

  /** The search finds `ISqrt` from any interval known to hold it. */
  lemma SqrtSearchIsISqrt(n: nat, lo: nat, hi: nat)
    requires lo < hi && lo * lo <= n < hi * hi
    ensures SqrtSearch(n, lo, hi) == ISqrt(n)
  {
    ISqrtUnique(n, SqrtSearch(n, lo, hi));
  }

  /** The contract of `ISqrt` fixes its value. */
  lemma ISqrtUnique(n: nat, r: nat)
    requires r * r <= n < (r + 1) * (r + 1)
    ensures ISqrt(n) == r
  {
    var q := ISqrt(n);
    if q < r {
      assert q + 1 <= r;
      MulMonotone(q + 1, r);
    } else if q > r {
      assert r + 1 <= q;
      MulMonotone(r + 1, q);
    }
  }

  lemma MulMonotone(a: nat, b: nat)
    requires a <= b
    ensures a * a <= b * b
  {
  }

  lemma MulLeft(c: nat, x: int, y: int)
    requires x <= y
    ensures c * x <= c * y
  {
  }

  lemma MulDiv(n: int, k: int)
    requires n > 0
    ensures (n * k) / n == k
  {
    var q, r := (n * k) / n, (n * k) % n;
    assert n * k == n * q + r && 0 <= r < n;
    assert n * (k - q) == r by {
      assert n * (k - q) == n * k - n * q;
    }
    if k - q >= 1 {
      MulLeft(n, 1, k - q);
    } else if k - q <= -1 {
      MulLeft(n, k - q, -1);
    }
  }

  /** Every block's squares add up to at most 2^30 per sample. */
  lemma {:induction false} SumSquaresBound(s: seq<Short>)
    ensures SumSquares(s) <= |s| * MaxSquare
  {
    if s != [] {
      SumSquaresBound(s[..|s| - 1]);
    }
  }

  /** The mean square of a block of `n` samples is at most 2^30. */
  lemma MeanSquareBound(s: seq<Short>, n: int)
    requires 0 < n == |s|
    ensures SumSquares(s) / n <= MaxSquare
  {
    SumSquaresBound(s);
  }

  /** So the root of the mean square is at most 32768 (reached by a block of -32768
      samples only). */
  lemma RmsBound(s: seq<Short>, n: int)
    requires 0 < n == |s|
    ensures ISqrt(SumSquares(s) / n) <= 0x8000
  {
    MeanSquareBound(s, n);
    var m := SumSquares(s) / n;
    var r := ISqrt(m);
    if r > 0x8000 {
      MulMonotone(0x8001, r);
    }
  }

  /** A block of one repeated sample `v` has RMS |v|; in particular silence has RMS 0. */
  lemma {:induction false} ConstantBlockRms(s: seq<Short>, v: Short)
    requires |s| > 0
    requires forall i :: 0 <= i < |s| ==> s[i] == v
    ensures ISqrt(SumSquares(s) / |s|) == if v < 0 then -(v as int) else v as int
  {
    ConstantSumSquares(s, v);
    var a: nat := if v < 0 then -(v as int) else v as int;
    assert a * a == Square(v);
    MulDiv(|s|, a * a);
    assert SumSquares(s) / |s| == a * a;
    assert (a + 1) * (a + 1) == a * a + 2 * a + 1;
    ISqrtUnique(a * a, a);
  }

  lemma {:induction false} ConstantSumSquares(s: seq<Short>, v: Short)
    requires forall i :: 0 <= i < |s| ==> s[i] == v
    ensures SumSquares(s) == |s| * Square(v)
  {
    if s != [] {
      ConstantSumSquares(s[..|s| - 1], v);
    }
  }

  /**
   * `calculateRMS(buffer, readSize)`: sums the squares of the first `readSize`
   * samples in a loop (a `Long`, which never overflows: at most 2^31 * 2^30), then
   * takes the truncated root of the mean, found by `SqrtSearch` in at most 16 halvings.
   */
  method CalculateRms(buffer: array<Short>, readSize: int) returns (rms: int)
    requires 0 < readSize <= buffer.Length
    ensures rms == ISqrt(SumSquares(buffer[..readSize]) / readSize)
    ensures 0 <= rms <= 0x8000
  {
    var sum := 0;
    var i := 0;
    while i < readSize
      invariant 0 <= i <= readSize
      invariant sum == SumSquares(buffer[..i])
    {
      assert buffer[..i + 1][..i] == buffer[..i];
      sum := sum + (buffer[i] as int) * (buffer[i] as int);
      i := i + 1;
    }
    assert buffer[..readSize] == buffer[..i];
    MeanSquareBound(buffer[..readSize], readSize);
    assert 0x8001 * 0x8001 == 0x4001_0001;
    SqrtSearchIsISqrt(sum / readSize, 0, 0x8001);
    rms := SqrtSearch(sum / readSize, 0, 0x8001);
  }
}
