/** Volume stability of a decoded recording: the samples are cut into
    fixed-size chunks, each chunk gets a root-mean-square energy, and the
    population variance of those values is mapped into (0, 1]. */
module SignalStats {

  /** Samples per chunk. */
  const ChunkSize: nat := 4096

  /** Weight of the variance in the stability score. */
  const StabilityScale: real := 1000.0

  // ---------------------------------------------------------------------
  // Chunking: chunk k covers the sample indices [ChunkStart(k), ChunkEnd(frames, k))

  /** Number of chunks the strided loop visits: the ceiling of frames / ChunkSize. */
  function ChunkCount(frames: nat): nat {
    (frames + 4095) / 4096  // ChunkSize written out, so the solver sees linear arithmetic
  }

  /** The chunks cover all frames with less than one chunk to spare: there
      are none for an empty signal and exactly one for 1 to 4096 frames. */
  lemma ChunkCountBounds(frames: nat)
    ensures frames <= ChunkCount(frames) * ChunkSize
    ensures frames > 0 ==> (ChunkCount(frames) - 1) * ChunkSize < frames
    ensures ChunkCount(frames) == 0 <==> frames == 0
    ensures ChunkCount(frames) == 1 <==> 1 <= frames <= ChunkSize
  {
  }

  function ChunkStart(k: nat): nat {
    k * 4096
  }

  /** `min(start + ChunkSize, frames)`. */
  function ChunkEnd(frames: nat, k: nat): (e: nat)
    ensures e <= frames && e <= ChunkStart(k) + ChunkSize
    ensures e == frames || e == ChunkStart(k) + ChunkSize
  {
    if ChunkStart(k) + ChunkSize < frames then ChunkStart(k) + ChunkSize else frames
  }

  /** ChunkCount is the least number of chunks that cover all frames. */
  lemma ChunkCountIsCeiling(frames: nat, k: nat)
    ensures ChunkStart(k) >= frames <==> k >= ChunkCount(frames)
  {
    var c := ChunkCount(frames);
    assert c * ChunkSize <= frames + ChunkSize - 1 < (c + 1) * ChunkSize;
    if k >= c {
      assert k * ChunkSize >= c * ChunkSize;
    } else {
      assert k * ChunkSize <= (c - 1) * ChunkSize;
    }
  }

  /** For a non-empty signal the chunks partition [0, frames) in order:
      the first starts at 0, each ends where the next begins, the last
      ends at frames, every chunk holds between 1 and ChunkSize samples,
      and only the last may hold fewer than ChunkSize. */
  lemma ChunksPartition(frames: nat)
    requires frames > 0
    ensures ChunkCount(frames) >= 1
    ensures ChunkStart(0) == 0
    ensures ChunkEnd(frames, ChunkCount(frames) - 1) == frames
    ensures forall k :: 0 <= k < ChunkCount(frames) - 1 ==>
              ChunkEnd(frames, k) == ChunkStart(k + 1) &&
              ChunkEnd(frames, k) - ChunkStart(k) == ChunkSize
    ensures forall k :: 0 <= k < ChunkCount(frames) ==>
              ChunkStart(k) < ChunkEnd(frames, k) <= ChunkStart(k) + ChunkSize
  {
    var c := ChunkCount(frames);
    ChunkCountIsCeiling(frames, c);
    ChunkCountIsCeiling(frames, c - 1);
    forall k | 0 <= k < c
      ensures ChunkStart(k) < ChunkEnd(frames, k) <= ChunkStart(k) + ChunkSize
      ensures k < c - 1 ==> ChunkEnd(frames, k) == ChunkStart(k + 1)
    {
      ChunkCountIsCeiling(frames, k);
      ChunkCountIsCeiling(frames, k + 1);
    }
  }

  /** Every sample index lies in exactly one chunk, chunk i / ChunkSize. */
  lemma ChunkOfSample(frames: nat, i: nat, k: nat)
    requires i < frames
    ensures i / ChunkSize < ChunkCount(frames)
    ensures ChunkStart(i / ChunkSize) <= i < ChunkEnd(frames, i / ChunkSize)
    ensures ChunkStart(k) <= i < ChunkEnd(frames, k) ==> k == i / ChunkSize
  {
    var q := i / ChunkSize;
    assert q * ChunkSize <= i < (q + 1) * ChunkSize;
    ChunkCountIsCeiling(frames, q);
  }

  // ---------------------------------------------------------------------
  // Per-chunk energy

  function Square(x: real): real {
    x * x
  }

  lemma SquareNonNegative(d: real)
    ensures Square(d) >= 0.0
  {
    if d < 0.0 {
      assert d * d == (-d) * (-d);
    }
  }

  /** Sum of squared samples, accumulated left to right. */
  function SumOfSquares(xs: seq<real>): (r: real)
    ensures r >= 0.0
  {
    if xs == [] then 0.0
    else
      SquareNonNegative(xs[|xs| - 1]);
      SumOfSquares(xs[..|xs| - 1]) + Square(xs[|xs| - 1])
  }

  /** Mean of the squared samples of a chunk; its square root is the chunk's RMS. */
  function MeanSquare(xs: seq<real>): (r: real)
    requires |xs| > 0
    ensures r >= 0.0
  {
    SumOfSquares(xs) / |xs| as real
  }

  /** Entry k of `meanSquares` is the mean square of chunk k of `samples`. */
  predicate IsChunkMeanSquare(samples: seq<real>, meanSquares: seq<real>, k: int)
    requires 0 <= k < |meanSquares|
  {
    ChunkStart(k) < ChunkEnd(|samples|, k) <= |samples| &&
    meanSquares[k] == MeanSquare(samples[ChunkStart(k)..ChunkEnd(|samples|, k)])
  }

  /** The inner loop of the RMS pass: the sum of squares of the `length`
      samples starting at `start`. */
  method ChunkSumOfSquares(samples: seq<real>, start: nat, length: nat) returns (sum: real)
    requires start + length <= |samples|
    ensures sum == SumOfSquares(samples[start..start + length])
  {
    sum := 0.0;
    var j := 0;
    while j < length
      invariant 0 <= j <= length
      invariant sum == SumOfSquares(samples[start..start + j])
    {
      assert samples[start..start + j + 1][..j] == samples[start..start + j];
      var sample := samples[start + j];
      sum := sum + Square(sample);
      j := j + 1;
    }
  }

  /** The strided RMS pass over the decoded samples, up to the square root:
      one entry per chunk, in chunk order, each the mean square of exactly
      that chunk's samples. */
  method ChunkMeanSquares(samples: seq<real>) returns (meanSquares: seq<real>)
    ensures |meanSquares| == ChunkCount(|samples|)
    ensures forall k :: 0 <= k < |meanSquares| ==> IsChunkMeanSquare(samples, meanSquares, k)
  {
    var frames := |samples|;
    meanSquares := [];
    var i := 0;
    while i < frames
      invariant i == ChunkStart(|meanSquares|)
      invariant |meanSquares| <= ChunkCount(frames)
      invariant forall k :: 0 <= k < |meanSquares| ==> IsChunkMeanSquare(samples, meanSquares, k)
      decreases frames - i
    {
      ChunkCountIsCeiling(frames, |meanSquares|);
      var end := if i + ChunkSize < frames then i + ChunkSize else frames;
      var length := end - i;
      var sum := ChunkSumOfSquares(samples, i, length);
      assert end == ChunkEnd(frames, |meanSquares|);
      ghost var done := meanSquares;
      meanSquares := meanSquares + [sum / length as real];
      assert IsChunkMeanSquare(samples, meanSquares, |done|);
      assert forall k :: 0 <= k < |done| ==> IsChunkMeanSquare(samples, done, k) == IsChunkMeanSquare(samples, meanSquares, k);
      i := i + ChunkSize;
    }
    ChunkCountIsCeiling(frames, |meanSquares|);
  }

  // ---------------------------------------------------------------------
  // Statistics over the per-chunk RMS values

  /** `reduce(0, +)`: a left fold. */
  function Sum(xs: seq<real>): (r: real)
    ensures (forall i :: 0 <= i < |xs| ==> xs[i] >= 0.0) ==> r >= 0.0
  {
    if xs == [] then 0.0 else Sum(xs[..|xs| - 1]) + xs[|xs| - 1]
  }

  function Mean(xs: seq<real>): (m: real)
    requires |xs| > 0
    ensures (forall i :: 0 <= i < |xs| ==> xs[i] >= 0.0) ==> m >= 0.0
  {
    Sum(xs) / |xs| as real
  }

  /** `n` copies of `x` added up, which keeps the bounds below linear. */
  function Times(n: nat, x: real): real {
    if n == 0 then 0.0 else Times(n - 1, x) + x
  }

  lemma {:induction false} TimesIsProduct(n: nat, x: real)
    ensures Times(n, x) == n as real * x
  {
    if n > 0 {
      TimesIsProduct(n - 1, x);
      assert n as real * x == (n - 1) as real * x + x;
    }
  }

  /** The fold of values within [lo, hi] lies within [n * lo, n * hi]. */
  lemma {:induction false} SumBetween(xs: seq<real>, lo: real, hi: real)
    requires forall i :: 0 <= i < |xs| ==> lo <= xs[i] <= hi
    ensures Times(|xs|, lo) <= Sum(xs) <= Times(|xs|, hi)
  {
    if xs != [] {
      var prefix := xs[..|xs| - 1];
      assert forall i :: 0 <= i < |prefix| ==> prefix[i] == xs[i];
      SumBetween(prefix, lo, hi);
    }
  }

  /** The mean lies between the smallest and the largest value. */
  lemma MeanBetween(xs: seq<real>, lo: real, hi: real)
    requires |xs| > 0
    requires forall i :: 0 <= i < |xs| ==> lo <= xs[i] <= hi
    ensures lo <= Mean(xs) <= hi
  {
    var n, total := |xs|, Sum(xs);
    SumBetween(xs, lo, hi);
    TimesIsProduct(n, lo);
    TimesIsProduct(n, hi);
    QuotientBetween(total, n as real, lo, hi);
    assert Mean(xs) == total / n as real;
  }

  /** Dividing by a positive n keeps a value between n * lo and n * hi
      between lo and hi. */
  lemma QuotientBetween(s: real, n: real, lo: real, hi: real)
    requires n > 0.0 && n * lo <= s <= n * hi
    ensures lo <= s / n <= hi
  {
    var q := s / n;
    assert q * n == s;
    NonNegativeFactor(q - lo, n);
    NonNegativeFactor(hi - q, n);
  }

  /** A product with a positive factor is non-negative only if the other
      factor is. */
  lemma NonNegativeFactor(d: real, n: real)
    requires n > 0.0 && d * n >= 0.0
    ensures d >= 0.0
  {
  }

  /** Sum of squared deviations from `m`. */
  function SumSquaredDeviations(xs: seq<real>, m: real): (r: real)
    ensures r >= 0.0
  {
    if xs == [] then 0.0
    else
      SquareNonNegative(xs[|xs| - 1] - m);
      SumSquaredDeviations(xs[..|xs| - 1], m) + Square(xs[|xs| - 1] - m)
  }

  /** Population variance: the divisor is the number of values. */
  function Variance(xs: seq<real>): (v: real)
    requires |xs| > 0
    ensures v >= 0.0
  {
    SumSquaredDeviations(xs, Mean(xs)) / |xs| as real
  }

  /** `1 / (1 + variance * 1000)`. */
  function Stability(variance: real): (s: real)
    requires variance >= 0.0
    ensures 0.0 < s <= 1.0
    ensures s == 1.0 <==> variance == 0.0
  {
    1.0 / (1.0 + variance * StabilityScale)
  }

  /** More variance always means strictly less stability. */
  lemma StabilityStrictlyDecreasing(v1: real, v2: real)
    requires 0.0 <= v1 < v2
    ensures Stability(v1) > Stability(v2)
  {
    var a, b := 1.0 + v1 * StabilityScale, 1.0 + v2 * StabilityScale;
    assert 0.0 < a < b;
    assert Stability(v1) * a == 1.0 && Stability(v2) * b == 1.0;
    var s1, s2 := Stability(v1), Stability(v2);
    assert s2 * a < s2 * b;
  }

  lemma {:induction false} SumOfConstant(xs: seq<real>, c: real)
    requires forall i :: 0 <= i < |xs| ==> xs[i] == c
    ensures Sum(xs) == |xs| as real * c
    ensures SumSquaredDeviations(xs, c) == 0.0
  {
    if xs != [] {
      SumOfConstant(xs[..|xs| - 1], c);
    }
  }

  /** When all values are identical the variance is zero. */
  lemma VarianceOfConstant(xs: seq<real>)
    requires |xs| > 0
    requires forall i :: 0 <= i < |xs| ==> xs[i] == xs[0]
    ensures Variance(xs) == 0.0
  {
    SumOfConstant(xs, xs[0]);
    MeanBetween(xs, xs[0], xs[0]);
  }

  /** What the signal step computes from the per-chunk RMS values. */
  datatype SignalFeatures = SignalFeatures(stability: real, meanRms: real)

  /** Stability and mean RMS of a non-empty list of per-chunk RMS values. */
  function VolumeStability(rms: seq<real>): (f: SignalFeatures)
    requires |rms| > 0
    ensures 0.0 < f.stability <= 1.0
    ensures f.stability == 1.0 <==> Variance(rms) == 0.0
  {
    SignalFeatures(Stability(Variance(rms)), Mean(rms))
  }

  /** Chunks of identical RMS give perfect stability. */
  lemma IdenticalChunksAreStable(rms: seq<real>)
    requires |rms| > 0
    requires forall i :: 0 <= i < |rms| ==> rms[i] == rms[0]
    ensures VolumeStability(rms).stability == 1.0
  {
    VarianceOfConstant(rms);
  }

  /** A recording of at most one chunk is always rated perfectly stable. */
  lemma SingleChunkIsStable(rms: seq<real>)
    requires |rms| == 1
    ensures VolumeStability(rms).stability == 1.0
  {
    IdenticalChunksAreStable(rms);
  }
}
