/** The bucket width of src/metrics/store.js:346-359, in exact arithmetic. */
module BucketWidth {
  import opened Prelude

  const BUCKET_WIDTH_LADDER_MS: seq<int> := [
    60_000, 300_000, 900_000, 3_600_000, 10_800_000, 21_600_000, 43_200_000, 86_400_000, 604_800_000, 2_592_000_000
  ]

  /** One, five and fifteen minutes, one, three, six and twelve hours, a day, seven and thirty days. */
  lemma RungsAreListed()
    ensures var minute, hour, day := 60 * 1000, 60 * 60 * 1000, 24 * 60 * 60 * 1000;
            BUCKET_WIDTH_LADDER_MS
            == [minute, 5 * minute, 15 * minute, hour, 3 * hour, 6 * hour, 12 * hour, day, 7 * day, 30 * day]
  {
  }

  function Above(rungs: seq<int>, floor: int): (kept: seq<int>)
    ensures forall r | r in kept :: r > floor && r in rungs
    ensures forall r | r in rungs && r > floor :: r in kept
  {
    if rungs == [] then [] else Above(rungs[..|rungs| - 1], floor) + if rungs[|rungs| - 1] > floor then [rungs[|rungs| - 1]] else []
  }

  function Ladder(sampleIntervalMs: int): seq<int> {
    [sampleIntervalMs] + Above(BUCKET_WIDTH_LADDER_MS, sampleIntervalMs)
  }

  ghost predicate Ascending(s: seq<int>) {
    forall i, j | 0 <= i < j < |s| :: s[i] < s[j]
  }

  lemma {:induction false} AboveAscends(rungs: seq<int>, floor: int)
    requires Ascending(rungs)
    ensures Ascending(Above(rungs, floor))
    ensures Above(rungs, floor) != [] ==> Above(rungs, floor)[|Above(rungs, floor)| - 1] <= rungs[|rungs| - 1]
  {
    if rungs != [] {
      AboveAscends(rungs[..|rungs| - 1], floor);
    }
  }

  lemma LadderAscends(sampleIntervalMs: int)
    ensures Ascending(Ladder(sampleIntervalMs))
    ensures forall i | 0 <= i < |Ladder(sampleIntervalMs)| :: Ladder(sampleIntervalMs)[i] >= sampleIntervalMs
  {
    var above := Above(BUCKET_WIDTH_LADDER_MS, sampleIntervalMs);
    AboveAscends(BUCKET_WIDTH_LADDER_MS, sampleIntervalMs);
    forall i | 0 <= i < |above|
      ensures above[i] > sampleIntervalMs
    {
      assert above[i] in above;
    }
  }

  /** Math.ceil(rangeMs / width): how many buckets of this width a range takes. */
  function BucketsFor(rangeMs: int, width: int): int
    requires width > 0
  {
    (Max(0, rangeMs) + width - 1) / width
  }

  /** The width keeps the range within its bucket budget. */
  predicate Fits(rangeMs: int, width: int, maxBuckets: int)
    requires width > 0
  {
    BucketsFor(rangeMs, width) <= Max(1, maxBuckets)
  }

  function CeilReal(r: real): int {
    -((-r).Floor)
  }

  lemma QuotientAtMost(range: int, width: int, n: int)
    requires range >= 0 && width > 0 && n > 0
    ensures (range + width - 1) / width <= n <==> range <= width * n
  {
    var q, r := (range + width - 1) / width, (range + width - 1) % width;
    assert range + width - 1 == width * q + r;
    if q <= n {
      assert width * q <= width * n;
    } else {
      assert width * (n + 1) <= width * q;
      assert width * (n + 1) == width * n + width;
    }
  }

  lemma RealQuotientAtMost(range: int, n: int, width: int)
    requires n > 0
    ensures width as real >= range as real / n as real <==> range <= width * n
  {
    var ideal := range as real / n as real;
    assert ideal * n as real == range as real;
    assert (width * n) as real == width as real * n as real;
    assert (width as real - ideal) * n as real == (width * n) as real - range as real;
  }

  /** The comparison the code makes on the ideal width decides whether a width fits. */
  lemma IdealDecides(rangeMs: int, maxBuckets: int, width: int)
    requires width > 0
    ensures width as real >= Max(0, rangeMs) as real / Max(1, maxBuckets) as real <==> Fits(rangeMs, width, maxBuckets)
  {
    QuotientAtMost(Max(0, rangeMs), width, Max(1, maxBuckets));
    RealQuotientAtMost(Max(0, rangeMs), Max(1, maxBuckets), width);
  }

  /** Rounding up to a multiple of the step gives the smallest multiple that reaches x. */
  lemma CeilMultiple(x: real, step: int, m: int)
    requires step > 0
    ensures (m * step) as real >= x <==> m >= CeilReal(x / step as real)
  {
    var q := x / step as real;
    assert q * step as real == x;
    assert (m * step) as real == m as real * step as real;
    assert (m as real - q) * step as real == (m * step) as real - x;
    assert m as real >= q <==> m >= CeilReal(q);
  }

  /** The smallest rung that fits, or, when none does, the smallest multiple of the largest that does. */
  method ResolveBucketWidthMs(rangeMs: int, maxBuckets: int, sampleIntervalMs: int) returns (width: int)
    requires sampleIntervalMs > 0
    ensures width >= sampleIntervalMs && Fits(rangeMs, width, maxBuckets)
    ensures forall rung | rung in Ladder(sampleIntervalMs) && rung < width :: rung > 0 && !Fits(rangeMs, rung, maxBuckets)
    ensures width in Ladder(sampleIntervalMs)
            || var top := Ladder(sampleIntervalMs)[|Ladder(sampleIntervalMs)| - 1];
               exists k :: k > 0 && width == k * top && forall m | 0 < m < k :: !Fits(rangeMs, m * top, maxBuckets)
  {
    var ideal := Max(0, rangeMs) as real / Max(1, maxBuckets) as real;
    var ladder := Ladder(sampleIntervalMs);
    LadderAscends(sampleIntervalMs);
    for i := 0 to |ladder|
      invariant forall j | 0 <= j < i :: ladder[j] > 0 && !Fits(rangeMs, ladder[j], maxBuckets)
    {
      IdealDecides(rangeMs, maxBuckets, ladder[i]);
      if ladder[i] as real >= ideal {
        return ladder[i];
      }
    }
    var top := ladder[|ladder| - 1];
    var k := CeilReal(ideal / top as real);
    width := k * top;
    IdealDecides(rangeMs, maxBuckets, top);
    CeilMultiple(ideal, top, k);
    CeilMultiple(ideal, top, 1);
    assert k > 1;
    assert width >= top by {
      assert (k - 1) * top >= 0;
      assert k * top == (k - 1) * top + top;
    }
    IdealDecides(rangeMs, maxBuckets, width);
    forall m | 0 < m < k
      ensures m * top > 0 && !Fits(rangeMs, m * top, maxBuckets)
    {
      CeilMultiple(ideal, top, m);
      PositiveProduct(m, top);
      IdealDecides(rangeMs, maxBuckets, m * top);
    }
  }

  lemma PositiveProduct(m: int, top: int)
    requires m > 0 && top > 0
    ensures m * top > 0
  {
  }
}
