/**
 * Bucketed packet history and its flat counterparts: src/metrics/store.js:553-650
 * and the folds of src/web/metrics-server.js:25-35 and 384-387.
 */
module PacketHistory {
  import opened Prelude
  import opened WeightedRows
  import BucketWidth

  datatype Sample = Sample(id: int, at: int, received: int, decoded: int)

  datatype TypeCount = TypeCount(sampleId: int, key: string, count: int)

  /** metrics_samples and metrics_sample_packet_types. */
  datatype Tables = Tables(samples: seq<Sample>, types: seq<TypeCount>)

  datatype Window = Window(start: int, end: int) {
    predicate Has(at: int) {
      start <= at < end
    }
  }

  /** CAST(offset / width AS INTEGER): how often the width goes into an offset. */
  function Quotient(offset: nat, width: int): nat
    requires width > 0
  {
    if offset < width then 0 else 1 + Quotient(offset - width, width)
  }

  lemma {:induction false} QuotientIs(a: nat, width: int, q: nat)
    requires width > 0
    ensures Quotient(a, width) == q <==> q * width <= a < q * width + width
    decreases a
  {
    if q > 0 {
      assert q * width == (q - 1) * width + width;
      assert (q - 1) * width >= 0;
      if a >= width {
        QuotientIs(a - width, width, q - 1);
      }
    }
  }

  lemma QuotientDivides(offset: nat, width: int)
    requires width > 0
    ensures Quotient(offset, width) == offset / width
  {
    assert offset == width * (offset / width) + offset % width;
    QuotientIs(offset, width, offset / width);
  }

  // ---------------------------------------------------------------- the flat queries

  /** SUM(packets_received), SUM(packets_decoded) over the window. */
  function QueryPacketTotals(samples: seq<Sample>, w: Window): (int, int) {
    if samples == [] then (0, 0)
    else
      var (received, decoded) := QueryPacketTotals(samples[..|samples| - 1], w);
      var s := samples[|samples| - 1];
      if w.Has(s.at) then (received + s.received, decoded + s.decoded) else (received, decoded)
  }

  /** The joined rows of one type count; the primary key makes it at most one. */
  function Joined(samples: seq<Sample>, t: TypeCount, w: Window, width: int): seq<Row>
    requires width > 0
  {
    if samples == [] then []
    else
      var s, before := samples[|samples| - 1], Joined(samples[..|samples| - 1], t, w, width);
      if s.id == t.sampleId && w.Has(s.at) then before + [Row(Quotient(s.at - w.start, width), t.key, t.count)] else before
  }

  /** The joined rows of the window, with the bucket index a width gives them. */
  function TypeRows(samples: seq<Sample>, types: seq<TypeCount>, w: Window, width: int): seq<Row>
    requires width > 0
  {
    if types == [] then []
    else TypeRows(samples, types[..|types| - 1], w, width) + Joined(samples, types[|types| - 1], w, width)
  }

  /** SUM(count) GROUP BY packet_type_bucket over the window; the width plays no part in it. */
  function QueryPacketTypeTotals(t: Tables, w: Window): map<string, int> {
    var rows := TypeRows(t.samples, t.types, w, 1);
    map key | key in Keys(rows) :: SumAll(OfKey(rows, key))
  }

  // ---------------------------------------------------------------- the bucketed query

  function ReceivedRows(samples: seq<Sample>, w: Window, width: int): seq<Row>
    requires width > 0
  {
    if samples == [] then []
    else
      var s, before := samples[|samples| - 1], ReceivedRows(samples[..|samples| - 1], w, width);
      if w.Has(s.at) then before + [Row(Quotient(s.at - w.start, width), "", s.received)] else before
  }

  function DecodedRows(samples: seq<Sample>, w: Window, width: int): seq<Row>
    requires width > 0
  {
    if samples == [] then []
    else
      var s, before := samples[|samples| - 1], DecodedRows(samples[..|samples| - 1], w, width);
      if w.Has(s.at) then before + [Row(Quotient(s.at - w.start, width), "", s.decoded)] else before
  }

  datatype Bucket = Bucket(bucketStart: int, bucketWidthMs: int, received: int, decoded: int, countsByType: map<string, int>)

  /** The grouped type rows that fall into one bucket. */
  function CountsOf(rows: seq<Row>, idx: nat): map<string, int> {
    var own := OfIdx(rows, idx);
    map key | key in Keys(own) :: SumAll(OfKey(own, key))
  }

  /** Every bucket of an ascending list, as the totals and type queries give it. */
  ghost predicate IsHistory(buckets: seq<Bucket>, idxs: seq<nat>, t: Tables, w: Window, width: int)
    requires width > 0
  {
    && |buckets| == |idxs|
    && (forall i, j | 0 <= i < j < |idxs| :: idxs[i] < idxs[j])
    && (set i | i in idxs) == Indices(ReceivedRows(t.samples, w, width))
    && forall i | 0 <= i < |idxs| ::
         buckets[i] == Bucket(w.start + idxs[i] * width, width,
                              SumAll(OfIdx(ReceivedRows(t.samples, w, width), idxs[i])),
                              SumAll(OfIdx(DecodedRows(t.samples, w, width), idxs[i])),
                              CountsOf(TypeRows(t.samples, t.types, w, width), idxs[i]))
  }

  /** Every index of the window lies in the buckets its range takes. */
  lemma {:induction false} IndicesInRange(samples: seq<Sample>, w: Window, width: int)
    requires width > 0
    ensures forall idx | idx in Indices(ReceivedRows(samples, w, width)) ::
              0 <= idx < BucketWidth.BucketsFor(w.end - w.start, width)
    ensures Indices(DecodedRows(samples, w, width)) == Indices(ReceivedRows(samples, w, width))
  {
    if samples != [] {
      var init, s := samples[..|samples| - 1], samples[|samples| - 1];
      IndicesInRange(init, w, width);
      if w.Has(s.at) {
        IndexInRange(s.at - w.start, w.end - w.start, width);
        var idx := Quotient(s.at - w.start, width);
        IndicesStep(ReceivedRows(init, w, width), Row(idx, "", s.received));
        IndicesStep(DecodedRows(init, w, width), Row(idx, "", s.decoded));
      }
    }
  }

  lemma IndicesStep(rows: seq<Row>, r: Row)
    ensures Indices(rows + [r]) == Indices(rows) + {r.idx}
  {
    assert r in rows + [r];
    forall x | x in rows
      ensures x in rows + [r]
    {
    }
  }

  lemma IndexInRange(offset: int, range: int, width: int)
    requires 0 <= offset < range && width > 0
    ensures 0 <= Quotient(offset, width) < BucketWidth.BucketsFor(range, width)
  {
    QuotientDivides(offset, width);
    var q := BucketWidth.BucketsFor(range, width);
    EnoughBuckets(range, width, q);
    BelowQuotient(offset, width, q);
  }

  lemma EnoughBuckets(range: int, width: int, q: int)
    requires range > 0 && width > 0 && q == (range + width - 1) / width
    ensures q > 0 && range <= width * q
  {
    assert q > 0;
    BucketWidth.QuotientAtMost(range, width, q);
  }

  lemma BelowQuotient(a: int, width: int, q: int)
    requires a >= 0 && width > 0 && a < width * q
    ensures 0 <= a / width < q
  {
    assert a == width * (a / width) + a % width;
    assert width * (a / width - q) == width * (a / width) - width * q;
  }

  /** Every type row's sample is among the samples of the window, so its bucket exists. */
  lemma {:induction false} TypeRowsFindBuckets(samples: seq<Sample>, types: seq<TypeCount>, w: Window, width: int)
    requires width > 0
    ensures Indices(TypeRows(samples, types, w, width)) <= Indices(ReceivedRows(samples, w, width))
  {
    if types != [] {
      TypeRowsFindBuckets(samples, types[..|types| - 1], w, width);
      JoinedFindsBucket(samples, types[|types| - 1], w, width);
    }
  }

  lemma {:induction false} JoinedFindsBucket(samples: seq<Sample>, t: TypeCount, w: Window, width: int)
    requires width > 0
    ensures Indices(Joined(samples, t, w, width)) <= Indices(ReceivedRows(samples, w, width))
  {
    if samples != [] {
      var init, s := samples[..|samples| - 1], samples[|samples| - 1];
      JoinedFindsBucket(init, t, w, width);
      if w.Has(s.at) {
        var idx := Quotient(s.at - w.start, width);
        IndicesStep(ReceivedRows(init, w, width), Row(idx, "", s.received));
        IndicesStep(Joined(init, t, w, width), Row(idx, t.key, t.count));
      }
    }
  }

  // ---------------------------------------------------------------- nothing is lost

  function SumReceived(buckets: seq<Bucket>): int {
    if buckets == [] then 0 else SumReceived(buckets[..|buckets| - 1]) + buckets[|buckets| - 1].received
  }

  function SumDecoded(buckets: seq<Bucket>): int {
    if buckets == [] then 0 else SumDecoded(buckets[..|buckets| - 1]) + buckets[|buckets| - 1].decoded
  }

  function CountIn(b: Bucket, key: string): int {
    if key in b.countsByType then b.countsByType[key] else 0
  }

  function SumOfType(buckets: seq<Bucket>, key: string): int {
    if buckets == [] then 0 else SumOfType(buckets[..|buckets| - 1], key) + CountIn(buckets[|buckets| - 1], key)
  }

  lemma {:induction false} FlatTotals(samples: seq<Sample>, w: Window, width: int)
    requires width > 0
    ensures SumAll(ReceivedRows(samples, w, width)) == QueryPacketTotals(samples, w).0
    ensures SumAll(DecodedRows(samples, w, width)) == QueryPacketTotals(samples, w).1
  {
    if samples != [] {
      var init, s := samples[..|samples| - 1], samples[|samples| - 1];
      FlatTotals(init, w, width);
      if w.Has(s.at) {
        SumAppend(ReceivedRows(init, w, width), Row(Quotient(s.at - w.start, width), "", s.received));
        SumAppend(DecodedRows(init, w, width), Row(Quotient(s.at - w.start, width), "", s.decoded));
      }
    }
  }

  /** The bucket sums, bucket by bucket, are sums of groups. */
  lemma {:induction false} BucketSums(buckets: seq<Bucket>, idxs: seq<nat>, received: seq<Row>, decoded: seq<Row>, typed: seq<Row>,
                                      key: string)
    requires |buckets| == |idxs|
    requires forall i | 0 <= i < |idxs| ::
               && buckets[i].received == SumAll(OfIdx(received, idxs[i]))
               && buckets[i].decoded == SumAll(OfIdx(decoded, idxs[i]))
               && buckets[i].countsByType == CountsOf(typed, idxs[i])
    ensures SumReceived(buckets) == SumOfGroups(received, idxs)
    ensures SumDecoded(buckets) == SumOfGroups(decoded, idxs)
    ensures SumOfType(buckets, key) == SumOfGroups(OfKey(typed, key), idxs)
  {
    if buckets != [] {
      var n := |buckets| - 1;
      BucketSums(buckets[..n], idxs[..n], received, decoded, typed, key);
      OfIdxOfKey(typed, idxs[n], key);
      OfKeyShape(OfIdx(typed, idxs[n]), key);
    }
  }

  /** Rows of another width differ in their indices only. */
  ghost predicate SameAmounts(a: seq<Row>, b: seq<Row>) {
    |a| == |b| && forall i | 0 <= i < |a| :: a[i].key == b[i].key && a[i].amount == b[i].amount
  }

  lemma {:induction false} WidthIsImmaterial(samples: seq<Sample>, types: seq<TypeCount>, w: Window, a: int, b: int)
    requires a > 0 && b > 0
    ensures SameAmounts(TypeRows(samples, types, w, a), TypeRows(samples, types, w, b))
  {
    if types != [] {
      WidthIsImmaterial(samples, types[..|types| - 1], w, a, b);
      JoinedIsImmaterial(samples, types[|types| - 1], w, a, b);
    }
  }

  lemma {:induction false} JoinedIsImmaterial(samples: seq<Sample>, t: TypeCount, w: Window, a: int, b: int)
    requires a > 0 && b > 0
    ensures SameAmounts(Joined(samples, t, w, a), Joined(samples, t, w, b))
  {
    if samples != [] {
      JoinedIsImmaterial(samples[..|samples| - 1], t, w, a, b);
    }
  }

  lemma {:induction false} SameSums(a: seq<Row>, b: seq<Row>, key: string)
    requires SameAmounts(a, b)
    ensures SumAll(OfKey(a, key)) == SumAll(OfKey(b, key))
  {
    if a != [] {
      SameSums(a[..|a| - 1], b[..|b| - 1], key);
      SumAppend(OfKey(a[..|a| - 1], key), a[|a| - 1]);
      SumAppend(OfKey(b[..|b| - 1], key), b[|b| - 1]);
    }
  }

  lemma SameKeys(a: seq<Row>, b: seq<Row>)
    requires SameAmounts(a, b)
    ensures Keys(a) == Keys(b)
  {
    forall r | r in a
      ensures r.key in Keys(b)
    {
      var i :| 0 <= i < |a| && a[i] == r;
      assert b[i] in b;
    }
    forall r | r in b
      ensures r.key in Keys(a)
    {
      var i :| 0 <= i < |b| && b[i] == r;
      assert a[i] in a;
    }
  }

  // ---------------------------------------------------------------- each bucket is its own stretch of time

  /** What of the window a bucket that starts here covers. */
  function Slice(w: Window, start: int, width: int): Window {
    Window(start, if start + width < w.end then start + width else w.end)
  }

  lemma InSlice(w: Window, idx: nat, width: int, at: int)
    requires width > 0
    ensures w.Has(at) && Quotient(at - w.start, width) == idx <==> Slice(w, w.start + idx * width, width).Has(at)
  {
    assert idx * width >= 0;
    if at >= w.start {
      QuotientIs(at - w.start, width, idx);
    }
  }

  /** The slice is what the window has under this index. */
  ghost predicate Covers(slice: Window, w: Window, idx: nat, width: int)
    requires width > 0
  {
    forall at {:trigger slice.Has(at)} :: slice.Has(at) <==> w.Has(at) && Quotient(at - w.start, width) == idx
  }

  lemma SliceCovers(w: Window, idx: nat, width: int)
    requires width > 0
    ensures Covers(Slice(w, w.start + idx * width, width), w, idx, width)
  {
    forall at
      ensures Slice(w, w.start + idx * width, width).Has(at) <==> w.Has(at) && Quotient(at - w.start, width) == idx
    {
      InSlice(w, idx, width, at);
    }
  }

  lemma {:induction false} SliceTotals(samples: seq<Sample>, w: Window, slice: Window, idx: nat, width: int)
    requires width > 0 && Covers(slice, w, idx, width)
    ensures SumAll(OfIdx(ReceivedRows(samples, w, width), idx)) == QueryPacketTotals(samples, slice).0
    ensures SumAll(OfIdx(DecodedRows(samples, w, width), idx)) == QueryPacketTotals(samples, slice).1
  {
    if samples != [] {
      var init, s := samples[..|samples| - 1], samples[|samples| - 1];
      SliceTotals(init, w, slice, idx, width);
      if w.Has(s.at) {
        SliceRow(ReceivedRows(init, w, width), Row(Quotient(s.at - w.start, width), "", s.received), idx);
        SliceRow(DecodedRows(init, w, width), Row(Quotient(s.at - w.start, width), "", s.decoded), idx);
      }
    }
  }

  lemma SliceRow(rows: seq<Row>, r: Row, idx: nat)
    ensures SumAll(OfIdx(rows + [r], idx)) == SumAll(OfIdx(rows, idx)) + if r.idx == idx then r.amount else 0
  {
    AppendOfIdx(rows, r, idx);
    SumAppend(OfIdx(rows, idx), r);
  }

  lemma Associates(a: seq<Row>, b: seq<Row>, c: seq<Row>)
    ensures a + b + c == a + (b + c)
  {
  }

  ghost predicate OfIdxSplits(a: seq<Row>, b: seq<Row>, idx: nat) {
    OfIdx(a + b, idx) == OfIdx(a, idx) + OfIdx(b, idx)
  }

  lemma OfIdxSplitsStep(a: seq<Row>, b: seq<Row>, r: Row, idx: nat)
    requires OfIdxSplits(a, b, idx)
    ensures OfIdxSplits(a, b + [r], idx)
  {
    assert a + (b + [r]) == a + b + [r];
    AppendOfIdx(a + b, r, idx);
    AppendOfIdx(b, r, idx);
    Associates(OfIdx(a, idx), OfIdx(b, idx), [r]);
  }

  lemma {:induction false} OfIdxConcat(a: seq<Row>, b: seq<Row>, idx: nat)
    ensures OfIdxSplits(a, b, idx)
  {
    if b == [] {
      assert a + b == a;
    } else {
      var init, last := b[..|b| - 1], b[|b| - 1];
      assert OfIdxSplits(a, init + [last], idx) by {
        OfIdxConcat(a, init, idx);
        OfIdxSplitsStep(a, init, last, idx);
      }
      assert init + [last] == b;
    }
  }

  /** A row of this index is added on both sides, any other on neither. */
  lemma SameStep(a: seq<Row>, b: seq<Row>, r: Row, q: Row, idx: nat)
    requires SameAmounts(OfIdx(a, idx), b) && r.key == q.key && r.amount == q.amount
    ensures SameAmounts(OfIdx(a + [r], idx), if r.idx == idx then b + [q] else b)
  {
    AppendOfIdx(a, r, idx);
  }

  ghost predicate JoinedSame(samples: seq<Sample>, t: TypeCount, w: Window, slice: Window, idx: nat, width: int)
    requires width > 0
  {
    SameAmounts(OfIdx(Joined(samples, t, w, width), idx), Joined(samples, t, slice, 1))
  }

  lemma JoinedAppend(samples: seq<Sample>, s: Sample, t: TypeCount, w: Window, width: int)
    requires width > 0
    ensures Joined(samples + [s], t, w, width)
            == Joined(samples, t, w, width)
               + if s.id == t.sampleId && w.Has(s.at) then [Row(Quotient(s.at - w.start, width), t.key, t.count)] else []
  {
    assert (samples + [s])[..|samples|] == samples;
  }

  lemma JoinedSameStep(samples: seq<Sample>, s: Sample, t: TypeCount, w: Window, slice: Window, idx: nat, width: int)
    requires width > 0 && Covers(slice, w, idx, width) && JoinedSame(samples, t, w, slice, idx, width)
    ensures JoinedSame(samples + [s], t, w, slice, idx, width)
  {
    JoinedAppend(samples, s, t, w, width);
    JoinedAppend(samples, s, t, slice, 1);
    var a, b := Joined(samples, t, w, width), Joined(samples, t, slice, 1);
    if s.id == t.sampleId && w.Has(s.at) {
      var r := Row(Quotient(s.at - w.start, width), t.key, t.count);
      if slice.Has(s.at) {
        SameStep(a, b, r, Row(Quotient(s.at - slice.start, 1), t.key, t.count), idx);
      } else {
        SameStep(a, b, r, r, idx);
      }
    }
  }

  lemma {:induction false} SliceJoined(samples: seq<Sample>, t: TypeCount, w: Window, slice: Window, idx: nat, width: int)
    requires width > 0 && Covers(slice, w, idx, width)
    ensures JoinedSame(samples, t, w, slice, idx, width)
  {
    if samples != [] {
      var init, s := samples[..|samples| - 1], samples[|samples| - 1];
      assert JoinedSame(init + [s], t, w, slice, idx, width) by {
        SliceJoined(init, t, w, slice, idx, width);
        JoinedSameStep(init, s, t, w, slice, idx, width);
      }
      assert init + [s] == samples;
    }
  }

  lemma {:induction false} SliceTypes(samples: seq<Sample>, types: seq<TypeCount>, w: Window, slice: Window, idx: nat, width: int)
    requires width > 0 && Covers(slice, w, idx, width)
    ensures SameAmounts(OfIdx(TypeRows(samples, types, w, width), idx), TypeRows(samples, types, slice, 1))
  {
    if types != [] {
      var init, last := types[..|types| - 1], types[|types| - 1];
      SliceTypes(samples, init, w, slice, idx, width);
      SliceJoined(samples, last, w, slice, idx, width);
      OfIdxConcat(TypeRows(samples, init, w, width), Joined(samples, last, w, width), idx);
    }
  }

  /** A bucket starts a whole number of widths into the window and tells the flat queries' answers for its own stretch. */
  lemma BucketsAreSlices(buckets: seq<Bucket>, idxs: seq<nat>, t: Tables, w: Window, width: int, i: nat)
    requires width > 0 && IsHistory(buckets, idxs, t, w, width) && i < |buckets|
    ensures var b := buckets[i];
            var slice := Slice(w, b.bucketStart, width);
            && b.bucketWidthMs == width && (exists n: nat :: b.bucketStart == w.start + n * width)
            && (b.received, b.decoded) == QueryPacketTotals(t.samples, slice)
            && b.countsByType == QueryPacketTypeTotals(t, slice)
  {
    var idx, slice := idxs[i], Slice(w, buckets[i].bucketStart, width);
    assert buckets[i].bucketStart == w.start + idx * width;
    SliceCovers(w, idx, width);
    SliceTotals(t.samples, w, slice, idx, width);
    SliceTypes(t.samples, t.types, w, slice, idx, width);
    var own, flat := OfIdx(TypeRows(t.samples, t.types, w, width), idx), TypeRows(t.samples, t.types, slice, 1);
    SameKeys(own, flat);
    forall key | key in Keys(flat)
      ensures SumAll(OfKey(own, key)) == SumAll(OfKey(flat, key))
    {
      SameSums(own, flat, key);
    }
  }

  lemma {:induction false} SampleHasIndex(samples: seq<Sample>, s: Sample, w: Window, width: int)
    requires width > 0 && s in samples && w.Has(s.at)
    ensures Quotient(s.at - w.start, width) in Indices(ReceivedRows(samples, w, width))
  {
    var init, last := samples[..|samples| - 1], samples[|samples| - 1];
    assert samples == init + [last];
    if w.Has(last.at) {
      IndicesStep(ReceivedRows(init, w, width), Row(Quotient(last.at - w.start, width), "", last.received));
    }
    if s != last {
      SampleHasIndex(init, s, w, width);
    }
  }

  /** Every sample of the window is in some bucket's stretch. */
  lemma EverySampleHasABucket(buckets: seq<Bucket>, idxs: seq<nat>, t: Tables, w: Window, width: int, s: Sample) returns (i: nat)
    requires width > 0 && IsHistory(buckets, idxs, t, w, width) && s in t.samples && w.Has(s.at)
    ensures i < |buckets| && Slice(w, buckets[i].bucketStart, width).Has(s.at)
  {
    SampleHasIndex(t.samples, s, w, width);
    var idx := Quotient(s.at - w.start, width);
    assert idx in set k | k in idxs;
    i :| 0 <= i < |idxs| && idxs[i] == idx;
    InSlice(w, idx, width, s.at);
  }

  /** A bucketed history within a width's budget, ascending, whose sums are the flat queries' answers. */
  lemma HistoryLosesNothing(buckets: seq<Bucket>, idxs: seq<nat>, t: Tables, w: Window, width: int, key: string)
    requires width > 0 && IsHistory(buckets, idxs, t, w, width)
    ensures SumReceived(buckets) == QueryPacketTotals(t.samples, w).0
    ensures SumDecoded(buckets) == QueryPacketTotals(t.samples, w).1
    ensures SumOfType(buckets, key) == if key in QueryPacketTypeTotals(t, w) then QueryPacketTypeTotals(t, w)[key] else 0
  {
    var received, decoded := ReceivedRows(t.samples, w, width), DecodedRows(t.samples, w, width);
    var typed, flat := TypeRows(t.samples, t.types, w, width), TypeRows(t.samples, t.types, w, 1);
    BucketSums(buckets, idxs, received, decoded, typed, key);
    CoveredBy(received, idxs, Indices(received));
    IndicesInRange(t.samples, w, width);
    CoveredBy(decoded, idxs, Indices(received));
    TypeRowsFindBuckets(t.samples, t.types, w, width);
    CoveredBy(typed, idxs, Indices(received));
    OfKeyShape(typed, key);
    GroupsConserve(received, idxs);
    GroupsConserve(decoded, idxs);
    GroupsConserve(OfKey(typed, key), idxs);
    FlatTotals(t.samples, w, width);
    WidthIsImmaterial(t.samples, t.types, w, width, 1);
    SameSums(typed, flat, key);
    OfKeyShape(flat, key);
  }

  lemma CoveredBy(rows: seq<Row>, idxs: seq<nat>, indices: set<nat>)
    requires Indices(rows) <= indices == set i | i in idxs
    ensures forall r | r in rows :: r.idx in idxs
  {
    forall r | r in rows
      ensures r.idx in idxs
    {
      assert r.idx in Indices(rows);
    }
  }

  /** Ascending indices below a bound are at most that many. */
  lemma {:induction false} AscendingFit(idxs: seq<nat>, bound: int)
    requires forall i, j | 0 <= i < j < |idxs| :: idxs[i] < idxs[j]
    requires forall i | 0 <= i < |idxs| :: 0 <= idxs[i] < bound
    ensures idxs != [] ==> idxs[|idxs| - 1] >= |idxs| - 1
    ensures idxs != [] ==> |idxs| <= bound
  {
    if |idxs| > 1 {
      AscendingFit(idxs[..|idxs| - 1], bound);
    }
  }

  lemma HistoryIsBounded(buckets: seq<Bucket>, idxs: seq<nat>, t: Tables, w: Window, width: int)
    requires width > 0 && IsHistory(buckets, idxs, t, w, width)
    ensures buckets != [] ==> |buckets| <= BucketWidth.BucketsFor(w.end - w.start, width)
    ensures forall i, j | 0 <= i < j < |buckets| :: buckets[i].bucketStart < buckets[j].bucketStart
    ensures forall i | 0 <= i < |buckets| :: w.start <= buckets[i].bucketStart
  {
    IndicesInRange(t.samples, w, width);
    forall i | 0 <= i < |idxs|
      ensures 0 <= idxs[i] < BucketWidth.BucketsFor(w.end - w.start, width)
    {
      assert idxs[i] in Indices(ReceivedRows(t.samples, w, width));
    }
    AscendingFit(idxs, BucketWidth.BucketsFor(w.end - w.start, width));
    forall i, j | 0 <= i < j < |buckets|
      ensures buckets[i].bucketStart < buckets[j].bucketStart
    {
      LargerProduct(idxs[i], idxs[j], width);
    }
    forall i | 0 <= i < |buckets|
      ensures w.start <= buckets[i].bucketStart
    {
      assert idxs[i] * width >= 0;
    }
  }

  lemma LargerProduct(a: int, b: int, width: int)
    requires a < b && width > 0
    ensures a * width < b * width
  {
    assert (b - a) * width == b * width - a * width;
  }

  predicate NamedIn(b: Bucket, key: string) {
    key in b.countsByType
  }

  ghost predicate Names(buckets: seq<Bucket>, key: string) {
    exists i :: 0 <= i < |buckets| && NamedIn(buckets[i], key)
  }

  /** A type occurs in some bucket exactly when it occurs in the window at all. */
  lemma SameTypes(buckets: seq<Bucket>, idxs: seq<nat>, t: Tables, w: Window, width: int, key: string)
    requires width > 0 && IsHistory(buckets, idxs, t, w, width)
    ensures Names(buckets, key) <==> key in QueryPacketTypeTotals(t, w)
  {
    var typed, flat := TypeRows(t.samples, t.types, w, width), TypeRows(t.samples, t.types, w, 1);
    WidthIsImmaterial(t.samples, t.types, w, width, 1);
    SameKeys(typed, flat);
    if i :| 0 <= i < |buckets| && NamedIn(buckets[i], key) {
      OfIdxShape(typed, idxs[i]);
    }
    if key in Keys(typed) {
      var r :| r in typed && r.key == key;
      TypeRowsFindBuckets(t.samples, t.types, w, width);
      assert r.idx in Indices(typed);
      assert r.idx in set i | i in idxs;
      var i :| 0 <= i < |idxs| && idxs[i] == r.idx;
      OfIdxHas(typed, r);
      assert NamedIn(buckets[i], key);
    }
  }

  lemma {:induction false} OfIdxHas(rows: seq<Row>, r: Row)
    requires r in rows
    ensures r in OfIdx(rows, r.idx)
  {
    var init, last := rows[..|rows| - 1], rows[|rows| - 1];
    assert rows == init + [last];
    if last != r {
      OfIdxHas(init, r);
    }
  }

  // ---------------------------------------------------------------- the code

  /** The type counts of one bucket that the loop over the type rows has set so far. */
  ghost predicate Filled(b: Bucket, typed: seq<Row>, idx: nat, todo: set<(nat, string)>) {
    && (forall key :: key in b.countsByType <==> key in Keys(OfIdx(typed, idx)) && (idx, key) !in todo)
    && (forall key | key in b.countsByType :: b.countsByType[key] == SumAll(OfKey(OfIdx(typed, idx), key)))
  }

  /** The groups of the type query: every (bucket_idx, bucket_key) that occurs. */
  function Groups(rows: seq<Row>): set<(nat, string)> {
    set r | r in rows :: (r.idx, r.key)
  }

  lemma GroupsAreKeys(rows: seq<Row>, idx: nat, key: string)
    ensures (idx, key) in Groups(rows) <==> key in Keys(OfIdx(rows, idx))
  {
    if (idx, key) in Groups(rows) {
      var r :| r in rows && (r.idx, r.key) == (idx, key);
      OfIdxHas(rows, r);
    }
    OfIdxShape(rows, idx);
  }

  method Smallest(keys: set<nat>) returns (idx: nat)
    requires keys != {}
    ensures idx in keys && forall k | k in keys :: idx <= k
  {
    var todo := keys;
    idx :| idx in keys;
    while todo != {}
      invariant todo <= keys && idx in keys
      invariant forall k | k in keys && k !in todo :: idx <= k
      decreases |todo|
    {
      var k :| k in todo;
      if k < idx {
        idx := k;
      }
      todo := todo - {k};
    }
  }

  /** The totals rows become the buckets, keyed by their index. */
  method BucketsFromTotals(received: seq<Row>, decoded: seq<Row>, start: int, width: int) returns (byIdx: map<nat, Bucket>)
    ensures byIdx.Keys == Indices(received)
    ensures forall idx | idx in byIdx ::
              byIdx[idx] == Bucket(start + idx * width, width, SumAll(OfIdx(received, idx)), SumAll(OfIdx(decoded, idx)), map[])
  {
    byIdx := map[];
    var todo := Indices(received);
    while todo != {}
      invariant todo <= Indices(received) && byIdx.Keys == Indices(received) - todo
      invariant forall idx | idx in byIdx ::
                  byIdx[idx] == Bucket(start + idx * width, width, SumAll(OfIdx(received, idx)), SumAll(OfIdx(decoded, idx)), map[])
      decreases |todo|
    {
      var idx :| idx in todo;
      todo := todo - {idx};
      byIdx := byIdx[idx := Bucket(start + idx * width, width, SumAll(OfIdx(received, idx)), SumAll(OfIdx(decoded, idx)), map[])];
    }
  }

  /** Each type row is written into the bucket of its index, which is there. */
  method AddTypeRows(buckets: map<nat, Bucket>, typed: seq<Row>) returns (byIdx: map<nat, Bucket>)
    requires Indices(typed) <= buckets.Keys
    requires forall idx | idx in buckets :: buckets[idx].countsByType == map[]
    ensures byIdx.Keys == buckets.Keys
    ensures forall idx | idx in byIdx :: byIdx[idx] == buckets[idx].(countsByType := CountsOf(typed, idx))
  {
    byIdx := buckets;
    var todo := Groups(typed);
    forall idx | idx in buckets
      ensures Filled(byIdx[idx], typed, idx, todo)
    {
      forall key
        ensures (idx, key) in todo <==> key in Keys(OfIdx(typed, idx))
      {
        GroupsAreKeys(typed, idx, key);
      }
    }
    while todo != {}
      invariant todo <= Groups(typed) && byIdx.Keys == buckets.Keys
      invariant forall idx | idx in byIdx ::
                  Filled(byIdx[idx], typed, idx, todo) && byIdx[idx] == buckets[idx].(countsByType := byIdx[idx].countsByType)
      decreases |todo|
    {
      var g :| g in todo;
      GroupsAreKeys(typed, g.0, g.1);
      assert g.0 in Indices(typed);
      var b := byIdx[g.0];
      var b' := b.(countsByType := b.countsByType[g.1 := SumAll(OfKey(OfIdx(typed, g.0), g.1))]);
      forall idx | idx in byIdx
        ensures Filled(if idx == g.0 then b' else byIdx[idx], typed, idx, todo - {g})
      {
        FilledStep(byIdx[idx], typed, idx, todo, g);
      }
      todo := todo - {g};
      byIdx := byIdx[g.0 := b'];
    }
    forall idx | idx in byIdx
      ensures byIdx[idx].countsByType == CountsOf(typed, idx)
    {
      assert Filled(byIdx[idx], typed, idx, {});
    }
  }

  lemma FilledStep(b: Bucket, typed: seq<Row>, idx: nat, todo: set<(nat, string)>, g: (nat, string))
    requires Filled(b, typed, idx, todo) && g in todo && g in Groups(typed)
    ensures idx != g.0 ==> Filled(b, typed, idx, todo - {g})
    ensures idx == g.0 ==>
              Filled(b.(countsByType := b.countsByType[g.1 := SumAll(OfKey(OfIdx(typed, idx), g.1))]), typed, idx, todo - {g})
  {
    GroupsAreKeys(typed, g.0, g.1);
  }

  /** A set of indices in ascending order. */
  method Sorted(keys: set<nat>) returns (idxs: seq<nat>)
    ensures forall i, j | 0 <= i < j < |idxs| :: idxs[i] < idxs[j]
    ensures (set i | i in idxs) == keys
  {
    idxs := [];
    var rest := keys;
    while rest != {}
      invariant rest <= keys && forall k | k in keys :: k in rest || k in idxs
      invariant forall i | i in idxs :: i in keys && forall k | k in rest :: i < k
      invariant forall i, j | 0 <= i < j < |idxs| :: idxs[i] < idxs[j]
      decreases |rest|
    {
      var idx := Smallest(rest);
      assert forall i | 0 <= i < |idxs| :: idxs[i] in idxs;
      idxs := idxs + [idx];
      rest := rest - {idx};
    }
  }

  /** `[...values].sort(...)` by bucketStart, which is by index. */
  method InOrder(byIdx: map<nat, Bucket>) returns (buckets: seq<Bucket>, idxs: seq<nat>)
    ensures |buckets| == |idxs| && (forall i, j | 0 <= i < j < |idxs| :: idxs[i] < idxs[j])
    ensures (set i | i in idxs) == byIdx.Keys
    ensures forall i | 0 <= i < |idxs| :: idxs[i] in byIdx && buckets[i] == byIdx[idxs[i]]
  {
    idxs := Sorted(byIdx.Keys);
    assert forall i | 0 <= i < |idxs| :: idxs[i] in set i | i in idxs;
    buckets := seq(|idxs|, i requires 0 <= i < |idxs| && idxs[i] in byIdx => byIdx[idxs[i]]);
  }

  method QueryPacketHistory(t: Tables, w: Window, maxBuckets: int, sampleIntervalMs: int)
    returns (buckets: seq<Bucket>, width: int, ghost idxs: seq<nat>)
    requires sampleIntervalMs > 0
    ensures width >= sampleIntervalMs && BucketWidth.Fits(w.end - w.start, width, maxBuckets)
    ensures IsHistory(buckets, idxs, t, w, width)
    ensures |buckets| <= Max(1, maxBuckets)
  {
    width := BucketWidth.ResolveBucketWidthMs(w.end - w.start, maxBuckets, sampleIntervalMs);
    var received, decoded := ReceivedRows(t.samples, w, width), DecodedRows(t.samples, w, width);
    var typed := TypeRows(t.samples, t.types, w, width);
    var byIdx := BucketsFromTotals(received, decoded, w.start, width);
    TypeRowsFindBuckets(t.samples, t.types, w, width);
    byIdx := AddTypeRows(byIdx, typed);
    buckets, idxs := InOrder(byIdx);
    HistoryIsBounded(buckets, idxs, t, w, width);
  }

  /** The fold of the buckets by type. */
  method CountByType(buckets: seq<Bucket>) returns (counts: map<string, int>)
    ensures forall key :: key in counts <==> Names(buckets, key)
    ensures forall key | key in counts :: counts[key] == SumOfType(buckets, key)
  {
    counts := map[];
    for n := 0 to |buckets|
      invariant forall key :: key in counts <==> Names(buckets[..n], key)
      invariant forall key :: SumOfType(buckets[..n], key) == if key in counts then counts[key] else 0
    {
      assert buckets[..n + 1][..n] == buckets[..n];
      var before := counts;
      var todo := buckets[n].countsByType.Keys;
      while todo != {}
        invariant todo <= buckets[n].countsByType.Keys
        invariant counts.Keys == before.Keys + (buckets[n].countsByType.Keys - todo)
        invariant forall key | key in counts ::
                    counts[key] == (if key in before then before[key] else 0)
                                   + if key in todo then 0 else CountIn(buckets[n], key)
        decreases |todo|
      {
        var key :| key in todo;
        todo := todo - {key};
        counts := counts[key := (if key in counts then counts[key] else 0) + buckets[n].countsByType[key]];
      }
      forall key
        ensures key in counts <==> Names(buckets[..n + 1], key)
      {
        NamesStep(buckets, n, key);
      }
    }
    assert buckets[..|buckets|] == buckets;
  }

  lemma NamesStep(buckets: seq<Bucket>, n: nat, key: string)
    requires n < |buckets|
    ensures Names(buckets[..n + 1], key) <==> Names(buckets[..n], key) || key in buckets[n].countsByType
  {
    assert forall i | 0 <= i < n :: buckets[..n + 1][i] == buckets[i] == buckets[..n][i];
    if NamedIn(buckets[n], key) {
      assert NamedIn(buckets[..n + 1][n], key);
    }
    if i :| 0 <= i < n && NamedIn(buckets[..n][i], key) {
      assert NamedIn(buckets[..n + 1][i], key);
    }
  }

  datatype TypeTotal = TypeTotal(packetTypeBucket: string, total: int)

  /** The entries of a map but for those still to come, from the largest total down; the order of ties is left open. */
  ghost predicate ListsDown(totals: seq<TypeTotal>, todo: set<string>, counts: map<string, int>) {
    && todo <= counts.Keys
    && (forall key | key in counts :: key in todo || TypeTotal(key, counts[key]) in totals)
    && (forall i | 0 <= i < |totals| ::
          && totals[i].packetTypeBucket in counts && totals[i].packetTypeBucket !in todo
          && totals[i].total == counts[totals[i].packetTypeBucket])
    && (forall i, key | 0 <= i < |totals| && key in todo :: totals[i].total >= counts[key])
    && forall i, j | 0 <= i < j < |totals| ::
         totals[i].packetTypeBucket != totals[j].packetTypeBucket && totals[i].total >= totals[j].total
  }

  lemma ListsOneMore(totals: seq<TypeTotal>, todo: set<string>, counts: map<string, int>, key: string)
    requires ListsDown(totals, todo, counts) && key in todo && forall k | k in todo :: counts[k] <= counts[key]
    ensures ListsDown(totals + [TypeTotal(key, counts[key])], todo - {key}, counts)
  {
    var more := totals + [TypeTotal(key, counts[key])];
    forall k | k in counts
      ensures k in todo - {key} || TypeTotal(k, counts[k]) in more
    {
      assert k in todo || TypeTotal(k, counts[k]) in totals;
    }
    forall i, j | 0 <= i < j < |more|
      ensures more[i].packetTypeBucket != more[j].packetTypeBucket && more[i].total >= more[j].total
    {
      assert more[i] == totals[i];
    }
  }

  lemma {:induction false} LargestOf(counts: map<string, int>, keys: set<string>) returns (top: string)
    requires keys != {} && keys <= counts.Keys
    ensures top in keys && forall k | k in keys :: counts[k] <= counts[top]
    decreases |keys|
  {
    var some :| some in keys;
    var rest := keys - {some};
    if rest == {} {
      assert keys == {some};
      top := some;
    } else {
      var below := LargestOf(counts, rest);
      assert forall k | k in keys :: k == some || k in rest;
      top := if counts[below] > counts[some] then below else some;
    }
  }

  method SortDown(counts: map<string, int>) returns (totals: seq<TypeTotal>)
    ensures ListsDown(totals, {}, counts)
  {
    totals := [];
    var todo := counts.Keys;
    while todo != {}
      invariant ListsDown(totals, todo, counts)
      decreases |todo|
    {
      ghost var top := LargestOf(counts, todo);
      var key :| key in todo && forall k | k in todo :: counts[k] <= counts[key];
      ListsOneMore(totals, todo, counts, key);
      totals := totals + [TypeTotal(key, counts[key])];
      todo := todo - {key};
    }
  }

  /** Each type of the buckets once, with its sum, from the largest down. */
  ghost predicate TellsTypes(totals: seq<TypeTotal>, buckets: seq<Bucket>) {
    && (forall key | Names(buckets, key) :: TypeTotal(key, SumOfType(buckets, key)) in totals)
    && (forall i | 0 <= i < |totals| ::
          Names(buckets, totals[i].packetTypeBucket) && totals[i].total == SumOfType(buckets, totals[i].packetTypeBucket))
    && forall i, j | 0 <= i < j < |totals| ::
         totals[i].packetTypeBucket != totals[j].packetTypeBucket && totals[i].total >= totals[j].total
  }

  method PacketTypeTotalsFromHistory(buckets: seq<Bucket>) returns (totals: seq<TypeTotal>)
    ensures TellsTypes(totals, buckets)
  {
    var counts := CountByType(buckets);
    totals := SortDown(counts);
  }

  lemma TypesAreFlat(totals: seq<TypeTotal>, buckets: seq<Bucket>, idxs: seq<nat>, t: Tables, w: Window, width: int)
    requires width > 0 && TellsTypes(totals, buckets) && IsHistory(buckets, idxs, t, w, width)
    ensures ListsDown(totals, {}, QueryPacketTypeTotals(t, w))
  {
    var flat := QueryPacketTypeTotals(t, w);
    forall key
      ensures Names(buckets, key) <==> key in flat
      ensures key in flat ==> SumOfType(buckets, key) == flat[key]
    {
      HistoryLosesNothing(buckets, idxs, t, w, width, key);
      SameTypes(buckets, idxs, t, w, width, key);
    }
  }

  /** The dashboard's overview, computed from one history query, agrees with the store's flat queries. */
  method OverviewPackets(t: Tables, w: Window, maxBuckets: int, sampleIntervalMs: int)
    returns (received: int, decoded: int, packetTypes: seq<TypeTotal>)
    requires sampleIntervalMs > 0
    ensures (received, decoded) == QueryPacketTotals(t.samples, w)
    ensures ListsDown(packetTypes, {}, QueryPacketTypeTotals(t, w))
  {
    var buckets, width, idxs := QueryPacketHistory(t, w, maxBuckets, sampleIntervalMs);
    packetTypes := PacketTypeTotalsFromHistory(buckets);
    received, decoded := SumReceived(buckets), SumDecoded(buckets);
    HistoryLosesNothing(buckets, idxs, t, w, width, "");
    TypesAreFlat(packetTypes, buckets, idxs, t, w, width);
  }
}
