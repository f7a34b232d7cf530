/** The latency histogram: exact buckets below 8192 ns, then 64 equal buckets per power of
    two, and a percentile that scans the bucket counts. */
module Histograms {
  import opened Core
  import opened Bits

  const LINEAR_RANGE: nat := 8192
  const LINEAR_BITS: nat := 13
  const SUB_BUCKETS: nat := 64
  const MAX_OCTAVES: nat := 40
  const NUM_BUCKETS: nat := 10752  // LINEAR_RANGE + SUB_BUCKETS * MAX_OCTAVES

  /** 2^53, the first sample past the last octave. */
  const CLAMP_FROM: nat := 0x20_0000_0000_0000

  /** 2^63, one past the largest `std::int64_t`. */
  const NANOS_SPAN: nat := 0x8000_0000_0000_0000

  /** Position of the most significant set bit. */
  function Msb(v: nat): (m: nat)
    requires 0 < v < NANOS_SPAN
    ensures Pow2(m) <= v < 2 * Pow2(m)
  {
    WordLeadingDigit(v);
    assert Pow2(64 - CountlZero(v)) == 2 * Pow2(63 - CountlZero(v));
    63 - CountlZero(v)
  }

  lemma QuotientNonNegative(a: int, b: int)
    requires 0 <= a && 0 < b
    ensures a / b >= 0
  {
  }

  /** `LatencyHistogram::bucket_index`. */
  function BucketIndex(v: nat): nat
    requires v < NANOS_SPAN
  {
    if v < LINEAR_RANGE then v
    else
      MsbHigh(v);
      var octaveStart := Pow2(Msb(v));
      var subWidth := octaveStart / SUB_BUCKETS;
      QuotientNonNegative(v - octaveStart, subWidth);
      LINEAR_RANGE + (Msb(v) - LINEAR_BITS) * SUB_BUCKETS + (v - octaveStart) / subWidth
  }

  /** `LatencyHistogram::bucket_lower_bound`. */
  function LowerBound(idx: nat): nat {
    if idx < LINEAR_RANGE then idx
    else
      var log := idx - LINEAR_RANGE;
      var octaveStart := Pow2(LINEAR_BITS + log / SUB_BUCKETS);
      octaveStart + log % SUB_BUCKETS * (octaveStart / SUB_BUCKETS)
  }

  lemma LinearIsPow2(n: nat)
    requires n == LINEAR_BITS
    ensures Pow2(n) == LINEAR_RANGE
  {
    assert Pow2(6) == 64 && Pow2(7) == 128;
    Pow2Add(6, 7);
  }

  lemma SubIsPow2(n: nat)
    requires n == 6
    ensures Pow2(n) == SUB_BUCKETS
  {
    assert Pow2(6) == 64;
  }

  /** An octave splits evenly: 2^m is 64 widths of 2^(m-6). */
  lemma OctaveWidth(m: nat)
    requires m >= LINEAR_BITS
    ensures Pow2(m) == SUB_BUCKETS * Pow2(m - 6)
    ensures Pow2(m) / SUB_BUCKETS == Pow2(m - 6)
  {
    var n := 6;
    SubIsPow2(n);
    Pow2Add(n, m - n);
    DivideExact(SUB_BUCKETS, Pow2(m - 6), 0);
  }

  lemma MsbHigh(v: nat)
    requires LINEAR_RANGE <= v < NANOS_SPAN
    ensures Msb(v) >= LINEAR_BITS
    ensures Pow2(Msb(v)) / SUB_BUCKETS > 0
  {
    var n := LINEAR_BITS;
    LinearIsPow2(n);
    assert Pow2(Msb(v) + 1) == 2 * Pow2(Msb(v));
    if Msb(v) < LINEAR_BITS {
      Pow2Monotone(Msb(v) + 1, n);
    }
    OctaveWidth(Msb(v));
  }

  lemma MsbUnique(v: nat, m: nat)
    requires 0 < v < NANOS_SPAN && Pow2(m) <= v < 2 * Pow2(m)
    ensures Msb(v) == m
  {
    var k := Msb(v);
    assert Pow2(k + 1) == 2 * Pow2(k) && Pow2(m + 1) == 2 * Pow2(m);
    if k < m {
      Pow2Monotone(k + 1, m);
    } else if m < k {
      Pow2Monotone(m + 1, k);
    }
  }

  /** The width of a log-region sample's bucket. */
  function Width(v: nat): (w: nat)
    requires LINEAR_RANGE <= v < NANOS_SPAN
    ensures w > 0
  {
    MsbHigh(v);
    Pow2(Msb(v) - 6)
  }

  /** Which of its octave's 64 buckets a log-region sample is in. */
  function SubIndex(v: nat): int
    requires LINEAR_RANGE <= v < NANOS_SPAN
  {
    (v - SUB_BUCKETS * Width(v)) / Width(v)
  }

  lemma SubIndexForm(v: nat)
    requires LINEAR_RANGE <= v < NANOS_SPAN
    ensures SUB_BUCKETS * Width(v) == Pow2(Msb(v)) <= v < 2 * Pow2(Msb(v))
    ensures 0 <= SubIndex(v) < SUB_BUCKETS
    ensures (SUB_BUCKETS + SubIndex(v)) * Width(v) <= v < (SUB_BUCKETS + SubIndex(v)) * Width(v) + Width(v)
  {
    MsbHigh(v);
    OctaveWidth(Msb(v));
    InOctave(v, Width(v), SUB_BUCKETS);
  }

  lemma InOctave(v: nat, w: nat, n: nat)
    requires w > 0 && n * w <= v < 2 * (n * w)
    ensures 0 <= (v - n * w) / w < n
    ensures (n + (v - n * w) / w) * w <= v < (n + (v - n * w) / w) * w + w
  {
    QuotientBelow(v - n * w, w, n);
    Bracket(v - n * w, w, n);
  }

  lemma Bracket(d: nat, w: nat, n: nat)
    requires w > 0
    ensures (n + d / w) * w <= n * w + d < (n + d / w) * w + w
  {
    var j, r := d / w, d % w;
    assert d == w * j + r;
    assert (n + j) * w == n * w + w * j;
  }

  /** In the log region a bucket is `[(64 + j) * w, (64 + j + 1) * w)` for its width `w`, and
      its lower bound is what the reverse computation returns. */
  lemma LogBucket(v: nat)
    requires LINEAR_RANGE <= v < NANOS_SPAN
    ensures Msb(v) >= LINEAR_BITS
    ensures 0 <= SubIndex(v) < SUB_BUCKETS
    ensures BucketIndex(v) == LINEAR_RANGE + (Msb(v) - LINEAR_BITS) * SUB_BUCKETS + SubIndex(v)
    ensures LowerBound(BucketIndex(v)) == (SUB_BUCKETS + SubIndex(v)) * Width(v)
  {
    MsbHigh(v);
    OctaveWidth(Msb(v));
    SubIndexForm(v);
    LowerBoundForm(Msb(v) - LINEAR_BITS, SubIndex(v));
  }

  lemma QuotientBelow(d: nat, w: nat, n: nat)
    requires w > 0 && d < n * w
    ensures d / w < n
  {
    var q := d / w;
    assert d == w * q + d % w;
    if q >= n {
      MonotoneProduct(w, n, q);
    }
  }

  lemma MonotoneProduct(w: nat, a: nat, b: nat)
    requires a <= b
    ensures w * a <= w * b
  {
  }

  lemma LowerBoundForm(octave: nat, j: nat)
    requires j < SUB_BUCKETS
    ensures LowerBound(LINEAR_RANGE + octave * SUB_BUCKETS + j) == (SUB_BUCKETS + j) * Pow2(LINEAR_BITS + octave - 6)
  {
    var w := Pow2(LINEAR_BITS + octave - 6);
    OctaveWidth(LINEAR_BITS + octave);
    DivideExact(SUB_BUCKETS, octave, j);
    assert (SUB_BUCKETS + j) * w == SUB_BUCKETS * w + j * w;
  }

  lemma SameMultiple(a: nat, b: nat, w: nat, v: nat)
    requires a * w <= v < a * w + w && b * w <= v < b * w + w
    ensures a == b
  {
    if a < b {
      MonotoneProduct(w, a + 1, b);
    } else if b < a {
      MonotoneProduct(w, b + 1, a);
    }
  }

  /** Which samples share a bucket: below 8192 each has its own; from there each power of two is
      cut into 64 equal parts, numbered on. */
  lemma BucketSpans(v: nat, octave: nat, j: nat)
    requires v < NANOS_SPAN
    ensures v < 8192 ==> BucketIndex(v) == v
    ensures var w := Pow2(7 + octave);
            j < 64 && (64 + j) * w <= v < (64 + j) * w + w ==> BucketIndex(v) == 8192 + 64 * octave + j
  {
    var m := LINEAR_BITS + octave;
    var w := Pow2(m - 6);
    if j < 64 && (64 + j) * w <= v < (64 + j) * w + w {
      OctaveWidth(m);
      var n := LINEAR_BITS;
      LinearIsPow2(n);
      Pow2Monotone(n, m);
      WithinOctave(v, w, j);
      MsbUnique(v, m);
      LogBucket(v);
      SubIndexForm(v);
      SameMultiple(64 + j, 64 + SubIndex(v), w, v);
    }
  }

  lemma WithinOctave(v: nat, w: nat, j: nat)
    requires j < 64 && (64 + j) * w <= v < (64 + j) * w + w
    ensures 64 * w <= v < 2 * (64 * w)
  {
    MonotoneProduct(w, 64, 64 + j);
    MonotoneProduct(w, 64 + j + 1, 128);
  }

  // ---- Bucketing is accurate ----------------------------------------------

  /** A bucket's lower bound is exact below 8192 and never more than 1/64 short above. */
  lemma RelativeError(v: nat)
    requires v < NANOS_SPAN
    ensures LowerBound(BucketIndex(v)) <= v
    ensures v < LINEAR_RANGE ==> LowerBound(BucketIndex(v)) == v
    ensures v >= LINEAR_RANGE ==> SUB_BUCKETS * (v - LowerBound(BucketIndex(v))) < v
  {
    if v >= LINEAR_RANGE {
      LogBucket(v);
      SubIndexForm(v);
    }
  }

  /** The lower bound is an exact right inverse on every bucket. */
  lemma LowerBoundInverse(idx: nat)
    requires idx < NUM_BUCKETS
    ensures LowerBound(idx) < NANOS_SPAN && BucketIndex(LowerBound(idx)) == idx
  {
    if idx >= LINEAR_RANGE {
      var octave, j := (idx - LINEAR_RANGE) / SUB_BUCKETS, (idx - LINEAR_RANGE) % SUB_BUCKETS;
      var m := LINEAR_BITS + octave;
      var w := Pow2(m - 6);
      var v := LowerBound(idx);
      assert idx == LINEAR_RANGE + octave * SUB_BUCKETS + j;
      LowerBoundForm(octave, j);
      OctaveWidth(m);
      assert v == SUB_BUCKETS * w + j * w;
      SmallProduct(j, w);
      OctaveFits(m);
      MsbUnique(v, m);
      var n := LINEAR_BITS;
      LinearIsPow2(n);
      Pow2Monotone(n, m);
      MsbHigh(v);
      DivideExact(w, j, 0);
      assert v - Pow2(m) == w * j + 0;
    }
  }

  lemma SmallProduct(j: nat, w: nat)
    requires j < SUB_BUCKETS && w > 0
    ensures 0 <= j * w < SUB_BUCKETS * w
  {
  }

  lemma OctaveFits(m: nat)
    requires m < LINEAR_BITS + MAX_OCTAVES
    ensures 2 * Pow2(m) <= NANOS_SPAN
  {
    var n := 63;
    Pow2Monotone(m + 1, n);
    SpanIsPow2(n);
  }

  lemma SpanIsPow2(n: nat)
    requires n == 63
    ensures Pow2(n) == NANOS_SPAN
  {
    WordSpan();
    var k := 64;
    assert Pow2(k) == 2 * Pow2(k - 1);
  }

  /** Larger samples never fall in smaller buckets. */
  lemma BucketMonotone(a: nat, b: nat)
    requires a <= b < NANOS_SPAN
    ensures BucketIndex(a) <= BucketIndex(b)
  {
    if b >= LINEAR_RANGE {
      LogBucket(b);
      if a >= LINEAR_RANGE {
        LogBucket(a);
        MsbMonotone(a, b);
        SubIndexForm(a);
        SubIndexForm(b);
        var w := Width(b);
        if Msb(a) == Msb(b) {
          QuotientMonotone(a - SUB_BUCKETS * w, b - SUB_BUCKETS * w, w);
        } else {
          assert (Msb(a) - LINEAR_BITS) * SUB_BUCKETS + SUB_BUCKETS <= (Msb(b) - LINEAR_BITS) * SUB_BUCKETS;
        }
      }
    }
  }

  lemma MsbMonotone(a: nat, b: nat)
    requires 0 < a <= b < NANOS_SPAN
    ensures Msb(a) <= Msb(b)
  {
    assert Pow2(Msb(b) + 1) == 2 * Pow2(Msb(b));
    if Msb(b) < Msb(a) {
      Pow2Monotone(Msb(b) + 1, Msb(a));
    }
  }

  lemma QuotientMonotone(x: nat, y: nat, w: nat)
    requires w > 0 && x <= y
    ensures x / w <= y / w
  {
    assert x == w * (x / w) + x % w && y == w * (y / w) + y % w;
    if x / w > y / w {
      MultiplyStep(w, y / w, x / w);
    }
  }

  /** Samples below 2^53 ns are never clamped into the last bucket. */
  lemma NoClamp(v: nat)
    requires v < CLAMP_FROM
    ensures v < NANOS_SPAN && BucketIndex(v) < NUM_BUCKETS
  {
    if v >= LINEAR_RANGE {
      LogBucket(v);
      if Msb(v) >= LINEAR_BITS + MAX_OCTAVES {
        var n := LINEAR_BITS + MAX_OCTAVES;
        Pow2Monotone(n, Msb(v));
        ClampIsPow2(n);
      }
    }
  }

  lemma ClampIsPow2(n: nat)
    requires n == 53
    ensures Pow2(n) == CLAMP_FROM
  {
    var k := 10;
    var span := 63;
    SpanIsPow2(span);
    Pow2Add(n, k);
    assert Pow2(k) == 1024;
  }

  // ---- Samples and ranks --------------------------------------------------

  /** A recorded sample: non-negative and within `std::int64_t`. */
  type Nanos = x: nat | x < NANOS_SPAN

  /** The bucket a sample is counted in. */
  function Bucket(v: Nanos): nat {
    if BucketIndex(v) < NUM_BUCKETS then BucketIndex(v) else NUM_BUCKETS - 1
  }

  function InBucket(samples: seq<Nanos>, i: nat): nat {
    if samples == [] then 0 else (if Bucket(samples[0]) == i then 1 else 0) + InBucket(samples[1..], i)
  }

  /** How many samples are counted in buckets `0..i`. */
  function UpTo(samples: seq<Nanos>, i: int): nat {
    if samples == [] then 0 else (if Bucket(samples[0]) <= i then 1 else 0) + UpTo(samples[1..], i)
  }

  function SortedInsert(sorted: seq<Nanos>, v: Nanos): seq<Nanos> {
    if sorted == [] || v <= sorted[0] then [v] + sorted else [sorted[0]] + SortedInsert(sorted[1..], v)
  }

  /** The samples in ascending order: entry `r - 1` is the r-th smallest. */
  function Sort(samples: seq<Nanos>): seq<Nanos> {
    if samples == [] then [] else SortedInsert(Sort(samples[1..]), samples[0])
  }

  predicate Ascending(s: seq<Nanos>) {
    forall j, k :: 0 <= j < k < |s| ==> s[j] <= s[k]
  }

  lemma {:induction false} SortedInsertContents(sorted: seq<Nanos>, v: Nanos)
    ensures multiset(SortedInsert(sorted, v)) == multiset(sorted) + multiset{v}
    ensures |SortedInsert(sorted, v)| == |sorted| + 1
  {
    if !(sorted == [] || v <= sorted[0]) {
      SortedInsertContents(sorted[1..], v);
      assert sorted == [sorted[0]] + sorted[1..];
    }
  }

  lemma {:induction false} SortedInsertAbove(sorted: seq<Nanos>, v: Nanos, bound: nat)
    requires bound <= v && forall k :: 0 <= k < |sorted| ==> bound <= sorted[k]
    ensures forall k :: 0 <= k < |SortedInsert(sorted, v)| ==> bound <= SortedInsert(sorted, v)[k]
  {
    if !(sorted == [] || v <= sorted[0]) {
      SortedInsertAbove(sorted[1..], v, bound);
    }
  }

  lemma {:induction false} SortedInsertAscends(sorted: seq<Nanos>, v: Nanos)
    requires Ascending(sorted)
    ensures Ascending(SortedInsert(sorted, v))
  {
    if !(sorted == [] || v <= sorted[0]) {
      AscendingTail(sorted);
      SortedInsertAscends(sorted[1..], v);
      SortedInsertAbove(sorted[1..], v, sorted[0]);
    }
  }

  /** `Sort` is a sorting function. */
  lemma {:induction false} SortMeaning(samples: seq<Nanos>)
    ensures Ascending(Sort(samples)) && |Sort(samples)| == |samples|
    ensures multiset(Sort(samples)) == multiset(samples)
  {
    if samples != [] {
      SortMeaning(samples[1..]);
      SortedInsertContents(Sort(samples[1..]), samples[0]);
      SortedInsertAscends(Sort(samples[1..]), samples[0]);
      assert samples == [samples[0]] + samples[1..];
    }
  }

  lemma {:induction false} UpToInsert(sorted: seq<Nanos>, v: Nanos, i: int)
    ensures UpTo(SortedInsert(sorted, v), i) == UpTo(sorted, i) + (if Bucket(v) <= i then 1 else 0)
  {
    if !(sorted == [] || v <= sorted[0]) {
      UpToInsert(sorted[1..], v, i);
    }
  }

  /** Sorting does not change how many samples are in the first buckets. */
  lemma {:induction false} UpToSort(samples: seq<Nanos>, i: int)
    ensures UpTo(Sort(samples), i) == UpTo(samples, i)
  {
    if samples != [] {
      UpToSort(samples[1..], i);
      UpToInsert(Sort(samples[1..]), samples[0], i);
    }
  }

  lemma ClampedMonotone(a: Nanos, b: Nanos)
    requires a <= b
    ensures Bucket(a) <= Bucket(b)
  {
    BucketMonotone(a, b);
  }

  lemma AscendingTail(s: seq<Nanos>)
    requires Ascending(s) && s != []
    ensures Ascending(s[1..])
  {
    assert forall k :: 0 <= k < |s| - 1 ==> s[1..][k] == s[k + 1];
  }

  lemma {:induction false} NoneUpTo(s: seq<Nanos>, i: int)
    requires Ascending(s) && s != [] && Bucket(s[0]) > i
    ensures UpTo(s, i) == 0
  {
    if |s| > 1 {
      AscendingTail(s);
      ClampedMonotone(s[0], s[1]);
      NoneUpTo(s[1..], i);
    }
  }

  /** In a sorted list the first buckets hold a prefix. */
  lemma {:induction false} UpToPrefix(s: seq<Nanos>, i: int, r: nat)
    requires Ascending(s) && 1 <= r <= |s|
    ensures r <= UpTo(s, i) <==> Bucket(s[r - 1]) <= i
  {
    if Bucket(s[0]) > i {
      NoneUpTo(s, i);
      ClampedMonotone(s[0], s[r - 1]);
    } else if r > 1 {
      AscendingTail(s);
      UpToPrefix(s[1..], i, r - 1);
    }
  }

  /** The scan's stopping test, in terms of the r-th smallest sample. */
  lemma RankTest(samples: seq<Nanos>, i: int, r: nat)
    requires 1 <= r <= |samples|
    ensures |Sort(samples)| == |samples|
    ensures r <= UpTo(samples, i) <==> Bucket(Sort(samples)[r - 1]) <= i
  {
    SortMeaning(samples);
    UpToSort(samples, i);
    UpToPrefix(Sort(samples), i, r);
  }

  lemma {:induction false} UpToStep(samples: seq<Nanos>, i: nat)
    ensures UpTo(samples, i) == UpTo(samples, i - 1) + InBucket(samples, i)
  {
    if samples != [] {
      UpToStep(samples[1..], i);
    }
  }

  lemma {:induction false} UpToBounds(samples: seq<Nanos>, i: int)
    ensures UpTo(samples, i) <= |samples|
    ensures i < 0 ==> UpTo(samples, i) == 0
    ensures i >= NUM_BUCKETS - 1 ==> UpTo(samples, i) == |samples|
  {
    if samples != [] {
      UpToBounds(samples[1..], i);
    }
  }

  lemma {:induction false} InBucketAppend(samples: seq<Nanos>, v: Nanos, i: nat)
    ensures InBucket(samples + [v], i) == InBucket(samples, i) + (if Bucket(v) == i then 1 else 0)
  {
    if samples == [] {
      assert samples + [v] == [v];
    } else {
      InBucketAppend(samples[1..], v, i);
      assert (samples + [v])[1..] == samples[1..] + [v];
    }
  }

  function Total(samples: seq<Nanos>): nat {
    if samples == [] then 0 else samples[|samples| - 1] + Total(samples[..|samples| - 1])
  }

  /** Samples add up one by one and group by group. */
  lemma {:induction false} TotalMeaning(a: seq<Nanos>, b: seq<Nanos>, v: Nanos)
    ensures Total([v]) == v
    ensures Total(a + b) == Total(a) + Total(b)
    decreases |b|
  {
    assert [v][..0] == [];
    if b == [] {
      assert a + b == a;
    } else {
      TotalMeaning(a, b[..|b| - 1], v);
      assert (a + b)[..|a + b| - 1] == a + b[..|b| - 1];
    }
  }

  function Smallest(samples: seq<Nanos>): nat
    requires samples != []
  {
    if |samples| == 1 then samples[0] else Min(Smallest(samples[..|samples| - 1]), samples[|samples| - 1])
  }

  function Largest(samples: seq<Nanos>): nat {
    if samples == [] then 0
    else
      var rest := Largest(samples[..|samples| - 1]);
      if rest >= samples[|samples| - 1] then rest else samples[|samples| - 1]
  }

  /** What a rank reads as: the lower bound of the bucket of the rank-th smallest sample, the
      first bucket for a rank that rounded down to zero, and the maximum past the end. */
  function Reported(samples: seq<Nanos>, rank: nat): nat
    requires samples != []
  {
    if rank == 0 then 0
    else if rank > |samples| then Largest(samples)
    else
      SortMeaning(samples);
      LowerBound(Bucket(Sort(samples)[rank - 1]))
  }

  class LatencyHistogram {
    const counts: array<nat>
    var count: nat
    var sum: int
    var min: int
    var max: int
    ghost var samples: seq<Nanos>  // everything recorded, oldest first

    ghost predicate Valid()
      reads this, counts
    {
      && counts.Length == NUM_BUCKETS
      && (forall i :: 0 <= i < NUM_BUCKETS ==> counts[i] == InBucket(samples, i))
      && count == |samples|
      && sum == Total(samples)
      && max == Largest(samples)
      && (samples != [] ==> min == Smallest(samples))
    }

    constructor ()
      ensures Valid() && samples == [] && fresh(counts)
    {
      counts := new nat[NUM_BUCKETS](_ => 0);
      count, sum, min, max := 0, 0, 0, 0;
      samples := [];
    }

    /** `LatencyHistogram::record`: a negative reading counts as zero. */
    method Record(nanos: int)
      requires Valid() && nanos < NANOS_SPAN
      modifies this, counts
      ensures Valid()
      ensures samples == old(samples) + [if nanos < 0 then 0 else nanos]
    {
      var v: Nanos := if nanos < 0 then 0 else nanos;
      var idx := BucketIndex(v);
      if idx > NUM_BUCKETS - 1 {
        idx := NUM_BUCKETS - 1;
      }
      forall i | 0 <= i < NUM_BUCKETS
        ensures InBucket(samples + [v], i) == InBucket(samples, i) + (if i == idx then 1 else 0)
      {
        InBucketAppend(samples, v, i);
      }
      counts[idx] := counts[idx] + 1;
      min := if count == 0 then v else Min(min, v);
      max := if max >= v then max else v;
      sum := sum + v;
      count := count + 1;
      assert (samples + [v])[..|samples|] == samples;
      samples := samples + [v];
    }

    /** `LatencyHistogram::percentile`, with the rank already computed from `p`: the exact
        extremes, and in between what the rank reads as. */
    method Percentile(p: real, rank: nat) returns (value: int)
      requires Valid()
      ensures samples == [] ==> value == 0
      ensures samples != [] && p <= 0.0 ==> value == Smallest(samples)
      ensures samples != [] && p >= 100.0 ==> value == Largest(samples)
      ensures samples != [] && 0.0 < p < 100.0 ==> value == Reported(samples, rank)
      ensures (samples != [] && 0.0 < p < 100.0 ==> rank == RankOf(p, |samples|)) ==> value == PercentileOf(samples, p)
    {
      if count == 0 {
        return 0;
      }
      if p <= 0.0 {
        return min;
      }
      if p >= 100.0 {
        return max;
      }
      var cumulative := 0;
      UpToBounds(samples, -1);
      UpToBounds(samples, NUM_BUCKETS - 1);
      for i := 0 to NUM_BUCKETS
        invariant cumulative == UpTo(samples, i - 1)
        invariant i > 0 ==> cumulative < rank
      {
        UpToStep(samples, i);
        UpToBounds(samples, i);
        cumulative := cumulative + counts[i];
        if cumulative >= rank {
          if rank > 0 {
            RankTest(samples, i, rank);
            RankTest(samples, i - 1, rank);
          }
          return LowerBound(i);
        }
      }
      return max;
    }
  }

  /** A reported percentile is the rank-th smallest sample exactly below 8192 ns, and at most
      1/64 short of it below 2^53 ns. */
  lemma PercentileAccuracy(samples: seq<Nanos>, rank: nat)
    requires 1 <= rank <= |samples|
    ensures |Sort(samples)| == |samples|
    ensures var x := Sort(samples)[rank - 1];
            var reported := LowerBound(Bucket(x));
            && (x < LINEAR_RANGE ==> reported == x)
            && (x < CLAMP_FROM ==> reported <= x && SUB_BUCKETS * (x - reported) <= x)
  {
    SortMeaning(samples);
    var x := Sort(samples)[rank - 1];
    RelativeError(x);
    if x < CLAMP_FROM {
      NoClamp(x);
    }
  }

  // ---- The exact minimum against the first bucket -------------------------

  /** The smallest sample heads the sorted list. */
  lemma {:induction false} SmallestFirst(samples: seq<Nanos>)
    requires samples != []
    ensures |Sort(samples)| == |samples| && Smallest(samples) == Sort(samples)[0]
  {
    SortMeaning(samples);
    SmallestMeaning(samples);
    var s := Sort(samples);
    assert s[0] in multiset(s) && s[0] in multiset(samples);
    assert Smallest(samples) in multiset(samples) && Smallest(samples) in multiset(s);
    assert s[0] in samples && Smallest(samples) in s;
    var k :| 0 <= k < |s| && s[k] == Smallest(samples);
    assert s[0] <= s[k];
  }

  lemma {:induction false} SmallestMeaning(samples: seq<Nanos>)
    requires samples != []
    ensures Smallest(samples) in samples
    ensures forall v :: v in samples ==> Smallest(samples) <= v
  {
    if |samples| > 1 {
      var init := samples[..|samples| - 1];
      SmallestMeaning(init);
      assert samples == init + [samples[|samples| - 1]];
    }
  }

  /** From 2^53 ns on every sample is clamped into the last bucket, strictly above its lower
      bound. */
  lemma Clamped(v: Nanos)
    requires v >= 0x20_0000_0000_0000
    ensures Bucket(v) == NUM_BUCKETS - 1 == 10751 && LowerBound(Bucket(v)) < v
  {
    var n := LINEAR_BITS + MAX_OCTAVES;
    ClampIsPow2(n);
    LogBucket(v);
    assert Pow2(Msb(v) + 1) == 2 * Pow2(Msb(v));
    if Msb(v) < n {
      Pow2Monotone(Msb(v) + 1, n);
    }
    LowerBoundForm(39, 63);
    LastBound(n);
  }

  lemma LastBound(n: nat)
    requires n == 53
    ensures 127 * Pow2(n - 7) < Pow2(n)
  {
    var k := 7;
    Pow2Add(k, n - k);
    assert Pow2(k) == 128;
  }

  /** The zeroth percentile is the exact minimum, which a rank-1 percentile does not exceed;
      the two agree if and only if the minimum is below 8192, or is not clamped and sits on its
      bucket's boundary. */
  lemma MinimumAgrees(samples: seq<Nanos>)
    requires samples != []
    ensures |Sort(samples)| == |samples|
    ensures var low, first := Smallest(samples), LowerBound(Bucket(Sort(samples)[0]));
            && first <= low
            && (first == low <==> low < LINEAR_RANGE || (low < CLAMP_FROM && low % Width(low) == 0))
  {
    SmallestFirst(samples);
    var low: Nanos := Sort(samples)[0];
    RelativeError(low);
    if low >= CLAMP_FROM {
      Clamped(low);
    } else {
      NoClamp(low);
      if low >= LINEAR_RANGE {
        LogBucket(low);
        SubIndexForm(low);
        OnBoundary(low, Width(low), SUB_BUCKETS + SubIndex(low));
      }
    }
  }

  /** A sample in a lower bucket is at most the lower bound of the next. */
  lemma BucketsApart(a: Nanos, b: Nanos)
    requires Bucket(a) < Bucket(b)
    ensures a <= LowerBound(Bucket(b))
  {
    var bound := LowerBound(Bucket(b));
    LowerBoundInverse(Bucket(b));
    if bound < a {
      BucketMonotone(bound, a);
    }
  }

  lemma BoundBelow(v: Nanos)
    ensures LowerBound(Bucket(v)) <= v
  {
    RelativeError(v);
    if v >= CLAMP_FROM {
      Clamped(v);
    } else {
      NoClamp(v);
    }
  }

  /** For rank zero the minimum is zero; for a rank that has a sample, that sample is in a later
      bucket than the minimum, or the minimum sits on its own bucket's lower bound. */
  predicate MinimumHolds(samples: seq<Nanos>, rank: nat)
    requires samples != []
  {
    var low := Smallest(samples);
    if rank == 0 then low == 0
    else if rank > |samples| then true
    else
      SmallestFirst(samples);
      || Bucket(low) < Bucket(Sort(samples)[rank - 1])
      || low < LINEAR_RANGE
      || (low < CLAMP_FROM && low % Width(low) == 0)
  }

  /** The exact minimum does not exceed what a rank reads as if and only if `MinimumHolds`, for
      every rank. */
  lemma MinimumAgainstRank(samples: seq<Nanos>, rank: nat)
    requires samples != []
    ensures Smallest(samples) <= Reported(samples, rank) <==> MinimumHolds(samples, rank)
  {
    SmallestFirst(samples);
    SortMeaning(samples);
    if rank > |samples| {
      LargestMeaning(samples);
      SmallestMeaning(samples);
    } else if rank > 0 {
      var low, x := Sort(samples)[0], Sort(samples)[rank - 1];
      ClampedMonotone(low, x);
      if Bucket(low) < Bucket(x) {
        BucketsApart(low, x);
      } else {
        MinimumAgrees(samples);
      }
    }
  }

  lemma {:induction false} LargestMeaning(samples: seq<Nanos>)
    ensures forall v :: v in samples ==> v <= Largest(samples)
    ensures samples != [] ==> Largest(samples) in samples
  {
    if samples != [] {
      var init := samples[..|samples| - 1];
      LargestMeaning(init);
      assert samples == init + [samples[|samples| - 1]];
    }
  }

  lemma BoundsMonotone(i: nat, j: nat)
    requires i <= j < NUM_BUCKETS
    ensures LowerBound(i) <= LowerBound(j)
  {
    LowerBoundInverse(i);
    LowerBoundInverse(j);
    if LowerBound(j) < LowerBound(i) {
      BucketMonotone(LowerBound(j), LowerBound(i));
    }
  }

  /** A higher rank never reads lower. */
  lemma ReportedMonotone(samples: seq<Nanos>, r: nat, s: nat)
    requires samples != [] && r <= s
    ensures Reported(samples, r) <= Reported(samples, s)
  {
    SortMeaning(samples);
    if 0 < r <= |samples| {
      var x := Sort(samples)[r - 1];
      if s <= |samples| {
        ClampedMonotone(x, Sort(samples)[s - 1]);
        BoundsMonotone(Bucket(x), Bucket(Sort(samples)[s - 1]));
      } else {
        ReportedBelowLargest(samples, r);
      }
    }
  }

  lemma ReportedBelowLargest(samples: seq<Nanos>, r: nat)
    requires samples != []
    ensures Reported(samples, r) <= Largest(samples)
  {
    SortMeaning(samples);
    if 0 < r <= |samples| {
      var x := Sort(samples)[r - 1];
      assert x in multiset(Sort(samples)) && x in multiset(samples);
      assert x in samples;
      LargestMeaning(samples);
      BoundBelow(x);
    }
  }

  // ---- Ranks of percentiles -----------------------------------------------

  const EPSILON: real := 0.000000001

  function Ceiling(x: real): int {
    -(-x).Floor
  }

  /** The rank `percentile` computes from `p`, over exact reals: the least whole number not below
      the share of the samples less the epsilon.  It never passes the count, and is zero exactly
      for percentiles within the epsilon of zero. */
  function RankOf(p: real, count: nat): (rank: nat)
    requires 0.0 < p < 100.0 && count > 0
    ensures rank as real - 1.0 < p / 100.0 * count as real - 0.000000001 <= rank as real
    ensures rank <= count
    ensures rank == 0 <==> p / 100.0 * count as real <= EPSILON
  {
    Share(p, count);
    Ceiling(p / 100.0 * count as real - EPSILON)
  }

  lemma Share(p: real, count: nat)
    requires 0.0 < p < 100.0 && count > 0
    ensures 0.0 < p / 100.0 * count as real < count as real
  {
    var f := p / 100.0;
    assert 0.0 < f < 1.0;
    assert f * count as real + (1.0 - f) * count as real == count as real;
  }

  lemma RankMonotone(p: real, q: real, count: nat)
    requires 0.0 < p <= q < 100.0 && count > 0
    ensures RankOf(p, count) <= RankOf(q, count)
  {
    var f, g := p / 100.0, q / 100.0;
    assert f <= g;
    ScaleMonotone(f, g, count as real);
    CeilingMonotone(f * count as real - EPSILON, g * count as real - EPSILON);
  }

  lemma ScaleMonotone(f: real, g: real, c: real)
    requires f <= g && c >= 0.0
    ensures f * c <= g * c
  {
  }

  lemma CeilingMonotone(x: real, y: real)
    requires x <= y
    ensures Ceiling(x) <= Ceiling(y)
  {
  }

  /** What `percentile(p)` reads. */
  function PercentileOf(samples: seq<Nanos>, p: real): nat {
    if samples == [] then 0
    else if p <= 0.0 then Smallest(samples)
    else if p >= 100.0 then Largest(samples)
    else Reported(samples, RankOf(p, |samples|))
  }

  /** Percentiles rise with `p` over the whole line, except from the exact minimum into the
      buckets: there they do if and only if `MinimumHolds` of the rank reached. */
  lemma PercentilesOrdered(samples: seq<Nanos>, p: real, q: real)
    requires p <= q
    ensures PercentileOf(samples, p) <= PercentileOf(samples, q) <==>
            (samples != [] && p <= 0.0 < q < 100.0 ==> MinimumHolds(samples, RankOf(q, |samples|)))
  {
    if samples != [] {
      if p <= 0.0 {
        if q >= 100.0 {
          LargestMeaning(samples);
          SmallestMeaning(samples);
        } else if 0.0 < q {
          MinimumAgainstRank(samples, RankOf(q, |samples|));
        }
      } else if q < 100.0 {
        RankMonotone(p, q, |samples|);
        ReportedMonotone(samples, RankOf(p, |samples|), RankOf(q, |samples|));
      } else if p < 100.0 {
        ReportedBelowLargest(samples, RankOf(p, |samples|));
      }
    }
  }

  /** One sample of 500 ns reads as 0 at a hundred-millionth of a percent. */
  lemma MinimumExceedsRankZero()
    ensures PercentileOf([500], 0.0) == 500 && PercentileOf([500], 0.00000001) == 0
  {
  }

  lemma OnBoundary(v: nat, w: nat, n: nat)
    requires w > 0 && n * w <= v < n * w + w
    ensures n * w == v <==> v % w == 0
  {
    DivideExact(w, n, v - n * w);
    assert v == w * n + (v - n * w);
  }

  /** One sample of 10001 ns reads as 9984 at every rank, below the reported minimum. */
  lemma MinimumExceedsPercentile()
    ensures Smallest([10001]) == 10001 && LowerBound(Bucket(Sort([10001])[0])) == 9984
  {
    var n := LINEAR_BITS;
    LinearIsPow2(n);
    MsbUnique(10001, n);
    OctaveWidth(n);
    assert Sort([10001]) == [10001];
    assert BucketIndex(10001) == 8206;
    LowerBoundForm(0, 14);
  }
}
