/** Brightness statistics of a raw plane (crates/autopiercam-core/src/image.rs): a histogram of
    every stride-th sample, and percentiles read off it. Fractions are exact. */
module ImageStats {

  import opened ImageBuffers
  import opened Arithmetic

  datatype LumaStats = LumaStats(mean: real, p50: nat, p90: nat, clippedFraction: real)

  // ---------------------------------------------------------------- samples

  function Stride(requested: nat): nat {
    if requested == 0 then 1 else requested
  }

  /** The first value and every `stride`-th one after it. */
  function Strided(values: seq<byte>, stride: nat): (samples: seq<byte>)
    requires stride > 0
  {
    if values == [] then []
    else if |values| <= stride then [values[0]]
    else [values[0]] + Strided(values[stride..], stride)
  }

  /** The samples are exactly the values at the multiples of the stride. */
  lemma {:induction false} StridedAt(values: seq<byte>, stride: nat, k: nat)
    requires stride > 0
    ensures k < |Strided(values, stride)| <==> stride * k < |values|
    ensures k < |Strided(values, stride)| ==> Strided(values, stride)[k] == values[stride * k]
  {
    if k > 0 {
      assert stride * k == stride + stride * (k - 1);
      if |values| > stride {
        StridedAt(values[stride..], stride, k - 1);
      }
    }
  }

  function Total(samples: seq<byte>): nat {
    if samples == [] then 0 else Total(samples[..|samples| - 1]) + samples[|samples| - 1]
  }

  function Histogram(samples: seq<byte>): (histogram: seq<nat>)
    ensures |histogram| == 256
  {
    seq<nat>(256, (v: nat) => multiset(samples)[v])
  }

  /** How many samples the first `n` entries of a histogram stand for. */
  function Cumulative(histogram: seq<nat>, n: nat): nat
    requires n <= |histogram|
  {
    if n == 0 then 0 else Cumulative(histogram, n - 1) + histogram[n - 1]
  }

  // ---------------------------------------------------------------- percentiles

  /** The least integer not below `x`. */
  function Ceil(x: real): (c: int)
    ensures x <= c as real < x + 1.0
  {
    if x == x.Floor as real then x.Floor else x.Floor + 1
  }

  function Target(count: nat, fraction: real): nat {
    var wanted := Ceil(count as real * fraction);
    if wanted < 1 then 1 else wanted
  }

  /** The first value from `v` on at which the histogram has reached `target` samples, or 255. */
  function Reaching(histogram: seq<nat>, target: nat, v: nat): (value: nat)
    requires |histogram| == 256 && v < 256
    ensures v <= value < 256
    ensures forall k | v < k <= value :: Cumulative(histogram, k) < target
    ensures value < 255 ==> Cumulative(histogram, value + 1) >= target
    decreases 256 - v
  {
    if v == 255 || Cumulative(histogram, v + 1) >= target then v else Reaching(histogram, target, v + 1)
  }

  function Percentile(samples: seq<byte>, fraction: real): nat {
    Reaching(Histogram(samples), Target(|samples|, fraction), 0)
  }

  /** How many samples are smaller than `n`. */
  function CountBelow(samples: seq<byte>, n: nat): (count: nat)
    ensures count <= |samples|
  {
    if samples == [] then 0
    else CountBelow(samples[..|samples| - 1], n) + (if samples[|samples| - 1] < n then 1 else 0)
  }

  function Stats(samples: seq<byte>): Result<LumaStats> {
    if samples == [] then Err(EmptyImage)
    else
      var count := |samples| as real;
      Ok(LumaStats(Total(samples) as real / count, Percentile(samples, 0.5), Percentile(samples, 0.9),
                   (|samples| - CountBelow(samples, 250)) as real / count))
  }

  // ---------------------------------------------------------------- what a percentile is

  ghost predicate Sorted(s: seq<byte>) {
    forall i, j :: 0 <= i < j < |s| ==> s[i] <= s[j]
  }

  lemma {:induction false} BelowStep(samples: seq<byte>, n: nat)
    ensures CountBelow(samples, n + 1) == CountBelow(samples, n) + (if n < 256 then multiset(samples)[n] else 0)
  {
    if samples != [] {
      var last := |samples| - 1;
      assert samples == samples[..last] + [samples[last]];
      BelowStep(samples[..last], n);
    }
  }

  lemma {:induction false} NothingBelowZero(samples: seq<byte>)
    ensures CountBelow(samples, 0) == 0 && CountBelow(samples, 256) == |samples|
  {
    if samples != [] {
      NothingBelowZero(samples[..|samples| - 1]);
    }
  }

  lemma {:induction false} CumulativeCounts(samples: seq<byte>, n: nat)
    requires n <= 256
    ensures Cumulative(Histogram(samples), n) == CountBelow(samples, n)
  {
    if n == 0 {
      NothingBelowZero(samples);
    } else {
      CumulativeCounts(samples, n - 1);
      BelowStep(samples, n - 1);
    }
  }

  /** In sorted order the samples below `n` come first. */
  lemma {:induction false} SortedRank(t: seq<byte>, n: nat, k: nat)
    requires Sorted(t) && k < |t|
    ensures t[k] < n <==> k < CountBelow(t, n)
  {
    var last := |t| - 1;
    if k < last {
      SortedRank(t[..last], n, k);
    } else if last > 0 {
      SortedRank(t[..last], n, last - 1);
    }
  }

  /** For every order of the samples that is sorted, a percentile is the sample whose rank is the
      fraction of their number rounded up, and at least one. */
  lemma PercentileIsOrderStatistic(samples: seq<byte>, fraction: real, t: seq<byte>)
    requires samples != [] && fraction <= 1.0
    requires Sorted(t) && multiset(t) == multiset(samples)
    ensures |t| == |samples| && 1 <= Target(|samples|, fraction) <= |t|
    ensures Percentile(samples, fraction) == t[Target(|samples|, fraction) - 1]
  {
    assert |t| == |multiset(t)| && |samples| == |multiset(samples)|;
    TargetInRange(|samples|, fraction);
    var target, value := Target(|samples|, fraction), Percentile(samples, fraction);
    assert Histogram(t) == Histogram(samples);
    CumulativeCounts(t, value);
    SortedRank(t, value, target - 1);
    CumulativeCounts(t, value + 1);
    SortedRank(t, value + 1, target - 1);
    if value == 0 {
      NothingBelowZero(t);
    }
  }

  function Bright(samples: seq<byte>): set<int> {
    set i | 0 <= i < |samples| && samples[i] >= 250
  }

  lemma {:induction false} BrightCounted(samples: seq<byte>)
    ensures |samples| - CountBelow(samples, 250) == |Bright(samples)|
  {
    if samples == [] {
      assert Bright(samples) == {};
    } else {
      var n := |samples| - 1;
      BrightCounted(samples[..n]);
      OneMoreBright(samples);
    }
  }

  lemma OneMoreBright(samples: seq<byte>)
    requires samples != []
    ensures var n := |samples| - 1;
            |Bright(samples)| == |Bright(samples[..n])| + if samples[n] >= 250 then 1 else 0
  {
    var n := |samples| - 1;
    assert Bright(samples) == Bright(samples[..n]) + if samples[n] >= 250 then {n} else {};
  }

  /** The statistics of samples whose order `t` is sorted: their mean, the samples of rank one half and
      nine tenths of their number, rounded up, and the share of samples of 250 and more. */
  lemma StatsMeaning(samples: seq<byte>, t: seq<byte>)
    requires samples != [] && Sorted(t) && multiset(t) == multiset(samples)
    ensures Stats(samples).Ok? && |t| == |samples|
    ensures var r, n := Stats(samples).value, |samples|;
            && r.mean * n as real == Total(samples) as real
            && r.p50 == t[(n + 1) / 2 - 1] && r.p90 == t[(9 * n + 9) / 10 - 1]
            && r.clippedFraction * n as real == |Bright(samples)| as real
  {
    hide Percentile, Target, Total, CountBelow, Bright, Sorted;
    PercentileIsOrderStatistic(samples, 0.5, t);
    PercentileIsOrderStatistic(samples, 0.9, t);
    HalfRank(|samples|);
    NineTenthsRank(|samples|);
    BrightCounted(samples);
    ShareTimes(Total(samples), |samples|);
    ShareTimes(|samples| - CountBelow(samples, 250), |samples|);
  }

  lemma ShareTimes(part: nat, n: nat)
    requires n > 0
    ensures part as real / n as real * n as real == part as real
  {
  }

  lemma HalfRank(n: nat)
    requires n > 0
    ensures Target(n, 0.5) == (n + 1) / 2
  {
    var r := (n + 1) / 2;
    assert n == 2 * r || n == 2 * r - 1;
    RankOf(n, 0.5, r);
  }

  lemma NineTenthsRank(n: nat)
    requires n > 0
    ensures Target(n, 0.9) == (9 * n + 9) / 10
  {
    var r := (9 * n + 9) / 10;
    assert 10 * r - 10 < 9 * n <= 10 * r;
    RankOf(n, 0.9, r);
  }

  lemma RankOf(count: nat, fraction: real, rank: nat)
    requires rank >= 1 && rank as real - 1.0 < count as real * fraction <= rank as real
    ensures Target(count, fraction) == rank
  {
    var c := Ceil(count as real * fraction);
    assert c as real - 1.0 < count as real * fraction <= c as real;
    assert -1 < c - rank < 1;
  }

  lemma TargetInRange(count: nat, fraction: real)
    requires count > 0 && fraction <= 1.0
    ensures 1 <= Target(count, fraction) <= count
  {
    Scale(count as real, fraction, 1.0);
  }

  lemma TargetGrows(count: nat, low: real, high: real)
    requires low <= high
    ensures Target(count, low) <= Target(count, high)
  {
    Scale(count as real, low, high);
    CeilGrows(count as real * low, count as real * high);
  }

  lemma CeilGrows(x: real, y: real)
    requires x <= y
    ensures Ceil(x) <= Ceil(y)
  {
    assert Ceil(x) as real < (Ceil(y) + 1) as real;
  }

  lemma PercentilesOrdered(samples: seq<byte>, low: real, high: real)
    requires low <= high
    ensures Percentile(samples, low) <= Percentile(samples, high)
  {
    TargetGrows(|samples|, low, high);
    var lower, upper := Percentile(samples, low), Percentile(samples, high);
    if upper < lower {
      assert Cumulative(Histogram(samples), upper + 1) < Target(|samples|, low);
    }
  }

  // ---------------------------------------------------------------- the loops

  lemma TakeOne(taken: seq<byte>, value: byte)
    ensures Total(taken + [value]) == Total(taken) + value
    ensures multiset(taken + [value]) == multiset(taken) + multiset{value}
  {
    assert (taken + [value])[..|taken|] == taken;
  }

  /** What remains of `Strided(values, stride)` from place `i` on. */
  ghost function Remaining(values: seq<byte>, stride: nat, i: nat): seq<byte>
    requires stride > 0
  {
    if i < |values| then Strided(values[i..], stride) else []
  }

  /** `taken` are the samples found before place `i`. */
  ghost predicate Progress(values: seq<byte>, stride: nat, taken: seq<byte>, i: nat)
    requires stride > 0
  {
    taken + Remaining(values, stride, i) == Strided(values, stride)
  }

  lemma ProgressStarts(values: seq<byte>, stride: nat)
    requires stride > 0
    ensures Progress(values, stride, [], 0)
  {
    assert values[0..] == values;
  }

  lemma RemainingStep(values: seq<byte>, stride: nat, i: nat)
    requires stride > 0 && i < |values|
    ensures Remaining(values, stride, i) == [values[i]] + Remaining(values, stride, i + stride)
  {
    var rest := values[i..];
    assert rest[0] == values[i];
    if i + stride < |values| {
      assert rest[stride..] == values[i + stride..];
    }
  }

  lemma ProgressStep(values: seq<byte>, stride: nat, taken: seq<byte>, i: nat)
    requires stride > 0 && i < |values| && Progress(values, stride, taken, i)
    ensures Progress(values, stride, taken + [values[i]], i + stride)
  {
    RemainingStep(values, stride, i);
    assert taken + ([values[i]] + Remaining(values, stride, i + stride))
        == taken + [values[i]] + Remaining(values, stride, i + stride);
  }

  lemma ProgressEnds(values: seq<byte>, stride: nat, taken: seq<byte>, i: nat)
    requires stride > 0 && i >= |values| && Progress(values, stride, taken, i)
    ensures taken == Strided(values, stride)
  {
  }

  method PercentileOf(histogram: array<nat>, count: nat, fraction: real) returns (value: nat)
    requires histogram.Length == 256
    ensures value == Reaching(histogram[..], Target(count, fraction), 0)
  {
    var target := Target(count, fraction);
    ghost var h := histogram[..];
    ghost var expected := Reaching(h, target, 0);
    var cumulative := 0;
    value := 0;
    while value < 256
      invariant value <= 256 && cumulative == Cumulative(h, value)
      invariant expected == if value < 256 then Reaching(h, target, value) else 255
    {
      cumulative := cumulative + histogram[value];
      if cumulative >= target {
        return;
      }
      value := value + 1;
    }
    value := 255;
  }

  /** The histogram, sum and number of the samples taken so far. */
  ghost predicate Recorded(histogram: array<nat>, sum: nat, count: nat, taken: seq<byte>)
    reads histogram
  {
    && histogram.Length == 256 && (forall v :: 0 <= v < 256 ==> histogram[v] == multiset(taken)[v])
    && sum == Total(taken) && count == |taken|
  }

  method StatsFromHistogram(histogram: array<nat>, sum: nat, count: nat, ghost samples: seq<byte>)
    returns (r: Result<LumaStats>)
    requires Recorded(histogram, sum, count, samples)
    ensures r == Stats(samples)
  {
    assert histogram[..] == Histogram(samples);
    if count == 0 {
      return Err(EmptyImage);
    }
    var p50 := PercentileOf(histogram, count, 0.5);
    var p90 := PercentileOf(histogram, count, 0.9);
    var clipped, v := 0, 250;
    while v < 256
      invariant 250 <= v <= 256
      invariant clipped == Cumulative(histogram[..], v) - Cumulative(histogram[..], 250)
    {
      clipped := clipped + histogram[v];
      v := v + 1;
    }
    CumulativeCounts(samples, 250);
    CumulativeCounts(samples, 256);
    NothingBelowZero(samples);
    r := Ok(LumaStats(sum as real / count as real, p50, p90, clipped as real / count as real));
  }

  /** The loops' state at place `i`: what was counted are the samples found so far. */
  ghost predicate Counted(histogram: array<nat>, sum: nat, count: nat, taken: seq<byte>,
                          values: seq<byte>, stride: nat, i: nat)
    requires stride > 0
    reads histogram
  {
    Progress(values, stride, taken, i) && Recorded(histogram, sum, count, taken)
  }

  method NoSamples(ghost values: seq<byte>, ghost stride: nat) returns (histogram: array<nat>)
    requires stride > 0
    ensures fresh(histogram) && Counted(histogram, 0, 0, [], values, stride, 0)
  {
    histogram := new nat[256](_ => 0);
    ProgressStarts(values, stride);
  }

  /** Counts the value found at place `i`. */
  method Record(histogram: array<nat>, sum0: nat, count0: nat, value: byte,
                ghost values: seq<byte>, ghost stride: nat, ghost taken: seq<byte>, ghost i: nat)
    returns (sum: nat, count: nat)
    requires stride > 0 && i < |values| && value == values[i]
    requires Counted(histogram, sum0, count0, taken, values, stride, i)
    modifies histogram
    ensures Counted(histogram, sum, count, taken + [value], values, stride, i + stride)
  {
    TakeOne(taken, value);
    ProgressStep(values, stride, taken, i);
    histogram[value] := histogram[value] + 1;
    sum, count := sum0 + value, count0 + 1;
  }

  lemma AllCounted(histogram: array<nat>, sum: nat, count: nat, taken: seq<byte>, values: seq<byte>, stride: nat, i: nat)
    requires stride > 0 && i >= |values| && Counted(histogram, sum, count, taken, values, stride, i)
    ensures Recorded(histogram, sum, count, Strided(values, stride))
  {
    ProgressEnds(values, stride, taken, i);
  }

  method SampleBytes(raw: seq<byte>, stride: nat) returns (histogram: array<nat>, sum: nat, count: nat)
    requires stride > 0
    ensures Recorded(histogram, sum, count, Strided(raw, stride))
  {
    hide Counted, Recorded;
    histogram := NoSamples(raw, stride);
    sum, count := 0, 0;
    var i := 0;
    ghost var taken: seq<byte> := [];
    while i < |raw|
      invariant fresh(histogram) && Counted(histogram, sum, count, taken, raw, stride, i)
    {
      sum, count := Record(histogram, sum, count, raw[i], raw, stride, taken, i);
      taken := taken + [raw[i]];
      i := i + stride;
    }
    AllCounted(histogram, sum, count, taken, raw, stride, i);
  }

  method SampleHighBytes(raw: seq<byte>, stride: nat, ghost high: seq<byte>)
    returns (histogram: array<nat>, sum: nat, count: nat)
    requires stride > 0 && |raw| == 2 * |high|
    requires forall k :: 0 <= k < |high| ==> high[k] == raw[2 * k + 1]
    ensures Recorded(histogram, sum, count, Strided(high, stride))
  {
    hide Counted, Recorded;
    histogram := NoSamples(high, stride);
    sum, count := 0, 0;
    var i := 0;
    ghost var taken: seq<byte> := [];
    while i < |raw| / 2
      invariant fresh(histogram) && Counted(histogram, sum, count, taken, high, stride, i)
    {
      var value := raw[2 * i + 1];
      sum, count := Record(histogram, sum, count, value, high, stride, taken, i);
      taken := taken + [value];
      i := i + stride;
    }
    AllCounted(histogram, sum, count, taken, high, stride, i);
  }

  method Raw8Stats(raw: seq<byte>, samplePixels: nat) returns (r: Result<LumaStats>)
    ensures r == Stats(Strided(raw, Stride(samplePixels)))
  {
    var histogram, sum, count := SampleBytes(raw, Stride(samplePixels));
    r := StatsFromHistogram(histogram, sum, count, Strided(raw, Stride(samplePixels)));
  }

  /** The statistics of 16-bit samples are those of their high bytes. */
  method Raw16Stats(raw: seq<byte>, samplePixels: nat) returns (r: Result<LumaStats>)
    ensures r == match Raw16ToRaw8(raw)
                 case Err(error) => Err(error)
                 case Ok(high) => Stats(Strided(high, Stride(samplePixels)))
  {
    if |raw| % 2 != 0 {
      return Err(BufferLength(|raw| / 2 * 2, |raw|));
    }
    var histogram, sum, count := SampleHighBytes(raw, Stride(samplePixels), HighBytes(raw));
    r := StatsFromHistogram(histogram, sum, count, Strided(HighBytes(raw), Stride(samplePixels)));
  }
}
