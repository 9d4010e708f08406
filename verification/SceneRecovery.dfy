/** What the scene detector computes, on the luminances alone: which cells enter the fit, what it is
    fitted to, and exactly which cells are reported (crates/autopiercam-chatstronomy/src/media.rs). */
module SceneRecovery {

  import opened Medians
  import opened SceneDetector

  // ---------------------------------------------------------------- what is fitted

  predicate Unclipped(a: real, b: real) {
    8.0 <= a < 247.0 && 8.0 <= b < 247.0
  }

  ghost predicate Ascending(at: seq<nat>, n: nat) {
    && (forall k :: 0 <= k < |at| ==> at[k] < n)
    && (forall k, l :: 0 <= k < l < |at| ==> at[k] < at[l])
  }

  lemma AscendingExtends(at: seq<nat>, n: nat)
    requires Ascending(at, n)
    ensures Ascending(at, n + 1) && Ascending(at + [n], n + 1)
    ensures forall i: nat :: i in at + [n] <==> i in at || i == n
  {
  }

  /** `at` are the cells that are neither nearly black nor nearly white in both images, in grid order,
      and `pairs` their values. */
  ghost predicate Selects(base: seq<real>, seen: seq<real>, pairs: seq<(real, real)>, at: seq<nat>)
    requires |base| == |seen|
  {
    && Ascending(at, |base|) && |at| == |pairs|
    && (forall k :: 0 <= k < |at| ==> pairs[k] == (base[at[k]], seen[at[k]]))
    && (forall i: nat :: i < |base| ==> (i in at <==> Unclipped(base[i], seen[i])))
  }

  lemma SelectsNext(base: seq<real>, seen: seq<real>, pairs: seq<(real, real)>, front: seq<nat>)
    requires |base| == |seen| > 0 && Selects(base[..|base| - 1], seen[..|base| - 1], pairs, front)
    ensures var n := |base| - 1;
            if Unclipped(base[n], seen[n]) then Selects(base, seen, pairs + [(base[n], seen[n])], front + [n])
            else Selects(base, seen, pairs, front)
  {
    AscendingExtends(front, |base| - 1);
    forall i: nat | i < |base| ensures (i < |base| - 1 ==> (i in front <==> Unclipped(base[i], seen[i])))
                                     && (i == |base| - 1 ==> i !in front) {
      CellSelected(base, seen, front, i);
    }
  }

  /** The fit uses exactly the unclipped cells. */
  lemma {:induction false} PairsAreUnclippedCells(base: seq<real>, seen: seq<real>) returns (at: seq<nat>)
    requires |base| == |seen|
    ensures Selects(base, seen, Pairs(base, seen), at)
  {
    at := [];
    if base != [] {
      var n := |base| - 1;
      at := PairsAreUnclippedCells(base[..n], seen[..n]);
      SelectsNext(base, seen, Pairs(base[..n], seen[..n]), at);
      at := if Unclipped(base[n], seen[n]) then at + [n] else at;
    }
  }

  lemma CellSelected(base: seq<real>, seen: seq<real>, front: seq<nat>, i: nat)
    requires |base| == |seen| && i < |base| && Ascending(front, |base| - 1)
    requires forall k: nat :: k < |base| - 1 ==>
               (k in front <==> Unclipped(base[..|base| - 1][k], seen[..|base| - 1][k]))
    ensures i < |base| - 1 ==> (i in front <==> Unclipped(base[i], seen[i]))
    ensures i == |base| - 1 ==> i !in front
  {
    if i < |base| - 1 {
      assert base[..|base| - 1][i] == base[i] && seen[..|base| - 1][i] == seen[i];
    }
  }

  /** A comparison is made exactly when at least a fifth of the cells are unclipped in both images. */
  lemma ComparedWhenEnoughUnclipped(base: Grid, seen: Grid) returns (at: seq<nat>)
    ensures Ascending(at, 768)
    ensures forall i: nat :: i < 768 ==> (i in at <==> Unclipped(base[i], seen[i]))
    ensures SceneChanges(base, seen).Some? <==> 5 * |at| >= 768
  {
    at := PairsAreUnclippedCells(base, seen);
  }

  /** The 64 samples are spread evenly over the pairs. */
  lemma SamplesSpread(pairs: seq<(real, real)>, k: nat) returns (i: nat)
    requires pairs != [] && k < 64
    ensures i < |pairs| && Samples(pairs)[k] == pairs[i] && 64 * i <= k * |pairs| < 64 * (i + 1)
  {
    i := k * |pairs| / 64;
    SampleIsPair(pairs, k);
  }

  /** The places in `later` far enough from `p`, and the slopes that lead there. */
  ghost predicate SlopeEnds(p: (real, real), later: seq<(real, real)>, slopes: seq<real>, ends: seq<nat>) {
    && Ascending(ends, |later|) && |ends| == |slopes|
    && (forall k :: 0 <= k < |ends| ==> Far(p, later[ends[k]]) && Joins(slopes[k], p, later[ends[k]]))
    && (forall j: nat :: j < |later| && Far(p, later[j]) ==> j in ends)
  }

  lemma {:induction false} SlopesFromOne(p: (real, real), later: seq<(real, real)>) returns (ends: seq<nat>)
    ensures SlopeEnds(p, later, SlopesTo(p, later), ends)
  {
    ends := [];
    if later != [] {
      var n := |later| - 1;
      var front := SlopesFromOne(p, later[..n]);
      AscendingExtends(front, n);
      FarFromOne(p, later, SlopesTo(p, later[..n]), front);
      if Apart(p, later[n]) {
        SlopeJoins(p, later[n]);
        ends := front + [n];
      } else {
        ends := front;
      }
    }
  }

  lemma SlopeJoins(p: (real, real), q: (real, real))
    requires Apart(p, q)
    ensures Far(p, q) && Joins((p.1 - q.1) / (p.0 - q.0), p, q)
  {
  }

  lemma FarFromOne(p: (real, real), later: seq<(real, real)>, slopes: seq<real>, front: seq<nat>)
    requires later != [] && SlopeEnds(p, later[..|later| - 1], slopes, front)
    ensures forall k :: 0 <= k < |front| ==> Far(p, later[front[k]]) && Joins(slopes[k], p, later[front[k]])
    ensures forall j: nat :: j < |later| - 1 && Far(p, later[j]) ==> j in front
  {
    forall j: nat | j < |later| - 1 && Far(p, later[j]) ensures j in front {
      assert later[..|later| - 1][j] == later[j];
    }
  }

  /** At least 24 grey levels lie between the two base values. */
  predicate Far(p: (real, real), q: (real, real)) {
    p.0 - q.0 >= 24.0 || q.0 - p.0 >= 24.0
  }

  /** The line of this slope through one point goes through the other. */
  predicate Joins(slope: real, p: (real, real), q: (real, real)) {
    slope * (p.0 - q.0) == p.1 - q.1
  }

  predicate IsSlopePair(samples: seq<(real, real)>, n: nat, slope: real, pair: (nat, nat)) {
    && pair.0 < n && pair.0 < pair.1 < |samples|
    && Far(samples[pair.0], samples[pair.1]) && Joins(slope, samples[pair.0], samples[pair.1])
  }

  predicate Before(x: (nat, nat), y: (nat, nat)) {
    x.0 < y.0 || (x.0 == y.0 && x.1 < y.1)
  }

  /** The pairs of samples whose slopes start at one of the first `n`, each once, in order. */
  ghost predicate SlopePairs(samples: seq<(real, real)>, n: nat, slopes: seq<real>, at: seq<(nat, nat)>) {
    && |at| == |slopes|
    && (forall k :: 0 <= k < |at| ==> IsSlopePair(samples, n, slopes[k], at[k]))
    && (forall k, l :: 0 <= k < l < |at| ==> Before(at[k], at[l]))
    && (forall i: nat, j: nat :: i < n && i < j < |samples| && Far(samples[i], samples[j]) ==> (i, j) in at)
  }

  lemma {:induction false} SlopesUpTo(samples: seq<(real, real)>, n: nat) returns (at: seq<(nat, nat)>)
    requires n <= |samples|
    ensures SlopePairs(samples, n, SlopesBefore(samples, n), at)
  {
    at := [];
    if n > 0 {
      var front := SlopesUpTo(samples, n - 1);
      var ends := SlopesFromOne(samples[n - 1], samples[n..]);
      at := front + seq(|ends|, k requires 0 <= k < |ends| => (n - 1, n + ends[k]));
      SlopesExtended(samples, n, front, ends, at);
    }
  }

  lemma SlopesExtended(samples: seq<(real, real)>, n: nat, front: seq<(nat, nat)>, ends: seq<nat>, at: seq<(nat, nat)>)
    requires 0 < n <= |samples| && SlopePairs(samples, n - 1, SlopesBefore(samples, n - 1), front)
    requires SlopeEnds(samples[n - 1], samples[n..], SlopesTo(samples[n - 1], samples[n..]), ends)
    requires |at| == |front| + |ends|
    requires forall k :: 0 <= k < |at| ==> at[k] == if k < |front| then front[k] else (n - 1, n + ends[k - |front|])
    ensures SlopePairs(samples, n, SlopesBefore(samples, n), at)
  {
    var slopes := SlopesBefore(samples, n);
    forall k | 0 <= k < |at| ensures IsSlopePair(samples, n, slopes[k], at[k]) {
      if k >= |front| {
        assert samples[n..][ends[k - |front|]] == samples[at[k].1];
      } else {
        assert IsSlopePair(samples, n - 1, SlopesBefore(samples, n - 1)[k], front[k]);
      }
    }
    forall i: nat, j: nat | i < n && i < j < |samples| && Far(samples[i], samples[j]) ensures (i, j) in at {
      PairListed(samples, n, front, ends, at, i, j);
    }
  }

  lemma PairListed(samples: seq<(real, real)>, n: nat, front: seq<(nat, nat)>, ends: seq<nat>, at: seq<(nat, nat)>, i: nat, j: nat)
    requires 0 < n <= |samples| && i < n && i < j < |samples| && Far(samples[i], samples[j])
    requires i < n - 1 ==> (i, j) in front
    requires forall k: nat :: k < |samples[n..]| && Far(samples[n - 1], samples[n..][k]) ==> k in ends
    requires |at| == |front| + |ends|
    requires forall k :: 0 <= k < |at| ==> at[k] == if k < |front| then front[k] else (n - 1, n + ends[k - |front|])
    ensures (i, j) in at
  {
    if i < n - 1 {
      var k :| 0 <= k < |front| && front[k] == (i, j);
      assert at[k] == (i, j);
    } else {
      assert samples[n..][j - n] == samples[j];
      var k :| 0 <= k < |ends| && ends[k] == j - n;
      assert at[|front| + k] == (i, j);
    }
  }

  /** The slopes are exactly those of the pairs of samples whose base values are at least 24 apart. */
  lemma SlopesOfFarPairs(samples: seq<(real, real)>) returns (at: seq<(nat, nat)>)
    ensures SlopePairs(samples, |samples|, Slopes(samples), at)
  {
    at := SlopesUpTo(samples, |samples|);
  }

  // ---------------------------------------------------------------- what is reported

  /** `c` is `s` times `a` plus `o`, held between black and white. */
  predicate Transforms(a: real, s: real, o: real, c: real) {
    && 0.0 <= c <= 255.0
    && (c == s * a + o || (c == 0.0 && s * a + o < 0.0) || (c == 255.0 && s * a + o > 255.0))
  }

  /** The base value is usable, and what is seen is brighter or darker than expected by more than 16
      grey levels and by more than 15 percent of the brighter one. */
  predicate StandsOut(a: real, b: real, expected: real) {
    && 8.0 <= a < 247.0
    && ((b - expected > 16.0 && 100.0 * (b - expected) > 15.0 * b)
        || (expected - b > 16.0 && 100.0 * (expected - b) > 15.0 * expected))
  }

  lemma OffStandsOut(a: real, b: real, s: real, o: real, c: real)
    requires Transforms(a, s, o, c)
    ensures Off(a, b, s, o) <==> StandsOut(a, b, c)
  {
    assert Clamp(s * a + o) == c;
    if c < b {
      assert Max(c, b) == b && Abs(c - b) == b - c;
    } else {
      assert Max(c, b) == c && Abs(c - b) == c - b;
    }
  }

  /** Cell `i` and two cells touching it stand out. */
  ghost predicate InChangedArea(base: Grid, seen: Grid, expected: Grid, i: int)
    requires 0 <= i < CELLS
  {
    && StandsOut(base[i], seen[i], expected[i])
    && exists j, k :: 0 <= j < k < CELLS && Touching(i, j) && Touching(i, k)
         && StandsOut(base[j], seen[j], expected[j]) && StandsOut(base[k], seen[k], expected[k])
  }

  /** If more than half of the sampled slopes are s, and more than half of the unclipped cells have
      offset o for it, exactly the changed areas are reported: cells that, with two of their
      neighbours, are brighter or darker than the exposure change s, o explains. A slope that no
      change of exposure has counts as one. */
  lemma ReportedExactlyWhenChanged(base: Grid, seen: Grid, s: real, fitted: real, o: real, expected: Grid)
    requires SceneChanges(base, seen).Some?
    requires var slopes := Slopes(Samples(Pairs(base, seen))); 2 * multiset(slopes)[s] > |slopes|
    requires fitted == if 0.125 <= s <= 8.0 then s else 1.0
    requires var offsets := Offsets(Pairs(base, seen), fitted); 2 * multiset(offsets)[o] > |offsets|
    requires forall i :: 0 <= i < CELLS ==> Transforms(base[i], fitted, o, expected[i])
    ensures var changed := SceneChanges(base, seen).value;
            && |changed| == 768
            && forall i :: 0 <= i < 768 ==> (changed[i] <==> InChangedArea(base, seen, expected, i))
  {
    MajorityIsMedian(Slopes(Samples(Pairs(base, seen))), s);
    MajorityIsMedian(Offsets(Pairs(base, seen), fitted), o);
    var raw := Raw(base, seen, fitted, o);
    var changed := SceneChanges(base, seen).value;
    assert changed == Filtered(raw);
    forall i | 0 <= i < CELLS ensures raw[i] <==> StandsOut(base[i], seen[i], expected[i]) {
      OffStandsOut(base[i], seen[i], fitted, o, expected[i]);
    }
    forall i | 0 <= i < CELLS ensures changed[i] <==> InChangedArea(base, seen, expected, i) {
      ReportedExactly(raw, i);
    }
  }

  /** The offset of a pair is what the slope leaves of its seen value. */
  lemma OffsetsLeftOver(pairs: seq<(real, real)>, slope: real)
    ensures |Offsets(pairs, slope)| == |pairs|
    ensures forall i :: 0 <= i < |pairs| ==> slope * pairs[i].0 + Offsets(pairs, slope)[i] == pairs[i].1
  {
  }
}
