/** The scene-change fit and neighbour filter (crates/autopiercam-chatstronomy/src/media.rs), in
    exact arithmetic over a 32 by 24 grid of luminances. */
module SceneDetector {
  import opened SharingTypes
  import opened Medians

  const WIDTH := 32
  const HEIGHT := 24
  const CELLS := 768

  type Grid = g: seq<real> | |g| == 768 witness seq(768, i => 0.0)

  predicate Usable(v: real) {
    8.0 <= v < 247.0
  }

  function Abs(x: real): real {
    if x < 0.0 then -x else x
  }

  function Max(x: real, y: real): real {
    if x < y then y else x
  }

  function Clamp(x: real): real {
    if x < 0.0 then 0.0 else if x > 255.0 then 255.0 else x
  }

  // ---------------------------------------------------------------- the fit

  /** The unclipped cells, in grid order, as (base, seen). */
  function Pairs(base: seq<real>, seen: seq<real>): seq<(real, real)>
    requires |base| == |seen|
  {
    if base == [] then []
    else
      var n := |base| - 1;
      Pairs(base[..n], seen[..n]) + (if Usable(base[n]) && Usable(seen[n]) then [(base[n], seen[n])] else [])
  }

  function Samples(pairs: seq<(real, real)>): (r: seq<(real, real)>)
    requires pairs != []
    ensures |r| == 64
  {
    seq(64, i requires 0 <= i < 64 => assert i * |pairs| / 64 < |pairs|; pairs[i * |pairs| / 64])
  }

  predicate Apart(p: (real, real), q: (real, real)) {
    Abs(p.0 - q.0) >= 24.0
  }

  /** Slopes from `p` to the samples after it. */
  function SlopesTo(p: (real, real), later: seq<(real, real)>): seq<real> {
    if later == [] then []
    else
      var n := |later| - 1;
      SlopesTo(p, later[..n]) + (if Apart(p, later[n]) then [(p.1 - later[n].1) / (p.0 - later[n].0)] else [])
  }

  function Slopes(samples: seq<(real, real)>): seq<real> {
    SlopesBefore(samples, |samples|)
  }

  /** The slopes that start at one of the first `i` samples. */
  function SlopesBefore(samples: seq<(real, real)>, i: nat): seq<real>
    requires i <= |samples|
  {
    if i == 0 then [] else SlopesBefore(samples, i - 1) + SlopesTo(samples[i - 1], samples[i..])
  }

  method CollectSlopes(samples: seq<(real, real)>) returns (slopes: seq<real>)
    ensures slopes == Slopes(samples)
  {
    slopes := [];
    for i := 0 to |samples|
      invariant slopes == SlopesBefore(samples, i)
    {
      var later := samples[i + 1..];
      ghost var start := slopes;
      for j := 0 to |later|
        invariant slopes == start + SlopesTo(samples[i], later[..j])
      {
        assert later[..j + 1][..j] == later[..j];
        if Apart(samples[i], later[j]) {
          slopes := slopes + [(samples[i].1 - later[j].1) / (samples[i].0 - later[j].0)];
        }
      }
      assert later[..|later|] == later;
    }
  }

  function Slope(slopes: seq<real>): real {
    if slopes == [] then 1.0
    else if 0.125 <= Median(slopes) <= 8.0 then Median(slopes)
    else 1.0
  }

  function Offsets(pairs: seq<(real, real)>, slope: real): seq<real> {
    seq(|pairs|, i requires 0 <= i < |pairs| => pairs[i].1 - slope * pairs[i].0)
  }

  // ---------------------------------------------------------------- the filter

  predicate Off(a: real, b: real, slope: real, offset: real) {
    var predicted := Clamp(slope * a + offset);
    Usable(a) && Abs(predicted - b) > Max(16.0, 0.15 * Max(predicted, b))
  }

  function Raw(base: seq<real>, seen: seq<real>, slope: real, offset: real): (r: seq<bool>)
    requires |base| == |seen|
    ensures |r| == |base|
  {
    seq(|base|, i requires 0 <= i < |base| => Off(base[i], seen[i], slope, offset))
  }

  function Index(row: int, col: int): int {
    row * 32 + col
  }

  predicate Hit(raw: seq<bool>, i: int, row: int, col: int) {
    var j := Index(row, col);
    0 <= j < |raw| && j != i && raw[j]
  }

  function RowHits(raw: seq<bool>, i: int, row: int, lo: int, hi: int): seq<int>
    decreases hi - lo
  {
    if lo >= hi then []
    else RowHits(raw, i, row, lo, hi - 1) + (if Hit(raw, i, row, hi - 1) then [Index(row, hi - 1)] else [])
  }

  function BlockHits(raw: seq<bool>, i: int, top: int, bottom: int, left: int, right: int): seq<int>
    decreases bottom - top
  {
    if top >= bottom then []
    else BlockHits(raw, i, top, bottom - 1, left, right) + RowHits(raw, i, bottom - 1, left, right)
  }

  function Low(x: int): int {
    if x > 0 then x - 1 else 0
  }

  function High(x: int, limit: int): int {
    if x + 1 < limit then x + 2 else limit
  }

  function Neighbours(raw: seq<bool>, i: int): seq<int>
    requires 0 <= i < CELLS
  {
    BlockHits(raw, i, Low(i / 32), High(i / 32, HEIGHT), Low(i % 32), High(i % 32, WIDTH))
  }

  predicate Reported(raw: seq<bool>, i: int)
    requires |raw| == CELLS && 0 <= i < CELLS
  {
    raw[i] && |Neighbours(raw, i)| >= 2
  }

  /** Only cells with enough marked neighbours remain. */
  function Filtered(raw: seq<bool>): (r: seq<bool>)
    requires |raw| == CELLS
    ensures |r| == CELLS
  {
    seq(CELLS, i requires 0 <= i < CELLS => Reported(raw, i))
  }

  function SceneChanges(base: Grid, seen: Grid): Option<seq<bool>> {
    var pairs := Pairs(base, seen);
    if |pairs| * 5 < CELLS then None
    else
      var slope := Slope(Slopes(Samples(pairs)));
      var offset := Median(Offsets(pairs, slope));
      var raw := Raw(base, seen, slope, offset);
      Some(Filtered(raw))
  }

  method CountNeighbours(raw: seq<bool>, i: int) returns (count: nat)
    requires |raw| == CELLS && 0 <= i < CELLS
    ensures count == |Neighbours(raw, i)|
  {
    var x, y := i % 32, i / 32;
    var row, bottom, left, right := Low(y), High(y, HEIGHT), Low(x), High(x, WIDTH);
    ghost var top := row;
    count := 0;
    while row < bottom
      invariant top <= row <= bottom
      invariant count == |BlockHits(raw, i, top, row, left, right)|
    {
      var inRow := CountRow(raw, i, row, left, right);
      count := count + inRow;
      row := row + 1;
    }
  }

  method CountRow(raw: seq<bool>, i: int, row: int, left: int, right: int) returns (count: nat)
    requires left <= right
    ensures count == |RowHits(raw, i, row, left, right)|
  {
    count := 0;
    var col := left;
    while col < right
      invariant left <= col <= right
      invariant count == |RowHits(raw, i, row, left, col)|
    {
      if Hit(raw, i, row, col) {
        count := count + 1;
      }
      col := col + 1;
    }
  }

  method Filter(raw: seq<bool>) returns (cells: seq<bool>)
    requires |raw| == CELLS
    ensures cells == Filtered(raw)
  {
    cells := [];
    for i := 0 to CELLS
      invariant |cells| == i
      invariant forall k :: 0 <= k < i ==> cells[k] == Reported(raw, k)
    {
      var count := CountNeighbours(raw, i);
      cells := cells + [raw[i] && count >= 2];
    }
  }

  method FindSceneChanges(base: Grid, seen: Grid) returns (area: Option<seq<bool>>)
    ensures area == SceneChanges(base, seen)
  {
    var pairs := Pairs(base, seen);
    if |pairs| * 5 < CELLS {
      return None;
    }
    var slopes := CollectSlopes(Samples(pairs));
    var slope := Slope(slopes);
    var raw := Raw(base, seen, slope, Median(Offsets(pairs, slope)));
    var cells := Filter(raw);
    area := Some(cells);
  }

  // ---------------------------------------------------------------- neighbours

  /** Two different cells that touch, corners included; rows do not wrap. */
  predicate Touching(i: int, j: int) {
    && i != j
    && -1 <= i % 32 - j % 32 <= 1
    && -1 <= i / 32 - j / 32 <= 1
  }

  predicate InBlock(raw: seq<bool>, i: int, top: int, bottom: int, left: int, right: int, j: int) {
    0 <= j < |raw| && j != i && raw[j] && top <= j / 32 < bottom && left <= j % 32 < right
  }

  /** `h` lists the other marked cells of the block, each once. */
  ghost predicate Lists(h: seq<int>, raw: seq<bool>, i: int, top: int, bottom: int, left: int, right: int) {
    && (forall k :: 0 <= k < |h| ==> InBlock(raw, i, top, bottom, left, right, h[k]))
    && (forall k, l :: 0 <= k < l < |h| ==> h[k] < h[l])
    && (forall j :: InBlock(raw, i, top, bottom, left, right, j) ==> j in h)
  }

  lemma {:induction false} RowHitsExact(raw: seq<bool>, i: int, row: int, lo: int, hi: int)
    requires 0 <= row && 0 <= lo <= hi <= WIDTH
    ensures Lists(RowHits(raw, i, row, lo, hi), raw, i, row, row + 1, lo, hi)
    decreases hi - lo
  {
    if lo < hi {
      RowHitsExact(raw, i, row, lo, hi - 1);
      var rest, h, last := RowHits(raw, i, row, lo, hi - 1), RowHits(raw, i, row, lo, hi), Index(row, hi - 1);
      assert last / 32 == row && last % 32 == hi - 1;
      assert rest <= h && |h| <= |rest| + 1 && (|h| > |rest| ==> h[|rest|] == last);
      forall k | 0 <= k < |rest| ensures InBlock(raw, i, row, row + 1, lo, hi, rest[k]) && rest[k] < last {
        assert InBlock(raw, i, row, row + 1, lo, hi - 1, rest[k]);
      }
      forall j | InBlock(raw, i, row, row + 1, lo, hi, j) ensures j in h {
        if j % 32 < hi - 1 {
          assert InBlock(raw, i, row, row + 1, lo, hi - 1, j);
        } else {
          assert j == last;
        }
      }
    }
  }

  /** The hits of the rows above a row, followed by those of the row, list the block of both. */
  lemma ListsJoin(raw: seq<bool>, i: int, top: int, row: int, left: int, right: int, above: seq<int>, below: seq<int>)
    requires 0 <= top <= row && 0 <= left <= right <= WIDTH
    requires Lists(above, raw, i, top, row, left, right) && Lists(below, raw, i, row, row + 1, left, right)
    ensures Lists(above + below, raw, i, top, row + 1, left, right)
  {
    var h := above + below;
    forall k | 0 <= k < |h|
      ensures InBlock(raw, i, top, row + 1, left, right, h[k]) && (h[k] / 32 == row <==> k >= |above|)
    {
      if k < |above| {
        assert InBlock(raw, i, top, row, left, right, above[k]);
      } else {
        assert InBlock(raw, i, row, row + 1, left, right, below[k - |above|]);
      }
    }
    forall j | InBlock(raw, i, top, row + 1, left, right, j) ensures j in h {
      assert InBlock(raw, i, row, row + 1, left, right, j) || InBlock(raw, i, top, row, left, right, j);
    }
  }

  lemma {:induction false} BlockHitsExact(raw: seq<bool>, i: int, top: int, bottom: int, left: int, right: int)
    requires 0 <= top <= bottom && 0 <= left <= right <= WIDTH
    ensures Lists(BlockHits(raw, i, top, bottom, left, right), raw, i, top, bottom, left, right)
    decreases bottom - top
  {
    if top < bottom {
      BlockHitsExact(raw, i, top, bottom - 1, left, right);
      RowHitsExact(raw, i, bottom - 1, left, right);
      ListsJoin(raw, i, top, bottom - 1, left, right,
                BlockHits(raw, i, top, bottom - 1, left, right), RowHits(raw, i, bottom - 1, left, right));
    }
  }

  /** A cell is reported exactly when it and two cells touching it are off the fit: every reported
      cell lies in an 8-connected group of at least three such cells. */
  lemma ReportedExactly(raw: seq<bool>, i: int)
    requires |raw| == CELLS && 0 <= i < CELLS
    ensures Reported(raw, i) <==>
            raw[i] && exists j, k :: 0 <= j < k < CELLS && Touching(i, j) && Touching(i, k) && raw[j] && raw[k]
  {
    var top, bottom, left, right := Low(i / 32), High(i / 32, HEIGHT), Low(i % 32), High(i % 32, WIDTH);
    BlockHitsExact(raw, i, top, bottom, left, right);
    var h := Neighbours(raw, i);
    forall j | 0 <= j < CELLS ensures InBlock(raw, i, top, bottom, left, right, j) <==> Touching(i, j) && raw[j] {
    }
    if |h| >= 2 {
      assert h[0] < h[1] && InBlock(raw, i, top, bottom, left, right, h[0]) && InBlock(raw, i, top, bottom, left, right, h[1]);
    }
    if j, k :| 0 <= j < k < CELLS && Touching(i, j) && Touching(i, k) && raw[j] && raw[k] {
      assert j in h && k in h;
    }
  }

  // ---------------------------------------------------------------- exact recovery

  /** The cell follows the exposure change `s`, `o`. */
  predicate Follows(a: real, b: real, s: real, o: real) {
    b == Clamp(s * a + o)
  }

  /** If more than half of the sampled slopes are s, and more than half of the unclipped cells have
      offset o for it, the fit is exactly (s, o): no cell that follows the change is reported, and
      every reported cell touches two others that, like itself, do not follow it. */
  lemma MajorityRecovered(base: Grid, seen: Grid, s: real, o: real)
    requires SceneChanges(base, seen).Some?
    requires var slopes := Slopes(Samples(Pairs(base, seen))); 2 * multiset(slopes)[s] > |slopes|
    requires 0.125 <= s <= 8.0
    requires var offsets := Offsets(Pairs(base, seen), s); 2 * multiset(offsets)[o] > |offsets|
    ensures var changed := SceneChanges(base, seen).value;
            && |changed| == CELLS
            && (forall i :: 0 <= i < CELLS && Follows(base[i], seen[i], s, o) ==> !changed[i])
            && (forall i :: 0 <= i < CELLS && changed[i] ==>
                  && !Follows(base[i], seen[i], s, o)
                  && exists j, k :: 0 <= j < k < CELLS && Touching(i, j) && Touching(i, k)
                       && !Follows(base[j], seen[j], s, o) && !Follows(base[k], seen[k], s, o))
  {
    MajorityIsMedian(Slopes(Samples(Pairs(base, seen))), s);
    FitRecovered(base, seen, s, o);
  }

  /** The same for any slope the fit arrives at. */
  lemma FitRecovered(base: Grid, seen: Grid, s: real, o: real)
    requires SceneChanges(base, seen).Some?
    requires Slope(Slopes(Samples(Pairs(base, seen)))) == s
    requires var offsets := Offsets(Pairs(base, seen), s); 2 * multiset(offsets)[o] > |offsets|
    ensures var changed := SceneChanges(base, seen).value;
            && |changed| == CELLS
            && (forall i :: 0 <= i < CELLS && Follows(base[i], seen[i], s, o) ==> !changed[i])
            && (forall i :: 0 <= i < CELLS && changed[i] ==>
                  && !Follows(base[i], seen[i], s, o)
                  && exists j, k :: 0 <= j < k < CELLS && Touching(i, j) && Touching(i, k)
                       && !Follows(base[j], seen[j], s, o) && !Follows(base[k], seen[k], s, o))
  {
    MajorityIsMedian(Offsets(Pairs(base, seen), s), o);
    var raw := Raw(base, seen, s, o);
    var changed := SceneChanges(base, seen).value;
    forall i | 0 <= i < CELLS && changed[i]
      ensures !Follows(base[i], seen[i], s, o)
      ensures exists j, k :: 0 <= j < k < CELLS && Touching(i, j) && Touching(i, k)
                && !Follows(base[j], seen[j], s, o) && !Follows(base[k], seen[k], s, o)
    {
      ReportedExactly(raw, i);
      var j, k :| 0 <= j < k < CELLS && Touching(i, j) && Touching(i, k) && raw[j] && raw[k];
    }
  }

  lemma {:induction false} UnanimousMajority(s: seq<real>, v: real)
    requires forall i :: 0 <= i < |s| ==> s[i] == v
    ensures multiset(s)[v] == |s|
  {
    if s != [] {
      assert s == [s[0]] + s[1..];
      UnanimousMajority(s[1..], v);
    }
  }

  /** The unclipped pairs of an exposure change lie on its line. */
  lemma {:induction false} PairsOnLine(base: seq<real>, seen: seq<real>, s: real, o: real)
    requires |base| == |seen|
    requires forall i :: 0 <= i < |base| ==> Follows(base[i], seen[i], s, o)
    ensures forall i :: 0 <= i < |Pairs(base, seen)| ==> Pairs(base, seen)[i].1 == s * Pairs(base, seen)[i].0 + o
  {
    if base != [] {
      var n := |base| - 1;
      PairsOnLine(base[..n], seen[..n], s, o);
    }
  }

  lemma SlopeOnLine(p: (real, real), q: (real, real), s: real, o: real)
    requires p.1 == s * p.0 + o && q.1 == s * q.0 + o && Apart(p, q)
    ensures (p.1 - q.1) / (p.0 - q.0) == s
  {
    assert p.1 - q.1 == s * (p.0 - q.0);
  }

  lemma {:induction false} SlopesToOnLine(p: (real, real), later: seq<(real, real)>, s: real, o: real)
    requires p.1 == s * p.0 + o
    requires forall i :: 0 <= i < |later| ==> later[i].1 == s * later[i].0 + o
    ensures forall i :: 0 <= i < |SlopesTo(p, later)| ==> SlopesTo(p, later)[i] == s
  {
    if later != [] {
      var n := |later| - 1;
      SlopesToOnLine(p, later[..n], s, o);
      if Apart(p, later[n]) {
        SlopeOnLine(p, later[n], s, o);
      }
    }
  }

  lemma {:induction false} SlopesOnLine(samples: seq<(real, real)>, i: nat, s: real, o: real)
    requires i <= |samples|
    requires forall k :: 0 <= k < |samples| ==> samples[k].1 == s * samples[k].0 + o
    ensures forall k :: 0 <= k < |SlopesBefore(samples, i)| ==> SlopesBefore(samples, i)[k] == s
  {
    if i > 0 {
      SlopesOnLine(samples, i - 1, s, o);
      SlopesToOnLine(samples[i - 1], samples[i..], s, o);
    }
  }

  /** All offsets of pairs on a line are its offset. */
  lemma OffsetsOnLine(pairs: seq<(real, real)>, s: real, o: real)
    requires forall i :: 0 <= i < |pairs| ==> pairs[i].1 == s * pairs[i].0 + o
    ensures multiset(Offsets(pairs, s))[o] == |Offsets(pairs, s)| == |pairs|
  {
    UnanimousMajority(Offsets(pairs, s), o);
  }

  lemma SampleIsPair(pairs: seq<(real, real)>, k: nat)
    requires pairs != [] && k < 64
    ensures Samples(pairs)[k] in pairs
  {
    assert k * |pairs| / 64 < |pairs|;
  }

  lemma SamplesOnLine(pairs: seq<(real, real)>, s: real, o: real)
    requires pairs != []
    requires forall i :: 0 <= i < |pairs| ==> pairs[i].1 == s * pairs[i].0 + o
    ensures multiset(Slopes(Samples(pairs)))[s] == |Slopes(Samples(pairs))|
  {
    var samples := Samples(pairs);
    forall k | 0 <= k < |samples| ensures samples[k].1 == s * samples[k].0 + o {
      SampleIsPair(pairs, k);
    }
    SlopesOnLine(samples, 64, s, o);
    UnanimousMajority(Slopes(samples), s);
  }

  lemma SlopesAgree(base: Grid, seen: Grid, s: real, o: real)
    requires forall i :: 0 <= i < CELLS ==> Follows(base[i], seen[i], s, o)
    requires Pairs(base, seen) != []
    ensures var slopes := Slopes(Samples(Pairs(base, seen))); multiset(slopes)[s] == |slopes|
    ensures var offsets := Offsets(Pairs(base, seen), s); multiset(offsets)[o] == |offsets| == |Pairs(base, seen)|
  {
    var pairs := Pairs(base, seen);
    PairsOnLine(base, seen, s, o);
    SamplesOnLine(pairs, s, o);
    OffsetsOnLine(pairs, s, o);
  }

  lemma EnoughPairs(base: Grid, seen: Grid)
    requires SceneChanges(base, seen).Some?
    ensures Pairs(base, seen) != []
  {
  }

  /** A scene that only brightens, darkens or clips, by any gain from an eighth to eight and any
      offset, is never reported as changed, provided two samples differ enough to measure the gain or
      the gain is one. */
  lemma ExposureChangeNeverReported(base: Grid, seen: Grid, s: real, o: real, i: nat)
    requires forall k :: 0 <= k < CELLS ==> Follows(base[k], seen[k], s, o)
    requires SceneChanges(base, seen).Some?
    requires Slopes(Samples(Pairs(base, seen))) != [] || s == 1.0
    requires 0.125 <= s <= 8.0 && i < CELLS
    ensures i < |SceneChanges(base, seen).value| && !SceneChanges(base, seen).value[i]
  {
    EnoughPairs(base, seen);
    SlopesAgree(base, seen, s, o);
    if Slopes(Samples(Pairs(base, seen))) != [] {
      MajorityRecovered(base, seen, s, o);
    } else {
      FitRecovered(base, seen, s, o);
    }
  }
}

/** What the detector reports, and what it compares with (`Detector`). */
module SceneWatch {
  import opened SharingTypes
  import opened SceneDetector

  datatype Preview = Undecodable | Unusable | Decoded(grid: Grid)

  datatype Frame = Frame(session: nat, sequence: nat, mode: string, preview: Preview)

  datatype Report = Nothing | DecodeError | DayNight | SceneChange

  /** The detector's fields, as a value. */
  datatype Watch = Watch(
    session: nat,
    sequence: nat,
    baseline: Option<Grid>,
    mode: string,
    candidateMode: string,
    candidateSince: Option<nat>)

  const FRESH := Watch(0, 0, None, "", "", None)
  const SETTLE_MS := 30000

  predicate KnownMode(mode: string) {
    mode == "day" || mode == "night"
  }

  /** The detector after it has noticed the frame's session and number. */
  function Noticed(w: Watch, f: Frame): Watch {
    (if w.session != f.session then FRESH.(session := f.session) else w).(sequence := f.sequence)
  }

  predicate Repeated(w: Watch, f: Frame) {
    (if w.session != f.session then 0 else w.sequence) == f.sequence
  }

  /** Day and night: a new mode must last half a minute without interruption. */
  function ModeTracked(w: Watch, f: Frame, now: nat): (Watch, bool) {
    var w1 := if KnownMode(f.mode) && w.mode == "" then w.(mode := f.mode) else w;
    if KnownMode(f.mode) && w1.mode != f.mode then
      var w2 := if w1.candidateMode != f.mode then w1.(candidateMode := f.mode, candidateSince := Some(now)) else w1;
      if w2.candidateSince.Some? && now - w2.candidateSince.value >= SETTLE_MS
      then (w2.(mode := f.mode, candidateSince := None), true)
      else (w2, false)
    else (w1.(candidateMode := "", candidateSince := None), false)
  }

  function Changed(cells: seq<bool>): nat {
    if cells == [] then 0 else Changed(cells[..|cells| - 1]) + (if cells[|cells| - 1] then 1 else 0)
  }

  function Compared(w: Watch, f: Frame, threshold: nat): (Watch, Report) {
    match f.preview
    case Undecodable => (w, DecodeError)
    case Unusable => (w, Nothing)
    case Decoded(grid) =>
      if w.baseline.None? then (w.(baseline := Some(grid)), Nothing)
      else
        var area := SceneChanges(w.baseline.value, grid);
        (w, if area.Some? && Changed(area.value) * 100 >= CELLS * threshold then SceneChange else Nothing)
  }

  function Observed(w: Watch, f: Frame, p: Preferences, now: nat): (Watch, Report) {
    if Repeated(w, f) then ((if w.session != f.session then FRESH.(session := f.session) else w), Nothing)
    else
      var (w1, flipped) := ModeTracked(Noticed(w, f), f, now);
      if flipped && p.dayNight then (w1, DayNight)
      else if !p.sceneChanges then (w1, Nothing)
      else Compared(w1, f, p.sceneThresholdPercent)
  }

  function DeliveredTo(w: Watch, session: nat, grid: Grid): Watch {
    if w.session == session then w.(baseline := Some(grid)) else w
  }

  class Detector {
    var session: nat
    var sequence: nat
    var baseline: Option<Grid>
    var mode: string
    var candidateMode: string
    var candidateSince: Option<nat>

    ghost function Value(): Watch
      reads this
    {
      Watch(session, sequence, baseline, mode, candidateMode, candidateSince)
    }

    constructor ()
      ensures Value() == FRESH
    {
      session, sequence, baseline, mode, candidateMode, candidateSince := 0, 0, None, "", "", None;
    }

    method Delivered(reference: nat, grid: Grid)
      modifies this
      ensures Value() == DeliveredTo(old(Value()), reference, grid)
    {
      if session == reference {
        baseline := Some(grid);
      }
    }

    method TrackMode(f: Frame, now: nat) returns (flipped: bool)
      modifies this
      ensures (Value(), flipped) == ModeTracked(old(Value()), f, now)
    {
      var known := f.mode == "day" || f.mode == "night";
      if known && mode == "" {
        mode := f.mode;
      }
      if known && mode != f.mode {
        if candidateMode != f.mode {
          candidateMode := f.mode;
          candidateSince := Some(now);
        }
        if candidateSince.Some? && now - candidateSince.value >= SETTLE_MS {
          mode := f.mode;
          candidateSince := None;
          return true;
        }
      } else {
        candidateMode := "";
        candidateSince := None;
      }
      return false;
    }

    method Observe(f: Frame, p: Preferences, now: nat) returns (report: Report)
      modifies this
      ensures (Value(), report) == Observed(old(Value()), f, p, now)
    {
      if session != f.session {
        session, sequence, baseline, mode, candidateMode, candidateSince := f.session, 0, None, "", "", None;
      }
      if sequence == f.sequence {
        return Nothing;
      }
      sequence := f.sequence;
      assert Value() == Noticed(old(Value()), f);
      var flipped := TrackMode(f, now);
      if flipped && p.dayNight {
        return DayNight;
      }
      if !p.sceneChanges {
        return Nothing;
      }
      match f.preview
      case Undecodable => return DecodeError;
      case Unusable => return Nothing;
      case Decoded(grid) =>
        if baseline.None? {
          baseline := Some(grid);
          return Nothing;
        }
        var area := FindSceneChanges(baseline.value, grid);
        if area.None? {
          return Nothing;
        }
        var changed := Changed(area.value);
        return if changed * 100 >= CELLS * p.sceneThresholdPercent then SceneChange else Nothing;
    }
  }

  // ---------------------------------------------------------------- runs

  datatype Event =
    | Observing(frame: Frame, preferences: Preferences, now: nat)
    | Delivering(session: nat, grid: Grid)

  function Step(w: Watch, e: Event): Watch {
    match e
    case Observing(f, p, now) => Observed(w, f, p, now).0
    case Delivering(session, grid) => DeliveredTo(w, session, grid)
  }

  ghost predicate Run(states: seq<Watch>, events: seq<Event>) {
    && |states| == |events| + 1
    && states[0] == FRESH
    && forall i :: 0 <= i < |events| ==> states[i + 1] == Step(states[i], events[i])
  }

  /** The frame of this event is new to the detector. */
  predicate Counts(w: Watch, e: Event) {
    e.Observing? && !Repeated(w, e.frame)
  }

  /** From event `i` on, every new frame was of this session and showed `mode`. */
  ghost predicate Uninterrupted(states: seq<Watch>, events: seq<Event>, i: nat, n: nat, session: nat, mode: string)
    requires |states| == |events| + 1
  {
    && i < n <= |events| && Counts(states[i], events[i])
    && forall j :: i <= j < n && events[j].Observing? ==>
         events[j].frame.session == session && (Counts(states[j], events[j]) ==> events[j].frame.mode == mode)
  }

  /** A candidate on record after an event was there before it, and the event did not interrupt
      it, or the event is where it starts. */
  lemma CandidateStep(w: Watch, e: Event)
    requires Step(w, e).candidateSince.Some?
    ensures var t := Step(w, e);
            if w.candidateSince == t.candidateSince && w.session == t.session && w.candidateMode == t.candidateMode
               && (e.Observing? ==> e.frame.session == t.session && (Counts(w, e) ==> e.frame.mode == t.candidateMode))
            then true
            else Counts(w, e) && e.frame.session == t.session && e.frame.mode == t.candidateMode && t.candidateSince == Some(e.now)
  {
  }

  /** Where the candidate mode on record was first seen. */
  lemma {:induction false} CandidateStart(states: seq<Watch>, events: seq<Event>, n: nat) returns (i: nat)
    requires Run(states, events) && n < |states| && states[n].candidateSince.Some?
    ensures Uninterrupted(states, events, i, n, states[n].session, states[n].candidateMode)
    ensures events[i].Observing? && events[i].now == states[n].candidateSince.value
  {
    assert n > 0;
    var w, e, t := states[n - 1], events[n - 1], states[n];
    assert t == Step(w, e);
    CandidateStep(w, e);
    if w.candidateSince == t.candidateSince && w.session == t.session && w.candidateMode == t.candidateMode
       && (e.Observing? ==> e.frame.session == t.session && (Counts(w, e) ==> e.frame.mode == t.candidateMode)) {
      i := CandidateStart(states, events, n - 1);
    } else {
      i := n - 1;
    }
  }

  /** A day/night transition is reported only after every new frame, for at least half a minute up
      to and including this one, has shown the new mode. */
  lemma TransitionSettled(states: seq<Watch>, events: seq<Event>, n: nat) returns (i: nat)
    requires Run(states, events) && n < |events| && events[n].Observing?
    requires Observed(states[n], events[n].frame, events[n].preferences, events[n].now).1.DayNight?
    ensures Uninterrupted(states, events, i, n + 1, events[n].frame.session, events[n].frame.mode)
    ensures events[n].now - events[i].now >= 30000
  {
    var w, e := states[n], events[n];
    i := CandidateStart(states, events, n);
    assert w.session == e.frame.session && w.candidateMode == e.frame.mode;
  }

  /** A new mode that every new frame has shown for half a minute, for the first time with this one, is
      reported. */
  lemma TransitionReported(states: seq<Watch>, events: seq<Event>, i: nat, n: nat, session: nat, mode: string)
    requires Run(states, events) && i < n < |events| && Uninterrupted(states, events, i, n + 1, session, mode)
    requires mode == "day" || mode == "night"
    requires states[i].session == session && states[i].mode in ["day", "night"] && states[i].mode != mode
    requires states[i].candidateMode != mode
    requires Counts(states[n], events[n]) && events[n].preferences.dayNight
    requires events[n].now - events[i].now >= 30000
    requires forall k :: i <= k < n && events[k].Observing? ==> events[k].now - events[i].now < 30000
    ensures Observed(states[n], events[n].frame, events[n].preferences, events[n].now).1 == DayNight
  {
    CandidateLasts(states, events, i, n, session, mode);
  }

  lemma {:induction false} CandidateLasts(states: seq<Watch>, events: seq<Event>, i: nat, n: nat, session: nat, mode: string)
    requires Run(states, events) && Uninterrupted(states, events, i, n, session, mode) && KnownMode(mode)
    requires states[i].session == session && states[i].mode != "" && states[i].mode != mode
    requires states[i].candidateMode != mode
    requires forall k :: i <= k < n && events[k].Observing? ==> events[k].now - events[i].now < 30000
    ensures states[n].session == session && states[n].mode == states[i].mode
    ensures states[n].candidateMode == mode && states[n].candidateSince == Some(events[i].now)
  {
    assert states[n - 1 + 1] == Step(states[n - 1], events[n - 1]);
    if n > i + 1 {
      CandidateLasts(states, events, i, n - 1, session, mode);
    }
    assert events[n - 1].Observing? ==> events[n - 1].frame.session == session;
    assert events[n - 1].Observing? && Counts(states[n - 1], events[n - 1]) ==> events[n - 1].frame.mode == mode;
  }

  function Marked(cells: seq<bool>): set<int> {
    set i | 0 <= i < |cells| && cells[i]
  }

  lemma {:induction false} ChangedCounts(cells: seq<bool>)
    ensures Changed(cells) == |Marked(cells)|
  {
    if cells == [] {
      assert Marked(cells) == {};
    } else {
      var n := |cells| - 1;
      ChangedCounts(cells[..n]);
      assert Marked(cells) == Marked(cells[..n]) + if cells[n] then {n} else {};
    }
  }

  /** Frame `f` is not the one observed last. */
  predicate NewFrame(w: Watch, f: Frame) {
    if w.session == f.session then f.sequence != w.sequence else f.sequence != 0
  }

  /** A new mode has been shown for half a minute when this frame shows it again. */
  predicate Settles(w: Watch, f: Frame, now: nat) {
    && w.session == f.session && f.mode in ["day", "night"] && w.mode != "" && w.mode != f.mode
    && w.candidateMode == f.mode && w.candidateSince.Some? && now - w.candidateSince.value >= 30000
  }

  /** Exactly what an observation reports: nothing of a frame seen before; a settled change of day and
      night if those are watched; otherwise, if scenes are watched, a frame that cannot be decoded,
      or a frame in which the given share of the cells has changed from the session's reference. */
  lemma ReportsExactly(w: Watch, f: Frame, p: Preferences, now: nat)
    ensures var report := Observed(w, f, p, now).1;
            var looks := NewFrame(w, f) && p.sceneChanges && !(p.dayNight && Settles(w, f, now));
            && (report == DayNight <==> NewFrame(w, f) && p.dayNight && Settles(w, f, now))
            && (report == DecodeError <==> looks && f.preview == Undecodable)
            && (report == SceneChange <==>
                  && looks && f.preview.Decoded? && w.session == f.session && w.baseline.Some?
                  && var area := SceneChanges(w.baseline.value, f.preview.grid);
                     area.Some? && 100 * |Marked(area.value)| >= 768 * p.sceneThresholdPercent)
  {
    if f.preview.Decoded? && w.baseline.Some? && SceneChanges(w.baseline.value, f.preview.grid).Some? {
      ChangedCounts(SceneChanges(w.baseline.value, f.preview.grid).value);
    }
  }

  /** The first frame of a session that can be compared becomes its reference. */
  lemma ReferenceTaken(w: Watch, f: Frame, p: Preferences, now: nat)
    requires w.session != f.session || w.baseline.None?
    ensures var t := Observed(w, f, p, now).0;
            && t.session == f.session
            && t.baseline == if NewFrame(w, f) && p.sceneChanges && !(p.dayNight && Settles(w, f, now)) && f.preview.Decoded?
                             then Some(f.preview.grid) else None
  {
  }

  /** The reference image is what the user last saw: once set, nothing but a delivered scene change
      or a new capture session replaces it, however the scene drifts. */
  lemma {:induction false} ReferenceHeld(states: seq<Watch>, events: seq<Event>, i: nat, j: nat)
    requires Run(states, events) && i <= j < |states| && states[i].baseline.Some?
    requires forall k :: i <= k < j ==> events[k].Observing? && events[k].frame.session == states[i].session
    ensures states[j].baseline == states[i].baseline && states[j].session == states[i].session
  {
    if i < j {
      ReferenceHeld(states, events, i, j - 1);
      assert states[j - 1 + 1] == Step(states[j - 1], events[j - 1]);
    }
  }
}
