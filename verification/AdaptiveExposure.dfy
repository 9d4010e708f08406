/** The frame-feedback exposure controller (crates/autopiercam-core/src/exposure.rs), with the
    brightness ratio in exact arithmetic. */
module AdaptiveExposure {

  import opened Arithmetic

  datatype LightMode = Day | Night

  datatype Setting = Setting(exposureUs: int, gain: int)

  datatype Stats = Stats(p90: nat, clippedFraction: real)

  datatype Limits = Limits(minUs: int, maxUs: int, minGain: int, maxGain: int, target: nat)
  {
    /** What `new` asserts of its arguments. */
    predicate Valid() {
      0 < minUs <= maxUs && 0 <= minGain <= maxGain && target > 0
    }

    predicate Permits(s: Setting) {
      minUs <= s.exposureUs <= maxUs && minGain <= s.gain <= maxGain
    }
  }

  function Clamp(x: int, lo: int, hi: int): int
    requires lo <= hi
  {
    if x < lo then lo else if x > hi then hi else x
  }

  function ClampReal(x: real, lo: real, hi: real): real
    requires lo <= hi
  {
    if x < lo then lo else if x > hi then hi else x
  }

  // ---------------------------------------------------------------- specification functions

  predicate Clipped(s: Stats) {
    s.clippedFraction > 0.05
  }

  function Ratio(l: Limits, s: Stats): real {
    if Clipped(s) then 0.25
    else ClampReal(l.target as real / (Max(s.p90, 1) as real), 0.0625, 4.0)
  }

  function Times(us: int, ratio: real): int {
    RoundHalfAway(us as real * ratio)
  }

  function Scaled(l: Limits, current: Setting, ratio: real): int
    requires l.Valid()
  {
    Clamp(Times(current.exposureUs, ratio), l.minUs, l.maxUs)
  }

  /** The setting before the final clamp. */
  function Adjusted(l: Limits, gainFirst: bool, current: Setting, clipped: bool, ratio: real): Setting
    requires l.Valid()
  {
    if gainFirst && !clipped && ratio >= 0.90 && current.gain < l.maxGain
       && (ratio > 1.10 || current.exposureUs > l.minUs)
    then current.(gain := Min(current.gain + 20, l.maxGain))
    else if clipped || !(0.90 <= ratio <= 1.10) then
      if !gainFirst && ratio < 1.0 && current.exposureUs <= 250000 && current.gain > l.minGain
      then current.(gain := Max(current.gain - 30, l.minGain))
      else
        Setting(Scaled(l, current, ratio),
                if ratio > 1.0 && current.exposureUs >= l.maxUs then Min(current.gain + 20, l.maxGain)
                else if ratio < 1.0 && current.exposureUs <= l.minUs then Max(current.gain - 30, l.minGain)
                else current.gain)
    else current
  }

  function Next(l: Limits, gainFirst: bool, current: Setting, s: Stats): Setting
    requires l.Valid()
  {
    var w := Adjusted(l, gainFirst, current, Clipped(s), Ratio(l, s));
    Setting(Clamp(w.exposureUs, l.minUs, l.maxUs), Clamp(w.gain, l.minGain, l.maxGain))
  }

  /** The day/night memory: evidence for the other mode must come in three frames running. */
  datatype Mode = Mode(mode: LightMode, votes: nat)

  predicate Opposite(mode: LightMode, exposureUs: int) {
    match mode
    case Day => exposureUs >= 1000000
    case Night => exposureUs <= 250000
  }

  function Other(mode: LightMode): LightMode {
    if mode.Day? then Night else Day
  }

  function Voted(m: Mode, exposureUs: int): Mode {
    var votes := if Opposite(m.mode, exposureUs) then Min(m.votes + 1, 255) else 0;
    if votes >= 3 then Mode(Other(m.mode), 0) else Mode(m.mode, votes)
  }

  // ---------------------------------------------------------------- the class

  class Controller {
    var limits: Limits
    var mode: LightMode
    var votes: nat
    var gainFirst: bool

    ghost predicate Valid()
      reads this
    {
      limits.Valid()
    }

    constructor (limits: Limits)
      requires limits.Valid()
      ensures Valid() && this.limits == limits && Mode(mode, votes) == Mode(Day, 0) && !gainFirst
    {
      this.limits := limits;
      mode, votes, gainFirst := Day, 0, false;
    }

    method WithInitialMode(mode: LightMode)
      modifies `mode
      ensures this.mode == mode
    {
      this.mode := mode;
    }

    method InitialExposure() returns (us: int)
      requires Valid()
      ensures limits.minUs <= us <= limits.maxUs
      ensures var usual := if mode.Day? then 10000 else 1000000;
              us == if usual < limits.minUs then limits.minUs else if usual > limits.maxUs then limits.maxUs else usual
    {
      us := Clamp(if mode.Day? then 10000 else 1000000, limits.minUs, limits.maxUs);
    }

    method SetGainFirst(prefer: bool)
      modifies `gainFirst
      ensures gainFirst == prefer
    {
      gainFirst := prefer;
    }

    /** Day/night history survives a change of the permitted range. */
    method UpdateLimits(next: Limits)
      requires next.Valid()
      modifies `limits
      ensures Valid() && limits == next
    {
      limits := next;
    }

    method Vote(exposureUs: int)
      modifies `mode, `votes
      ensures Mode(mode, votes) == Voted(old(Mode(mode, votes)), exposureUs)
    {
      votes := if Opposite(mode, exposureUs) then Min(votes + 1, 255) else 0;
      if votes >= 3 {
        mode := Other(mode);
        votes := 0;
      }
    }

    method Adjust(current: Setting, clipped: bool, ratio: real) returns (next: Setting)
      requires Valid()
      ensures next == Adjusted(limits, gainFirst, current, clipped, ratio)
    {
      next := current;
      if gainFirst && !clipped && ratio >= 0.90 && current.gain < limits.maxGain
         && (ratio > 1.10 || current.exposureUs > limits.minUs) {
        next := next.(gain := Min(current.gain + 20, limits.maxGain));
      } else if clipped || !(0.90 <= ratio <= 1.10) {
        if !gainFirst && ratio < 1.0 && current.exposureUs <= 250000 && current.gain > limits.minGain {
          next := next.(gain := Max(current.gain - 30, limits.minGain));
        } else {
          next := next.(exposureUs := Scaled(limits, current, ratio));
          if ratio > 1.0 && current.exposureUs >= limits.maxUs {
            next := next.(gain := Min(current.gain + 20, limits.maxGain));
          } else if ratio < 1.0 && current.exposureUs <= limits.minUs {
            next := next.(gain := Max(current.gain - 30, limits.minGain));
          }
        }
      }
    }

    method Observe(current: Setting, s: Stats) returns (next: Setting)
      requires Valid()
      modifies `mode, `votes
      ensures next == Next(limits, gainFirst, current, s)
      ensures Mode(mode, votes) == Voted(old(Mode(mode, votes)), current.exposureUs)
      ensures limits.Permits(next)
    {
      Vote(current.exposureUs);
      var ratio := Ratio(limits, s);
      next := Adjust(current, Clipped(s), ratio);
      next := Setting(Clamp(next.exposureUs, limits.minUs, limits.maxUs), Clamp(next.gain, limits.minGain, limits.maxGain));
    }
  }

  // ---------------------------------------------------------------- convergence

  const BLACK := Stats(0, 0.0)

  /** How far a setting is from the brightest permitted one. */
  function Darkness(l: Limits, s: Setting): int {
    (l.maxUs - s.exposureUs) + (l.maxGain - s.gain)
  }

  /** How far a setting is from the darkest permitted one. */
  function Brightness(l: Limits, s: Setting): int {
    (s.exposureUs - l.minUs) + (s.gain - l.minGain)
  }

  /** A black frame moves every setting closer to the brightest one. */
  lemma BlackBrightens(l: Limits, gainFirst: bool, s: Setting)
    requires l.Valid() && l.target >= 2 && l.Permits(s)
    ensures var n := Next(l, gainFirst, s, BLACK);
            && l.Permits(n)
            && (Darkness(l, s) > 0 ==> 0 <= Darkness(l, n) < Darkness(l, s))
            && (Darkness(l, s) == 0 ==> n == s)
  {
    BlackAdjusted(l, gainFirst, s);
    if s.exposureUs < l.maxUs {
      assert Min(2 * s.exposureUs, l.maxUs) > s.exposureUs;
    }
  }

  lemma BlackAdjusted(l: Limits, gainFirst: bool, s: Setting)
    requires l.Valid() && l.target >= 2 && l.Permits(s)
    ensures var n := Next(l, gainFirst, s, BLACK);
            if gainFirst && s.gain < l.maxGain then n == s.(gain := Min(s.gain + 20, l.maxGain))
            else && Min(2 * s.exposureUs, l.maxUs) <= n.exposureUs <= l.maxUs
                 && n.gain == if s.exposureUs >= l.maxUs then Min(s.gain + 20, l.maxGain) else s.gain
  {
    BlackRatio(l);
    if gainFirst && s.gain < l.maxGain {
      GainRaised(l, s, Ratio(l, BLACK));
    } else {
      ExposureRaised(l, gainFirst, s, Ratio(l, BLACK));
    }
  }

  lemma GainRaised(l: Limits, s: Setting, ratio: real)
    requires l.Valid() && l.Permits(s) && ratio >= 2.0 && s.gain < l.maxGain
    ensures Adjusted(l, true, s, false, ratio) == s.(gain := Min(s.gain + 20, l.maxGain))
  {
  }

  lemma ExposureRaised(l: Limits, gainFirst: bool, s: Setting, ratio: real)
    requires l.Valid() && l.Permits(s) && ratio >= 2.0 && !(gainFirst && s.gain < l.maxGain)
    ensures var w := Adjusted(l, gainFirst, s, false, ratio);
            && Min(2 * s.exposureUs, l.maxUs) <= w.exposureUs <= l.maxUs
            && w.gain == if s.exposureUs >= l.maxUs then Min(s.gain + 20, l.maxGain) else s.gain
  {
    Grows(s.exposureUs, ratio);
    assert Min(2 * s.exposureUs, l.maxUs) <= Scaled(l, s, ratio) <= l.maxUs;
  }

  lemma BlackRatio(l: Limits)
    requires l.target >= 2
    ensures Ratio(l, BLACK) >= 2.0
  {
    assert l.target as real / 1.0 == l.target as real;
  }

  lemma Grows(us: int, ratio: real)
    requires us >= 1 && ratio >= 2.0
    ensures RoundHalfAway(us as real * ratio) >= 2 * us
  {
    Scale(us as real, 2.0, ratio);
    RoundAtLeast(us as real * ratio, 2 * us);
  }

  lemma RoundAtLeast(x: real, n: nat)
    requires x >= n as real
    ensures RoundHalfAway(x) >= n
  {
  }

  /** A clipped frame moves every setting closer to the darkest one. */
  lemma ClippingDarkens(l: Limits, gainFirst: bool, s: Setting, clipped: Stats)
    requires l.Valid() && l.Permits(s) && Clipped(clipped)
    ensures var n := Next(l, gainFirst, s, clipped);
            && l.Permits(n)
            && (Brightness(l, s) > 0 ==> 0 <= Brightness(l, n) < Brightness(l, s))
            && (Brightness(l, s) == 0 ==> n == s)
  {
    Shrinks(s.exposureUs);
  }

  lemma Shrinks(us: int)
    requires us >= 1
    ensures 0 <= RoundHalfAway(us as real * 0.25) < us
  {
  }

  /** The setting after `n` frames that all measure the same, the operator switching gain-first on
      and off at will. */
  function After(l: Limits, gainFirst: nat -> bool, s: Setting, frame: Stats, n: nat): Setting
    requires l.Valid()
  {
    if n == 0 then s else Next(l, gainFirst(n - 1), After(l, gainFirst, s, frame, n - 1), frame)
  }

  lemma BlackStep(l: Limits, gainFirst: bool, s: Setting, distance: int)
    requires l.Valid() && l.target >= 2 && l.Permits(s) && 0 <= Darkness(l, s) <= distance
    ensures var n := Next(l, gainFirst, s, BLACK);
            l.Permits(n) && 0 <= Darkness(l, n) <= Max(0, distance - 1)
  {
    BlackBrightens(l, gainFirst, s);
  }

  lemma {:induction false} BlackConverges(l: Limits, gainFirst: nat -> bool, s: Setting, n: nat)
    requires l.Valid() && l.target >= 2 && l.Permits(s)
    ensures var t := After(l, gainFirst, s, BLACK, n);
            && l.Permits(t)
            && 0 <= Darkness(l, t) <= Max(0, Darkness(l, s) - n)
  {
    if n > 0 {
      BlackConverges(l, gainFirst, s, n - 1);
      var t := After(l, gainFirst, s, BLACK, n - 1);
      BlackStep(l, gainFirst(n - 1), t, Max(0, Darkness(l, s) - (n - 1)));
    }
  }

  /** From any permitted setting, repeated black frames reach maximum exposure and maximum gain,
      and stay there. */
  lemma BlackReachesMaximum(l: Limits, gainFirst: nat -> bool, s: Setting, n: nat)
    requires l.Valid() && l.target >= 2 && l.Permits(s)
    requires n >= Darkness(l, s)
    ensures After(l, gainFirst, s, BLACK, n) == Setting(l.maxUs, l.maxGain)
  {
    BlackConverges(l, gainFirst, s, n);
  }

  lemma ClippingStep(l: Limits, gainFirst: bool, s: Setting, clipped: Stats, distance: int)
    requires l.Valid() && l.Permits(s) && Clipped(clipped) && 0 <= Brightness(l, s) <= distance
    ensures var n := Next(l, gainFirst, s, clipped);
            l.Permits(n) && 0 <= Brightness(l, n) <= Max(0, distance - 1)
  {
    ClippingDarkens(l, gainFirst, s, clipped);
  }

  lemma {:induction false} ClippingConverges(l: Limits, gainFirst: nat -> bool, s: Setting, clipped: Stats, n: nat)
    requires l.Valid() && l.Permits(s) && Clipped(clipped)
    ensures var t := After(l, gainFirst, s, clipped, n);
            && l.Permits(t)
            && 0 <= Brightness(l, t) <= Max(0, Brightness(l, s) - n)
  {
    if n > 0 {
      ClippingConverges(l, gainFirst, s, clipped, n - 1);
      var t := After(l, gainFirst, s, clipped, n - 1);
      ClippingStep(l, gainFirst(n - 1), t, clipped, Max(0, Brightness(l, s) - (n - 1)));
    }
  }

  /** Repeated clipped frames reach minimum exposure and minimum gain, and stay there. */
  lemma ClippingReachesMinimum(l: Limits, gainFirst: nat -> bool, s: Setting, clipped: Stats, n: nat)
    requires l.Valid() && l.Permits(s) && Clipped(clipped)
    requires n >= Brightness(l, s)
    ensures After(l, gainFirst, s, clipped, n) == Setting(l.minUs, l.minGain)
  {
    ClippingConverges(l, gainFirst, s, clipped, n);
  }

  /** With the smallest target a black frame looks right: the requirement on the target is exact. */
  lemma TargetOneSticks(l: Limits, gainFirst: bool)
    requires l.Valid()
    ensures (forall t :: l.Permits(t) && t != Setting(l.maxUs, l.maxGain) ==> Next(l, gainFirst, t, BLACK) != t)
            <==> l.target >= 2 || (l.minUs == l.maxUs && l.minGain == l.maxGain)
  {
    if l.target >= 2 {
      forall t | l.Permits(t) && t != Setting(l.maxUs, l.maxGain) ensures Next(l, gainFirst, t, BLACK) != t {
        BlackBrightens(l, gainFirst, t);
      }
    } else {
      assert Ratio(l, BLACK) == 1.0;
      var t := Setting(l.minUs, l.minGain);
      assert l.Permits(t) && Next(l, gainFirst, t, BLACK) == t;
    }
  }

  // ---------------------------------------------------------------- day and night

  /** The mode after a run of observed exposures; changes of limits and of gain-first leave it alone. */
  function ModeAfter(start: LightMode, exposures: seq<int>): Mode {
    if exposures == [] then Mode(start, 0)
    else Voted(ModeAfter(start, exposures[..|exposures| - 1]), exposures[|exposures| - 1])
  }

  /** The pending votes are the last observed exposures, all for the other mode, and fewer than
      three; whatever they voted against has held for as long. */
  lemma {:induction false} VotesAreEvidence(start: LightMode, exposures: seq<int>)
    ensures var m := ModeAfter(start, exposures);
            && m.votes < 3 && m.votes <= |exposures|
            && (forall k :: |exposures| - m.votes <= k < |exposures| ==> Opposite(m.mode, exposures[k]))
            && (forall k :: |exposures| - m.votes <= k <= |exposures| ==> ModeAfter(start, exposures[..k]).mode == m.mode)
  {
    if exposures != [] {
      var front := exposures[..|exposures| - 1];
      VotesAreEvidence(start, front);
      var m := ModeAfter(start, exposures);
      forall k | |exposures| - m.votes <= k <= |exposures| ensures ModeAfter(start, exposures[..k]).mode == m.mode {
        if k < |exposures| {
          assert exposures[..k] == front[..k];
        } else {
          assert exposures[..k] == exposures;
        }
      }
    } else {
      assert exposures[..0] == exposures;
    }
  }

  /** Observation `k` found the mode of observation `n` and spoke for the other one. */
  predicate SpeaksAgainst(start: LightMode, exposures: seq<int>, k: nat, n: nat)
    requires k <= n < |exposures|
  {
    var mode := ModeAfter(start, exposures[..n]).mode;
    && ModeAfter(start, exposures[..k]).mode == mode
    && (if mode.Day? then exposures[k] >= 1000000 else exposures[k] <= 250000)
  }

  lemma StepOf(start: LightMode, exposures: seq<int>, n: nat)
    requires n < |exposures|
    ensures ModeAfter(start, exposures[..n + 1]) == Voted(ModeAfter(start, exposures[..n]), exposures[n])
  {
    assert exposures[..n + 1][..n] == exposures[..n];
  }

  lemma FlipNeedsThree(start: LightMode, exposures: seq<int>, n: nat, k: nat)
    requires n < |exposures| && n - 2 <= k <= n
    requires ModeAfter(start, exposures[..n]).mode != ModeAfter(start, exposures[..n + 1]).mode
    ensures n >= 2 && SpeaksAgainst(start, exposures, k, n)
  {
    var front := exposures[..n];
    StepOf(start, exposures, n);
    VotesAreEvidence(start, front);
    assert ModeAfter(start, front).votes == 2;
    assert exposures[..k] == front[..k];
    if k < n {
      assert exposures[k] == front[k];
    }
  }

  lemma ThreeVotesFlip(start: LightMode, exposures: seq<int>, n: nat)
    requires 2 <= n < |exposures|
    requires SpeaksAgainst(start, exposures, n - 2, n) && SpeaksAgainst(start, exposures, n - 1, n)
    requires SpeaksAgainst(start, exposures, n, n)
    ensures ModeAfter(start, exposures[..n]).mode != ModeAfter(start, exposures[..n + 1]).mode
  {
    StepOf(start, exposures, n - 2);
    StepOf(start, exposures, n - 1);
    StepOf(start, exposures, n);
    VotesAreEvidence(start, exposures[..n - 2]);
    VotesAreEvidence(start, exposures[..n - 1]);
    VotesAreEvidence(start, exposures[..n]);
  }

  /** The mode changes with an observation exactly when it and the two before it all speak for the
      other mode and found the same mode: day turns to night after three exposures of at least a
      second, night to day after three of at most a quarter, and changes are at least three
      observations apart. */
  lemma FlipsAfterThreeVotes(start: LightMode, exposures: seq<int>, n: nat)
    requires n < |exposures|
    ensures ModeAfter(start, exposures[..n]).mode != ModeAfter(start, exposures[..n + 1]).mode
            <==> n >= 2 && forall k :: n - 2 <= k <= n ==> SpeaksAgainst(start, exposures, k, n)
  {
    if ModeAfter(start, exposures[..n]).mode != ModeAfter(start, exposures[..n + 1]).mode {
      FlipNeedsThree(start, exposures, n, n);
      forall k | n - 2 <= k <= n ensures SpeaksAgainst(start, exposures, k, n) {
        FlipNeedsThree(start, exposures, n, k);
      }
    } else if n >= 2 && forall k :: n - 2 <= k <= n ==> SpeaksAgainst(start, exposures, k, n) {
      assert SpeaksAgainst(start, exposures, n - 2, n);
      ThreeVotesFlip(start, exposures, n);
    }
  }
}
