/** The image scheduler (crates/autopiercam-chatstronomy/src/triggers.rs). `now` is the monotonic
    clock in milliseconds, `wall` the settable wall clock in Unix milliseconds. */
module Triggers {
  import opened Arithmetic
  import opened SharingTypes

  datatype Context = Context(telescopeId: int, telescopeName: string, targetName: Option<string>)

  /** A parsed event; the last two kinds are known only together with a context. */
  datatype TelescopeEvent =
    | SlewStarted
    | SlewCompleted
    | SequenceStarted
    | SequenceFinished
    | Action(description: string)
    | Operation(description: string, phase: string)

  datatype Frame = Frame(
    session: nat,
    sequence: nat,
    conservativeStart: Option<nat>,
    capturedAt: nat,
    exposureUs: Option<int>)

  datatype Burst = Burst(
    kind: string,
    summary: string,
    telescope: Option<TelescopeEvent>,
    context: Option<Context>,
    total: nat,
    session: nat,
    afterSequence: nat,
    remaining: nat,
    due: nat,
    deadline: nat)

  datatype SlewFinish = SlewFinish(
    session: nat,
    afterSequence: nat,
    afterUnixMs: nat,
    deadline: nat,
    context: Option<Context>)

  datatype Caption =
    | Plain(summary: string)
    | AfterEvent(event: TelescopeEvent, index: nat, total: nat)
    | PostSlew

  datatype Image = Image(kind: string, caption: Caption, context: Option<Context>)

  /** The scheduler's fields, as a value. */
  datatype Schedule = Schedule(
    rules: TriggerRules,
    burst: Option<Burst>,
    slewFinish: Option<SlewFinish>,
    finishReady: bool,
    lastQueuedAt: Option<nat>,
    lastQueued: Option<(nat, nat)>)
  {
    predicate WellFormed() {
      && rules.burstCount >= 1
      && (burst.Some? ==> 1 <= burst.value.remaining <= burst.value.total)
    }
  }

  function SpacingMs(rules: TriggerRules): nat {
    rules.spacingSeconds * 1000
  }

  predicate SameSource(left: Option<Context>, right: Option<Context>) {
    match (left, right)
    case (None, None) => true
    case (Some(l), Some(r)) => l.telescopeId == r.telescopeId
    case _ => false
  }

  /** Elapsed monotonic time, zero when `at` lies ahead. */
  function Since(now: nat, at: nat): nat {
    if now >= at then now - at else 0
  }

  // ---------------------------------------------------------------- specification functions

  function NewBurst(s: Schedule, kind: string, summary: string, frame: Frame, now: nat, waitNew: bool): Burst
    requires s.WellFormed()
  {
    Burst(kind, summary, None, None, s.rules.burstCount, frame.session,
          if waitNew then frame.sequence else if frame.sequence > 0 then frame.sequence - 1 else 0,
          s.rules.burstCount, now, now + (180 + s.rules.spacingSeconds * (s.rules.burstCount - 1)) * 1000)
  }

  /** A running burst absorbs further triggers. */
  function Triggered(s: Schedule, kind: string, summary: string, frame: Frame, now: nat, waitNew: bool): Schedule
    requires s.WellFormed()
  {
    if s.burst.Some? then s else s.(burst := Some(NewBurst(s, kind, summary, frame, now, waitNew)))
  }

  function Expired(s: Schedule, frame: Frame, now: nat): Schedule {
    if s.burst.Some? && (s.burst.value.session != frame.session || now >= s.burst.value.deadline)
    then s.(burst := None) else s
  }

  /** How long a slew completion waits for its image, from the exposure time of the current frame. */
  function FinishMs(frame: Frame): nat {
    var us := if frame.exposureUs.Some? && frame.exposureUs.value >= 0 then frame.exposureUs.value else 60000000;
    var seconds := (us + 999999) / 1000000 * 4 + 180;
    (if seconds < 300 then 300 else if seconds > 3600 then 3600 else seconds) * 1000
  }

  function Completed(s: Schedule, context: Option<Context>, frame: Frame, now: nat, wall: nat): Schedule {
    if s.slewFinish.Some? && now < s.slewFinish.value.deadline && !SameSource(s.slewFinish.value.context, context) then s
    else if s.slewFinish.None? || s.slewFinish.value.session != frame.session || now >= s.slewFinish.value.deadline
    then s.(slewFinish := Some(SlewFinish(frame.session, frame.sequence, wall, now + FinishMs(frame), context)))
    else s
  }

  predicate Known(event: TelescopeEvent, context: Option<Context>) {
    context.Some? || !(event.Action? || event.Operation?)
  }

  function Started(s: Schedule, event: TelescopeEvent, context: Option<Context>): Schedule {
    if event.SlewStarted? && (s.slewFinish.None? || SameSource(s.slewFinish.value.context, context))
    then s.(slewFinish := None) else s
  }

  predicate Relabels(s: Schedule, event: TelescopeEvent, context: Option<Context>) {
    && s.burst.Some? && s.burst.value.context.None? && context.None?
    && s.burst.value.telescope.Some? && s.burst.value.telescope.value != event
  }

  function Labelled(s: Schedule, event: TelescopeEvent, context: Option<Context>, frame: Frame, now: nat): Schedule
    requires s.WellFormed()
  {
    var e := Expired(s, frame, now);
    if e.burst.None?
    then e.(burst := Some(NewBurst(e, "telescope_event", "", frame, now, true).(telescope := Some(event), context := context)))
    else if Relabels(e, event, context)
    then e.(burst := Some(e.burst.value.(telescope := Some(event), afterSequence := frame.sequence)))
    else e
  }

  function TelescopeTriggered(s: Schedule, event: TelescopeEvent, context: Option<Context>, frame: Frame,
                              now: nat, wall: nat): Schedule
    requires s.WellFormed()
  {
    if !Known(event, context) then s
    else if event.SlewCompleted? then Completed(s, context, frame, now, wall)
    else Labelled(Started(s, event, context), event, context, frame, now)
  }

  predicate FinishUsable(s: Schedule, f: Frame, now: nat, wall: nat) {
    && s.slewFinish.Some?
    && f.sequence > s.slewFinish.value.afterSequence
    && (s.lastQueuedAt.Some? ==> Since(now, s.lastQueuedAt.value) >= SpacingMs(s.rules))
    && s.lastQueued != Some((f.session, f.sequence))
    && f.conservativeStart.Some?
    && s.slewFinish.value.afterUnixMs < f.conservativeStart.value <= wall
    && wall - f.capturedAt <= 120000
    && f.capturedAt <= wall
  }

  predicate BurstUsable(s: Schedule, f: Frame, now: nat, wall: nat) {
    && s.burst.Some?
    && now >= s.burst.value.due
    && s.lastQueued != Some((f.session, f.sequence))
    && f.sequence > s.burst.value.afterSequence
    && wall - f.capturedAt <= 120000
    && f.capturedAt <= wall + 30000
  }

  function BurstImage(b: Burst): Image
    requires b.remaining <= b.total
  {
    Image(b.kind,
          if b.telescope.Some? then AfterEvent(b.telescope.value, b.total - b.remaining + 1, b.total) else Plain(b.summary),
          b.context)
  }

  /** The schedule after dropping what belongs to another capture session or is too late. */
  function Refreshed(s: Schedule, f: Frame, now: nat): Schedule {
    var s0 := s.(finishReady := false);
    if s0.slewFinish.Some? && (s0.slewFinish.value.session != f.session || now >= s0.slewFinish.value.deadline)
    then s0.(slewFinish := None) else s0
  }

  function WithPeriodic(s: Schedule, f: Frame, now: nat, periodicDue: bool): Schedule
    requires s.WellFormed()
  {
    if periodicDue && s.burst.None?
    then s.(burst := Some(NewBurst(s, "periodic", "Scheduled pier-camera image", f, now, false).(remaining := 1)))
    else s
  }

  function Due(s: Schedule, frame: Option<Frame>, now: nat, wall: nat, periodicDue: bool): (r: (Schedule, Option<Image>))
    requires s.WellFormed()
  {
    if frame.None? then (s.(finishReady := false, burst := None, slewFinish := None), None)
    else
      var f := frame.value;
      var s1 := Refreshed(s, f, now);
      if FinishUsable(s1, f, now, wall)
      then (s1.(finishReady := true), Some(Image("telescope_event", PostSlew, s1.slewFinish.value.context)))
      else
        var s2 := WithPeriodic(Expired(s1, f, now), f, now, periodicDue);
        (s2, if BurstUsable(s2, f, now, wall) then Some(BurstImage(s2.burst.value)) else None)
  }

  function QueuedBurst(s: Schedule, f: Frame, now: nat): Option<Burst>
    requires s.WellFormed()
  {
    if s.burst.None? || s.burst.value.remaining == 1 then None
    else Some(s.burst.value.(remaining := s.burst.value.remaining - 1, afterSequence := f.sequence,
                             due := now + SpacingMs(s.rules)))
  }

  function ContextOf(b: Option<Burst>): Option<Context> {
    if b.Some? then b.value.context else None
  }

  function Queued(s: Schedule, f: Frame, now: nat): Schedule
    requires s.WellFormed()
  {
    var q := s.(lastQueued := Some((f.session, f.sequence)), lastQueuedAt := Some(now));
    if s.finishReady then
      var finished := if s.slewFinish.Some? then s.slewFinish.value.context else None;
      var dropBurst := s.burst.Some? && s.burst.value.telescope == Some(SlewStarted)
                       && SameSource(ContextOf(s.burst), finished);
      q.(finishReady := false, slewFinish := None, burst := if dropBurst then None else s.burst)
    else q.(burst := QueuedBurst(s, f, now))
  }

  // ---------------------------------------------------------------- UTC slots

  /** Wall times and slots are 64-bit; a boundary past the last one is held at it. */
  const MAX_MS := 0xFFFF_FFFF_FFFF_FFFF

  function Clamped(x: nat): nat {
    if x > MAX_MS then MAX_MS else x
  }

  function NextBoundary(intervalMs: nat, wall: nat): nat {
    if intervalMs == 0 then MAX_MS else Clamped((wall / intervalMs + 1) * intervalMs)
  }

  datatype Slots = Slots(intervalMs: nat, nextMs: nat)

  function Configured(p: Slots, minutes: nat, wall: nat): Slots {
    var interval := minutes * 60000;
    if interval != p.intervalMs then Slots(interval, NextBoundary(interval, wall)) else p
  }

  predicate SlotDue(p: Slots, wall: nat) {
    p.intervalMs != 0 && wall >= p.nextMs
  }

  function Polled(p: Slots, wall: nat): Slots {
    if SlotDue(p, wall) then p.(nextMs := NextBoundary(p.intervalMs, wall)) else p
  }

  class PeriodicSchedule {
    var intervalMs: nat
    var nextMs: nat

    ghost function Value(): Slots
      reads this
    {
      Slots(intervalMs, nextMs)
    }

    constructor ()
      ensures Value() == Slots(0, 0)
    {
      intervalMs, nextMs := 0, 0;
    }

    method Configure(minutes: nat, wall: nat)
      modifies this
      ensures Value() == Configured(old(Value()), minutes, wall)
    {
      var interval := minutes * 60000;
      if interval != intervalMs {
        intervalMs := interval;
        nextMs := NextBoundary(intervalMs, wall);
      }
    }

    method Due(wall: nat) returns (due: bool)
      modifies this
      ensures due == SlotDue(old(Value()), wall)
      ensures Value() == Polled(old(Value()), wall)
      ensures due && wall < MAX_MS ==> wall < nextMs
    {
      if intervalMs == 0 || wall < nextMs {
        return false;
      }
      nextMs := NextBoundary(intervalMs, wall);
      BoundaryAfter(intervalMs, wall);
      return true;
    }
  }

  /** The next boundary starts the following UTC slot: it is a multiple of the interval, past `wall`
      by no more than one interval. */
  lemma BoundaryAfter(intervalMs: nat, wall: nat)
    ensures wall < MAX_MS ==> wall < NextBoundary(intervalMs, wall)
    ensures intervalMs > 0 ==> NextBoundary(intervalMs, wall) <= wall + intervalMs
    ensures intervalMs > 0 && NextBoundary(intervalMs, wall) < MAX_MS ==> NextBoundary(intervalMs, wall) % intervalMs == 0
  {
    if intervalMs > 0 {
      assert wall == wall / intervalMs * intervalMs + wall % intervalMs;
      assert (wall / intervalMs + 1) * intervalMs == wall / intervalMs * intervalMs + intervalMs;
      MultipleMod(wall / intervalMs + 1, intervalMs);
    }
  }

  lemma MultipleMod(n: nat, d: nat)
    requires d > 0
    ensures n * d % d == 0
  {
    DivAtLeast(n * d, d, n);
    DivAtMost(n * d, d, n);
    assert n * d / d == n;
  }

  // ---------------------------------------------------------------- the scheduler

  class Scheduler {
    const rules: TriggerRules
    var slewFinish: Option<SlewFinish>
    var finishReady: bool
    var lastQueuedAt: Option<nat>
    var burst: Option<Burst>
    var lastQueued: Option<(nat, nat)>

    ghost function Value(): Schedule
      reads this
    {
      Schedule(rules, burst, slewFinish, finishReady, lastQueuedAt, lastQueued)
    }

    constructor (rules: TriggerRules)
      requires rules.burstCount >= 1
      ensures Value() == Schedule(rules, None, None, false, None, None) && Value().WellFormed()
    {
      this.rules := rules;
      slewFinish, finishReady, lastQueuedAt, burst, lastQueued := None, false, None, None, None;
    }

    method Trigger(kind: string, summary: string, frame: Frame, now: nat, waitNew: bool)
      requires Value().WellFormed()
      modifies this`burst
      ensures Value() == Triggered(old(Value()), kind, summary, frame, now, waitNew) && Value().WellFormed()
    {
      if burst.Some? {
        return;
      }
      var after := if waitNew then frame.sequence else if frame.sequence > 0 then frame.sequence - 1 else 0;
      burst := Some(Burst(kind, summary, None, None, rules.burstCount, frame.session, after, rules.burstCount, now,
                          now + (180 + rules.spacingSeconds * (rules.burstCount - 1)) * 1000));
    }

    /** The completion half of a telescope event. */
    method Complete(context: Option<Context>, frame: Frame, now: nat, wall: nat)
      modifies this`slewFinish
      ensures Value() == Completed(old(Value()), context, frame, now, wall)
    {
      if slewFinish.Some? && now < slewFinish.value.deadline && !SameSource(slewFinish.value.context, context) {
        // The slot is taken until its deadline, except for the telescope that took it.
        return;
      }
      // A request of this session that is still waiting keeps its deadline.
      if slewFinish.None? || slewFinish.value.session != frame.session || now >= slewFinish.value.deadline {
        slewFinish := Some(SlewFinish(frame.session, frame.sequence, wall, now + FinishMs(frame), context));
      }
    }

    /** The half of a telescope event that concerns the burst. */
    method Relabel(event: TelescopeEvent, context: Option<Context>, frame: Frame, now: nat)
      requires Value().WellFormed()
      modifies this`burst
      ensures Value() == Labelled(old(Value()), event, context, frame, now) && Value().WellFormed()
    {
      if burst.Some? && (burst.value.session != frame.session || now >= burst.value.deadline) {
        burst := None;
      }
      if burst.None? {
        Trigger("telescope_event", "", frame, now, true);
        burst := Some(burst.value.(telescope := Some(event), context := context));
      } else if burst.value.context.None? && context.None? && burst.value.telescope.Some? && burst.value.telescope.value != event {
        burst := Some(burst.value.(telescope := Some(event), afterSequence := frame.sequence));
      }
    }

    method TelescopeTrigger(event: TelescopeEvent, context: Option<Context>, frame: Frame, now: nat, wall: nat)
      requires Value().WellFormed()
      modifies this
      ensures Value() == TelescopeTriggered(old(Value()), event, context, frame, now, wall) && Value().WellFormed()
    {
      if context.None? && (event.Action? || event.Operation?) {
        return;
      }
      if event.SlewCompleted? {
        Complete(context, frame, now, wall);
        return;
      }
      if event.SlewStarted? && (slewFinish.None? || SameSource(slewFinish.value.context, context)) {
        slewFinish := None;
      }
      Relabel(event, context, frame, now);
    }

    /** The current frame may serve the pending slew completion. */
    predicate FinishReadyFor(f: Frame, now: nat, wall: nat)
      reads this
      ensures FinishReadyFor(f, now, wall) == FinishUsable(Value(), f, now, wall)
    {
      FinishUsable(Schedule(rules, burst, slewFinish, finishReady, lastQueuedAt, lastQueued), f, now, wall)
    }

    /** The current frame may serve the running burst. */
    predicate BurstReadyFor(f: Frame, now: nat, wall: nat)
      reads this
      ensures BurstReadyFor(f, now, wall) == BurstUsable(Value(), f, now, wall)
    {
      BurstUsable(Schedule(rules, burst, slewFinish, finishReady, lastQueuedAt, lastQueued), f, now, wall)
    }

    /** The burst half of a poll. */
    method PollBurst(f: Frame, now: nat, wall: nat, periodicDue: bool) returns (image: Option<Image>)
      requires Value().WellFormed()
      modifies this
      ensures Value() == WithPeriodic(Expired(old(Value()), f, now), f, now, periodicDue)
      ensures image == if BurstUsable(Value(), f, now, wall) then Some(BurstImage(Value().burst.value)) else None
      ensures Value().WellFormed()
    {
      if burst.Some? && (burst.value.session != f.session || now >= burst.value.deadline) {
        burst := None;
      }
      if periodicDue && burst.None? {
        Trigger("periodic", "Scheduled pier-camera image", f, now, false);
        burst := Some(burst.value.(remaining := 1));
      }
      if BurstReadyFor(f, now, wall) {
        return Some(BurstImage(burst.value));
      }
      return None;
    }

    method Poll(frame: Option<Frame>, now: nat, wall: nat, periodic: PeriodicSchedule) returns (image: Option<Image>)
      requires Value().WellFormed()
      modifies this, periodic
      ensures (Value(), image) == Due(old(Value()), frame, now, wall, SlotDue(old(periodic.Value()), wall))
      ensures periodic.Value() == Polled(old(periodic.Value()), wall)
      ensures Value().WellFormed()
    {
      var periodicDue := periodic.Due(wall);
      finishReady := false;
      if frame.None? {
        burst, slewFinish := None, None;
        return None;
      }
      var f := frame.value;
      if slewFinish.Some? && (slewFinish.value.session != f.session || now >= slewFinish.value.deadline) {
        slewFinish := None;
      }
      assert Value() == Refreshed(old(Value()), f, now);
      if FinishReadyFor(f, now, wall) {
        finishReady := true;
        return Some(Image("telescope_event", PostSlew, slewFinish.value.context));
      }
      image := PollBurst(f, now, wall, periodicDue);
    }

    method MarkQueued(frame: Frame, now: nat)
      requires Value().WellFormed()
      modifies this
      ensures Value() == Queued(old(Value()), frame, now) && Value().WellFormed()
    {
      lastQueued := Some((frame.session, frame.sequence));
      lastQueuedAt := Some(now);
      if finishReady {
        finishReady := false;
        var finished := slewFinish;
        slewFinish := None;
        if burst.Some? && burst.value.telescope == Some(SlewStarted)
           && SameSource(burst.value.context, if finished.Some? then finished.value.context else None) {
          burst := None;
        }
        return;
      }
      if burst.Some? {
        var left := burst.value.remaining - 1;
        burst := if left == 0 then None
                 else Some(burst.value.(remaining := left, afterSequence := frame.sequence, due := now + SpacingMs(rules)));
      }
    }
  }
}
