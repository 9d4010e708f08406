/** The bounded history of Hub observations and the text laid over frames
    (crates/autopiercam-chatstronomy/src/observation.rs). */
module Observation {
  import opened SharingTypes

  /** A time stamp after parsing; None is text that is not a UTC time. */
  type Stamp = Option<int>

  /** An identifier, and whether it is spelled as a UUID. */
  datatype Id = Id(value: nat, wellFormed: bool)

  /** A name, and whether its length and characters are admissible. */
  datatype Name = Name(text: string, wellFormed: bool)

  datatype Target = Target(runId: Id, name: Name, startedAt: Option<Stamp>)
  datatype Temperature = Temperature(celsius: real, observedAt: Stamp, validUntil: Stamp)
  datatype Temperatures = Temperatures(focuser: Option<Temperature>, external: Option<Temperature>)
  datatype CompletedExposures = CompletedExposures(count: nat, light: bool, saved: bool, asOf: Stamp)

  function Window(start: Stamp, end: Stamp, max: int): Option<(int, int)> {
    if start.Some? && end.Some? && end.value > start.value && end.value - start.value <= max
    then Some((start.value, end.value)) else None
  }

  datatype ObservationState = ObservationState(
    telescopeId: int,
    telescopeName: Option<Name>,
    stateEpoch: Option<Id>,
    revision: Option<nat>,
    observedAt: Stamp,
    validUntil: Stamp,
    available: bool,
    target: Option<Target>,
    temperatures: Option<Temperatures>,
    completedExposures: Option<CompletedExposures>)
  {
    predicate Valid() {
      var w := Window(observedAt, validUntil, 30000);
      && w.Some?
      && 0 < telescopeId <= MAX_INTEGER
      && (telescopeName.Some? ==> telescopeName.value.wellFormed)
      && (stateEpoch.Some? ==> stateEpoch.value.wellFormed)
      && (revision.Some? ==> revision.value <= MAX_INTEGER)
      && if !available then
           target.None? && completedExposures.None?
           && (temperatures.Some? ==> temperatures.value.focuser.None? && temperatures.value.external.None?)
         else
           && stateEpoch.Some? && revision.Some?
           && (target.Some? ==> ValidTarget(target.value, w.value.0))
           && (temperatures.Some? ==>
                 && (temperatures.value.focuser.Some? ==> ValidTemperature(temperatures.value.focuser.value, w.value.0))
                 && (temperatures.value.external.Some? ==> ValidTemperature(temperatures.value.external.value, w.value.0)))
           && (completedExposures.Some? ==> ValidCount(completedExposures.value, target, w.value.0))
    }
  }

  predicate ValidTarget(t: Target, observed: int) {
    && t.runId.wellFormed && t.name.wellFormed
    && (t.startedAt.Some? ==> t.startedAt.value.Some? && t.startedAt.value.value <= observed)
  }

  predicate ValidTemperature(t: Temperature, observed: int) {
    && -273.15 <= t.celsius <= 1000.0
    && Window(t.observedAt, t.validUntil, 120000).Some?
    && t.observedAt.value <= observed
  }

  /** A count needs the observed start of the visit it counts. */
  predicate ValidCount(c: CompletedExposures, target: Option<Target>, observed: int) {
    && c.count <= MAX_INTEGER && c.light && c.saved
    && c.asOf.Some?
    && target.Some? && target.value.startedAt.Some? && target.value.startedAt.value.Some?
    && target.value.startedAt.value.value <= c.asOf.value <= observed
  }

  datatype Sample = Sample(state: ObservationState, received: int, expires: nat)

  datatype Diagnostic = Saved(count: nat) | Degrees(source: TemperatureSource, celsius: real)
  datatype Line = TargetLine(name: string) | Diagnostics(items: seq<Diagnostic>)

  /** The history's fields, as a value. */
  datatype Log = Log(session: Option<nat>, samples: seq<Sample>)

  const CLEARED := Log(None, [])
  const LIMIT := 128

  // ---------------------------------------------------------------- specification functions

  function Sessioned(h: Log, session: Option<nat>): Log {
    if h.session != session || session.None? then Log(session, []) else h
  }

  /** None sorts before every revision. */
  predicate OlderRevision(a: Option<nat>, b: Option<nat>) {
    b.Some? && (a.None? || a.value < b.value)
  }

  /** A message that would put an older observation after the newest one on record. */
  predicate Replayed(newest: Sample, state: ObservationState, observed: int, nowMs: int)
    requires newest.state.observedAt.Some?
  {
    || observed < newest.state.observedAt.value
    || nowMs < newest.received
    || (newest.state.stateEpoch == state.stateEpoch && OlderRevision(state.revision, newest.state.revision))
  }

  predicate Usable(h: Log) {
    forall i :: 0 <= i < |h.samples| ==> h.samples[i].state.observedAt.Some?
  }

  /** A new epoch, or nothing to observe, drops what is on record. */
  function Kept(samples: seq<Sample>, state: ObservationState): seq<Sample> {
    if samples != [] && (samples[|samples| - 1].state.stateEpoch != state.stateEpoch || !state.available)
    then [] else samples
  }

  function Trimmed(samples: seq<Sample>): seq<Sample> {
    if |samples| > LIMIT then samples[|samples| - LIMIT..] else samples
  }

  function Pushed(h: Log, state: ObservationState, until: int, nowMs: int, now: nat): Log
    requires until > nowMs
  {
    Log(h.session, Trimmed(Kept(h.samples, state) + [Sample(state, nowMs, now + (until - nowMs))]))
  }

  function Accepted(h0: Log, state: ObservationState, options: OverlayOptions, session: Option<nat>, nowMs: int, now: nat): Log
    requires Usable(h0)
  {
    var h := Sessioned(h0, session);
    if session.None? || Some(state.telescopeId) != options.telescopeId || !options.Requested() then h
    else
      var w := Window(state.observedAt, state.validUntil, 30000);
      if w.None? then CLEARED
      else if h.samples != [] && Replayed(h.samples[|h.samples| - 1], state, w.value.0, nowMs) then h
      else if !state.Valid() || w.value.0 > nowMs || w.value.1 <= nowMs then CLEARED
      else Pushed(h, state, w.value.1, nowMs, now)
  }

  /** The newest sample received no later than the capture. */
  function LatestAt(samples: seq<Sample>, captureMs: int): Option<Sample> {
    if samples == [] then None
    else if samples[|samples| - 1].received <= captureMs then Some(samples[|samples| - 1])
    else LatestAt(samples[..|samples| - 1], captureMs)
  }

  function Chosen(t: Temperatures, source: TemperatureSource): Option<Temperature> {
    match source
    case Off => None
    case Focuser => t.focuser
    case External => t.external
  }

  /** None as soon as the chosen reading's end is not a time. */
  function Readings(state: ObservationState, options: OverlayOptions, captureMs: int): Option<seq<Diagnostic>> {
    var counts := if options.exposureCount && state.completedExposures.Some?
                  then [Saved(state.completedExposures.value.count)] else [];
    var t := if state.temperatures.Some? then Chosen(state.temperatures.value, options.temperature) else None;
    if t.None? then Some(counts)
    else if t.value.validUntil.None? then None
    else if captureMs < t.value.validUntil.value then Some(counts + [Degrees(options.temperature, t.value.celsius)])
    else Some(counts)
  }

  function Lines(state: ObservationState, options: OverlayOptions, captureMs: int): Option<seq<Line>> {
    var head := if options.target && state.target.Some? then [TargetLine(state.target.value.name.text)] else [];
    var diagnostics := Readings(state, options, captureMs);
    if diagnostics.None? then None
    else
      var lines := head + (if diagnostics.value != [] then [Diagnostics(diagnostics.value)] else []);
      if lines == [] then None else Some(lines)
  }

  function OverlayOf(h: Log, options: OverlayOptions, session: nat, captureMs: int, now: nat): Option<seq<Line>> {
    var sample := LatestAt(Sessioned(h, Some(session)).samples, captureMs);
    if sample.None? || now >= sample.value.expires || sample.value.state.validUntil.None?
       || captureMs >= sample.value.state.validUntil.value
       || !sample.value.state.available
       || Some(sample.value.state.telescopeId) != options.telescopeId
    then None
    else Lines(sample.value.state, options, captureMs)
  }

  // ---------------------------------------------------------------- the invariant

  predicate SampleOk(x: Sample) {
    && x.state.Valid()
    && x.state.observedAt.value <= x.received < x.state.validUntil.value
  }

  predicate InOrder(x: Sample, y: Sample)
    requires SampleOk(x) && SampleOk(y)
  {
    && x.state.stateEpoch == y.state.stateEpoch
    && x.received <= y.received
    && x.state.observedAt.value <= y.state.observedAt.value
    && !OlderRevision(y.state.revision, x.state.revision)
  }

  /** Valid samples of one epoch, in order of receipt, of observation and of revision. */
  ghost predicate SoundSamples(samples: seq<Sample>) {
    && (forall i :: 0 <= i < |samples| ==> SampleOk(samples[i]))
    && (forall i, j :: 0 <= i < j < |samples| ==> InOrder(samples[i], samples[j]))
  }

  ghost predicate Sound(h: Log) {
    && |h.samples| <= LIMIT
    && (h.samples != [] ==> h.session.Some?)
    && SoundSamples(h.samples)
  }

  // ---------------------------------------------------------------- the class

  class History {
    var session: Option<nat>
    var samples: seq<Sample>

    ghost function Value(): Log
      reads this
    {
      Log(session, samples)
    }

    constructor ()
      ensures Value() == CLEARED
    {
      session, samples := None, [];
    }

    method Clear()
      modifies this
      ensures Value() == CLEARED
    {
      samples := [];
      session := None;
    }

    method Session(current: Option<nat>)
      modifies this
      ensures Value() == Sessioned(old(Value()), current)
    {
      if session != current || current.None? {
        Clear();
        session := current;
      }
    }

    method Accept(state: ObservationState, options: OverlayOptions, current: Option<nat>, nowMs: int, now: nat)
      requires Sound(Value())
      modifies this
      ensures Value() == Accepted(old(Value()), state, options, current, nowMs, now)
      ensures Sound(Value())
    {
      AcceptedSound(Value(), state, options, current, nowMs, now);
      Session(current);
      assert Value() == Sessioned(old(Value()), current);
      if current.None? || Some(state.telescopeId) != options.telescopeId || !options.Requested() {
        return;
      }
      var w := Window(state.observedAt, state.validUntil, 30000);
      if w.None? {
        Clear();
        return;
      }
      var (observed, until) := w.value;
      if samples != [] && Replayed(samples[|samples| - 1], state, observed, nowMs) {
        return;
      }
      if !state.Valid() || observed > nowMs || until <= nowMs {
        Clear();
        return;
      }
      Push(state, until, nowMs, now);
    }

    method Push(state: ObservationState, until: int, nowMs: int, now: nat)
      requires until > nowMs
      modifies this
      ensures Value() == Pushed(old(Value()), state, until, nowMs, now)
    {
      if samples != [] && samples[|samples| - 1].state.stateEpoch != state.stateEpoch {
        samples := [];
      }
      if !state.available {
        samples := [];
      }
      samples := samples + [Sample(state, nowMs, now + (until - nowMs))];
      Trim();
    }

    method Trim()
      modifies this`samples
      ensures samples == Trimmed(old(samples))
    {
      while |samples| > LIMIT
        invariant |samples| <= |old(samples)| && samples == old(samples)[|old(samples)| - |samples|..]
        invariant samples == old(samples) || |samples| >= LIMIT
      {
        samples := samples[1..];
      }
    }

    /** The lines for one state, built up in the order in which they are shown. */
    static method Describe(state: ObservationState, options: OverlayOptions, captureMs: int)
      returns (described: Option<seq<Line>>)
      ensures described == Lines(state, options, captureMs)
    {
      var lines: seq<Line> := [];
      if options.target && state.target.Some? {
        lines := lines + [TargetLine(state.target.value.name.text)];
      }
      ghost var head := if options.target && state.target.Some? then [TargetLine(state.target.value.name.text)] else [];
      assert lines == head;
      var diagnostics: seq<Diagnostic> := [];
      if options.exposureCount && state.completedExposures.Some? {
        diagnostics := diagnostics + [Saved(state.completedExposures.value.count)];
      }
      ghost var counts := if options.exposureCount && state.completedExposures.Some?
                          then [Saved(state.completedExposures.value.count)] else [];
      assert diagnostics == counts;
      if state.temperatures.Some? {
        var reading: Option<Temperature> := None;
        match options.temperature {
          case Off =>
          case Focuser => reading := state.temperatures.value.focuser;
          case External => reading := state.temperatures.value.external;
        }
        assert reading == Chosen(state.temperatures.value, options.temperature);
        if reading.Some? {
          if reading.value.validUntil.None? {
            return None;
          }
          if captureMs < reading.value.validUntil.value {
            diagnostics := diagnostics + [Degrees(options.temperature, reading.value.celsius)];
          }
        }
      }
      assert Readings(state, options, captureMs) == Some(diagnostics);
      if diagnostics != [] {
        lines := lines + [Diagnostics(diagnostics)];
      }
      assert lines == head + if diagnostics != [] then [Diagnostics(diagnostics)] else [];
      described := if lines == [] then None else Some(lines);
    }

    method Overlay(options: OverlayOptions, current: nat, captureMs: int, now: nat) returns (lines: Option<seq<Line>>)
      modifies this
      ensures lines == OverlayOf(old(Value()), options, current, captureMs, now)
      ensures Value() == Sessioned(old(Value()), Some(current))
    {
      Session(Some(current));
      var i := |samples|;
      assert samples[..i] == samples;
      while i > 0 && samples[i - 1].received > captureMs
        invariant i <= |samples| && LatestAt(samples[..i], captureMs) == LatestAt(samples, captureMs)
      {
        assert samples[..i][..i - 1] == samples[..i - 1];
        i := i - 1;
      }
      if i == 0 {
        return None;
      }
      var state := samples[i - 1].state;
      assert LatestAt(samples, captureMs) == Some(samples[i - 1]);
      if now >= samples[i - 1].expires || state.validUntil.None? || captureMs >= state.validUntil.value {
        return None;
      }
      if !state.available || Some(state.telescopeId) != options.telescopeId {
        return None;
      }
      lines := Describe(state, options, captureMs);
    }
  }

  // ---------------------------------------------------------------- what accepting does

  lemma OrderExtends(samples: seq<Sample>, next: Sample)
    requires SoundSamples(samples) && SampleOk(next)
    requires samples != [] ==> InOrder(samples[|samples| - 1], next)
    ensures SoundSamples(samples + [next])
  {
    forall i | 0 <= i < |samples| ensures InOrder(samples[i], next) {
      if i < |samples| - 1 {
        assert InOrder(samples[i], samples[|samples| - 1]);
      }
    }
  }

  lemma TrimmedSound(samples: seq<Sample>)
    requires SoundSamples(samples)
    ensures SoundSamples(Trimmed(samples)) && |Trimmed(samples)| <= LIMIT
  {
  }

  lemma KeptInOrder(samples: seq<Sample>, x: Sample)
    requires SoundSamples(samples) && SampleOk(x)
    requires samples != [] ==> !Replayed(samples[|samples| - 1], x.state, x.state.observedAt.value, x.received)
    ensures SoundSamples(Kept(samples, x.state))
    ensures var kept := Kept(samples, x.state); kept != [] ==> InOrder(kept[|kept| - 1], x)
  {
  }

  lemma ExtendedSound(samples: seq<Sample>, x: Sample)
    requires SoundSamples(samples) && SampleOk(x)
    requires samples != [] ==> !Replayed(samples[|samples| - 1], x.state, x.state.observedAt.value, x.received)
    ensures SoundSamples(Kept(samples, x.state) + [x])
  {
    KeptInOrder(samples, x);
    OrderExtends(Kept(samples, x.state), x);
  }

  /** A valid sample that is no replay of the newest one. */
  predicate Follows(h: Log, x: Sample)
    requires Usable(h)
  {
    && SampleOk(x)
    && (h.samples != [] ==> !Replayed(h.samples[|h.samples| - 1], x.state, x.state.observedAt.value, x.received))
  }

  lemma PushedSound(h: Log, x: Sample)
    requires Sound(h) && h.session.Some?
    ensures Follows(h, x) ==> Sound(Log(h.session, Trimmed(Kept(h.samples, x.state) + [x])))
  {
    if Follows(h, x) {
      ExtendedSound(h.samples, x);
      TrimmedSound(Kept(h.samples, x.state) + [x]);
    }
  }

  lemma SessionedSound(h: Log, session: Option<nat>)
    requires Sound(h)
    ensures Sound(Sessioned(h, session)) && (Sessioned(h, session).samples != [] ==> session.Some?)
  {
  }

  /** A message leaves the history as it is, clears it, or adds a sample that follows. */
  lemma AcceptedOutcome(s: Log, state: ObservationState, options: OverlayOptions, session: Option<nat>, nowMs: int, now: nat)
    requires Usable(s) && Sessioned(s, session) == s
    ensures var t := Accepted(s, state, options, session, nowMs, now);
            || t == s || t == CLEARED
            || (state.validUntil.Some? && state.validUntil.value > nowMs && session.Some?
                && Follows(s, Sample(state, nowMs, now + (state.validUntil.value - nowMs)))
                && t == Pushed(s, state, state.validUntil.value, nowMs, now))
  {
  }

  lemma AcceptedSound(h: Log, state: ObservationState, options: OverlayOptions, session: Option<nat>, nowMs: int, now: nat)
    requires Sound(h)
    ensures Sound(Accepted(h, state, options, session, nowMs, now))
  {
    var s := Sessioned(h, session);
    SessionedSound(h, session);
    AcceptedOutcome(s, state, options, session, nowMs, now);
    var t := Accepted(h, state, options, session, nowMs, now);
    if t != s && t != CLEARED {
      PushedSound(s, Sample(state, nowMs, now + (state.validUntil.value - nowMs)));
    }
  }

  lemma {:induction false} LatestOfSuffix(samples: seq<Sample>, k: nat, captureMs: int)
    requires k <= |samples|
    ensures var latest := LatestAt(samples[k..], captureMs);
            latest.None? || latest == LatestAt(samples, captureMs)
  {
    if k < |samples| && samples[|samples| - 1].received > captureMs {
      var front := samples[..|samples| - 1];
      LatestOfSuffix(front, k, captureMs);
      assert samples[k..][..|samples| - k - 1] == front[k..];
    }
  }

  /** An observation accepted at time m never relabels a frame captured before m: the frame keeps
      the text it had, or has none. */
  lemma AcceptNeverRelabels(h: Log, state: ObservationState, options: OverlayOptions, session: Option<nat>, m: int, at: nat,
                            asked: OverlayOptions, current: nat, captureMs: int, now: nat)
    requires Sound(h) && captureMs < m
    ensures var after := OverlayOf(Accepted(h, state, options, session, m, at), asked, current, captureMs, now);
            after.None? || after == OverlayOf(h, asked, current, captureMs, now)
  {
    var s := Sessioned(h, session);
    var t := Accepted(h, state, options, session, m, at);
    if t != s && t != CLEARED {
      var w := Window(state.observedAt, state.validUntil, 30000).value;
      assert t == Pushed(s, state, w.1, m, at);
      PushedNeverRelabels(s, state, w.1, m, at, captureMs);
    }
  }

  lemma PushedNeverRelabels(h: Log, state: ObservationState, until: int, m: int, at: nat, captureMs: int)
    requires until > m && captureMs < m
    ensures var latest := LatestAt(Pushed(h, state, until, m, at).samples, captureMs);
            latest.None? || latest == LatestAt(h.samples, captureMs)
  {
    var kept := Kept(h.samples, state);
    var all := kept + [Sample(state, m, at + (until - m))];
    assert all[..|all| - 1] == kept;
    assert LatestAt(all, captureMs) == LatestAt(kept, captureMs);
    if |all| > LIMIT {
      LatestOfSuffix(all, |all| - LIMIT, captureMs);
    }
  }

  // ---------------------------------------------------------------- whole runs

  datatype Event =
    | Accepting(state: ObservationState, options: OverlayOptions, session: Option<nat>, nowMs: int, now: nat)
    | Ticking(session: Option<nat>)
    | Clearing

  function Step(h: Log, e: Event): (r: Log)
    requires Sound(h)
    ensures Sound(r)
  {
    match e
    case Accepting(state, options, session, nowMs, now) =>
      AcceptedSound(h, state, options, session, nowMs, now);
      Accepted(h, state, options, session, nowMs, now)
    case Ticking(session) => Sessioned(h, session)
    case Clearing => CLEARED
  }

  function After(h: Log, events: seq<Event>): (r: Log)
    requires Sound(h)
    ensures Sound(r)
  {
    if events == [] then h else Step(After(h, events[..|events| - 1]), events[|events| - 1])
  }

  /** Whatever arrives after a capture, in any order, with session changes and clears in between,
      the text of the captured frame never becomes a different text. */
  lemma {:induction false} FrameNeverRelabelled(h: Log, events: seq<Event>, asked: OverlayOptions, current: nat, captureMs: int,
                                                now0: nat, now1: nat)
    requires Sound(h) && now0 <= now1
    requires forall i :: 0 <= i < |events| && events[i].Accepting? ==> captureMs < events[i].nowMs
    ensures var later := OverlayOf(After(h, events), asked, current, captureMs, now1);
            later.None? || later == OverlayOf(h, asked, current, captureMs, now0)
  {
    if events != [] {
      var front := events[..|events| - 1];
      FrameNeverRelabelled(h, front, asked, current, captureMs, now0, now1);
      var e := events[|events| - 1];
      if e.Accepting? {
        AcceptNeverRelabels(After(h, front), e.state, e.options, e.session, e.nowMs, e.now, asked, current, captureMs, now1);
      }
    }
  }

  /** The newest sample of a history and the one `Accepted` leaves, in the same capture session. */
  lemma NewestNeverOlder(h: Log, state: ObservationState, options: OverlayOptions, nowMs: int, now: nat)
    requires Sound(h) && h.samples != []
    ensures var t := Accepted(h, state, options, h.session, nowMs, now);
            t.samples != [] ==>
              var before, after := h.samples[|h.samples| - 1], t.samples[|t.samples| - 1];
              && before.state.observedAt.value <= after.state.observedAt.value
              && before.received <= after.received
              && (before.state.stateEpoch == after.state.stateEpoch ==> !OlderRevision(after.state.revision, before.state.revision))
  {
  }

  /** A history that is never cleared on the way: it always holds a sample of its first session. */
  predicate Uncleared(h: Log, events: seq<Event>)
    requires Sound(h)
    decreases |events|
  {
    && After(h, events).samples != [] && After(h, events).session == h.session
    && (events != [] ==> Uncleared(h, events[..|events| - 1]))
  }

  /** The newest sample of `t` was neither observed nor received before that of `h`. */
  ghost predicate NoOlder(h: Log, t: Log)
    requires Sound(h) && Sound(t)
  {
    && h.samples != [] && t.samples != []
    && h.samples[|h.samples| - 1].state.observedAt.value <= t.samples[|t.samples| - 1].state.observedAt.value
    && h.samples[|h.samples| - 1].received <= t.samples[|t.samples| - 1].received
  }

  lemma NoOlderStill(h: Log, t: Log, u: Log)
    requires Sound(h) && Sound(t) && Sound(u) && NoOlder(h, t) && NoOlder(t, u)
    ensures NoOlder(h, u)
  {
  }

  /** The newest sample after one uncleared event is no older than before it. */
  lemma StepNeverOlder(h: Log, e: Event)
    requires Sound(h) && h.samples != [] && Step(h, e).samples != [] && Step(h, e).session == h.session
    ensures NoOlder(h, Step(h, e))
  {
    if e.Accepting? {
      SessionOfAccepted(h, e.state, e.options, e.session, e.nowMs, e.now);
      NewestNeverOlder(h, e.state, e.options, e.nowMs, e.now);
    }
  }

  /** Until a clear, the newest sample only ever gets newer: no replay of an older observation,
      however often repeated, becomes the newest one again, and there are never more than 128. */
  lemma {:induction false} WatermarkHolds(h: Log, events: seq<Event>)
    requires Sound(h) && Uncleared(h, events)
    ensures NoOlder(h, After(h, events)) && |After(h, events).samples| <= 128
    decreases |events|
  {
    if events != [] {
      var front := events[..|events| - 1];
      var e := events[|events| - 1];
      WatermarkHolds(h, front);
      assert After(h, events) == Step(After(h, front), e);
      StepNeverOlder(After(h, front), e);
      NoOlderStill(h, After(h, front), Step(After(h, front), e));
    }
  }

  lemma SessionOfAccepted(h: Log, state: ObservationState, options: OverlayOptions, session: Option<nat>, nowMs: int, now: nat)
    requires Sound(h)
    ensures var t := Accepted(h, state, options, session, nowMs, now); t.samples != [] ==> t.session == session
  {
  }

  /** An accepted unavailable state removes every label, and one of a new epoch every label of
      frames captured before it. */
  lemma WithdrawalForgets(h: Log, state: ObservationState, until: int, m: int, at: nat,
                          asked: OverlayOptions, current: nat, captureMs: int, now: nat)
    requires until > m
    requires !state.available ||
             (h.samples != [] && h.samples[|h.samples| - 1].state.stateEpoch != state.stateEpoch && captureMs < m)
    ensures OverlayOf(Pushed(h, state, until, m, at), asked, current, captureMs, now).None?
  {
    var sample := Sample(state, m, at + (until - m));
    assert Kept(h.samples, state) + [sample] == [sample];
    LatestOfOne(sample, captureMs);
  }

  lemma LatestOfOne(sample: Sample, captureMs: int)
    ensures LatestAt([sample], captureMs) == if sample.received <= captureMs then Some(sample) else None
  {
    assert [sample][..0] == [];
  }

  // ---------------------------------------------------------------- a clear drops the watermark

  /** The message is for the chosen telescope and something of it is to be shown. */
  predicate Concerns(state: ObservationState, options: OverlayOptions) {
    Some(state.telescopeId) == options.telescopeId && options.Requested()
  }

  /** Valid, already observed and not yet expired. */
  predicate Current(state: ObservationState, nowMs: int) {
    state.Valid() && state.observedAt.value <= nowMs < state.validUntil.value
  }

  /** The message takes the newest sample away and leaves nothing in its place. */
  predicate Drops(newest: Sample, state: ObservationState, options: OverlayOptions, nowMs: int)
    requires newest.state.observedAt.Some?
  {
    && Concerns(state, options)
    && var w := Window(state.observedAt, state.validUntil, 30000);
       w.None? || (!Replayed(newest, state, w.value.0, nowMs) && !Current(state, nowMs))
  }

  /** Within a capture session a message empties the history exactly when it concerns the chosen
      telescope and is malformed, or is neither refused as a replay nor valid and current. */
  lemma EmptiedExactlyWhenDropped(h: Log, state: ObservationState, options: OverlayOptions, nowMs: int, now: nat)
    requires Sound(h) && h.samples != []
    ensures Accepted(h, state, options, h.session, nowMs, now).samples == []
       <==> Drops(h.samples[|h.samples| - 1], state, options, nowMs)
  {
    var kept := Kept(h.samples, state);
    assert |kept + [Sample(state, nowMs, 0)]| == |kept| + 1;
  }

  /** Once an observation has been followed by a newer one, its repetition becomes the newest sample
      after some message exactly when that message empties the history and the repetition is itself
      current: what decides is a property of the two messages and of the newest sample alone. */
  lemma ReplayReturnsExactlyWhenDropped(h: Log, between: ObservationState, options: OverlayOptions, m: int, at: nat,
                                        replay: ObservationState, asked: OverlayOptions, later: int, now: nat)
    requires Sound(h) && h.samples != [] && replay.observedAt.Some?
    requires replay.observedAt.value < h.samples[|h.samples| - 1].state.observedAt.value
    ensures Sound(Accepted(h, between, options, h.session, m, at))
    ensures var t := Accepted(h, between, options, h.session, m, at);
            var u := Accepted(t, replay, asked, h.session, later, now).samples;
            (u != [] && u[|u| - 1].state == replay) <==>
            && Drops(h.samples[|h.samples| - 1], between, options, m)
            && Concerns(replay, asked) && Current(replay, later)
  {
    AcceptedSound(h, between, options, h.session, m, at);
    EmptiedExactlyWhenDropped(h, between, options, m, at);
    NewestNeverOlder(h, between, options, m, at);
    var t := Accepted(h, between, options, h.session, m, at);
    if t.samples == [] {
      FirstSample(t, replay, asked, h.session, later, now);
    } else {
      OlderIsNotNewest(t, replay, asked, h.session, later, now);
    }
  }

  /** An empty history takes a message in exactly when it concerns the telescope and is current. */
  lemma FirstSample(t: Log, state: ObservationState, options: OverlayOptions, session: Option<nat>, m: int, at: nat)
    requires t.samples == [] && session.Some?
    ensures var u := Accepted(t, state, options, session, m, at).samples;
            if Concerns(state, options) && Current(state, m) then |u| == 1 && u[0].state == state else u == []
  {
    assert Kept([], state) == [];
  }

  lemma OlderIsNotNewest(t: Log, state: ObservationState, options: OverlayOptions, session: Option<nat>, m: int, at: nat)
    requires Sound(t) && t.samples != [] && state.observedAt.Some?
    requires session == t.session
    requires state.observedAt.value < t.samples[|t.samples| - 1].state.observedAt.value
    ensures var u := Accepted(t, state, options, session, m, at).samples;
            u == [] || (u == t.samples && u[|u| - 1].state != state)
  {
  }

  /** Over any events: such a repetition is the newest sample again only if the history was emptied
      or the capture session changed on the way. */
  lemma ReplayNeedsClear(h: Log, events: seq<Event>, replay: ObservationState, asked: OverlayOptions, later: int, now: nat)
    requires Sound(h) && h.samples != [] && replay.observedAt.Some?
    requires replay.observedAt.value < h.samples[|h.samples| - 1].state.observedAt.value
    ensures var u := Accepted(After(h, events), replay, asked, h.session, later, now).samples;
            u != [] && u[|u| - 1].state == replay ==> !Uncleared(h, events)
  {
    if Uncleared(h, events) {
      WatermarkHolds(h, events);
      OlderIsNotNewest(After(h, events), replay, asked, h.session, later, now);
    }
  }

  function Plain(epoch: nat, revision: nat, observed: int, until: int, name: Option<string>): ObservationState {
    ObservationState(17, None, Some(Id(epoch, true)), Some(revision), Some(observed), Some(until), true,
                     if name.Some? then Some(Target(Id(1, true), Name(name.value, true), None)) else None, None, None)
  }

  const TARGET_ONLY := OverlayOptions(Some(17), true, false, Off)

  function Labelled(target: string): ObservationState {
    Plain(1, 42, 0, 30000, Some(target))
  }

  function Withdrawn(): ObservationState {
    Plain(1, 43, 5000, 35000, None)
  }

  /** A label, then its withdrawal. */
  function Story(target: string): Log {
    Log(Some(1), [Sample(Labelled(target), 0, 30000), Sample(Withdrawn(), 5000, 30000)])
  }

  /** The two messages of the story, as they are received. */
  function StoryEvents(target: string): seq<Event> {
    [Accepting(Labelled(target), TARGET_ONLY, Some(1), 0, 0), Accepting(Withdrawn(), TARGET_ONLY, Some(1), 5000, 0)]
  }

  lemma StoryBegins(target: string)
    ensures After(CLEARED, StoryEvents(target)[..1]) == Log(Some(1), [Sample(Labelled(target), 0, 30000)])
  {
    assert StoryEvents(target)[..1][..0] == [];
    assert After(CLEARED, StoryEvents(target)[..1]) == Step(CLEARED, StoryEvents(target)[0]);
    assert Kept([], Labelled(target)) + [Sample(Labelled(target), 0, 30000)] == [Sample(Labelled(target), 0, 30000)];
  }

  lemma StoryHappens(target: string)
    ensures After(CLEARED, StoryEvents(target)) == Story(target)
  {
    StoryBegins(target);
    var one := Log(Some(1), [Sample(Labelled(target), 0, 30000)]);
    assert After(CLEARED, StoryEvents(target)) == Step(one, StoryEvents(target)[1]);
    assert Kept(one.samples, Withdrawn()) + [Sample(Withdrawn(), 5000, 30000)] == Story(target).samples;
  }

  lemma ReplayAfterClear(target: string)
    ensures var h := Accepted(CLEARED, Labelled(target), TARGET_ONLY, Some(1), 7001, 0);
            OverlayOf(h, TARGET_ONLY, 1, 7001, 0) == Some([TargetLine(target)])
  {
    var h := Accepted(CLEARED, Labelled(target), TARGET_ONLY, Some(1), 7001, 0);
    assert h == Log(Some(1), [Sample(Labelled(target), 7001, 22999)]);
    LatestOfOne(Sample(Labelled(target), 7001, 22999), 7001);
    assert [TargetLine(target)] + [] == [TargetLine(target)];
  }

  /** The watermark does not outlive a clear: the history refuses a replay of a withdrawn target,
      until one message that is already out of date clears it; then the same replay is accepted
      and laid over new frames again. */
  lemma OutdatedMessageLetsReplayIn(target: string)
    ensures After(CLEARED, StoryEvents(target)) == Story(target)
    ensures Accepted(Story(target), Labelled(target), TARGET_ONLY, Some(1), 6999, 0) == Story(target)
    ensures OverlayOf(Story(target), TARGET_ONLY, 1, 6999, 0).None?
    ensures var h := Accepted(Story(target), Plain(1, 44, 6000, 6500, None), TARGET_ONLY, Some(1), 7000, 0);
            && h == CLEARED
            && OverlayOf(Accepted(h, Labelled(target), TARGET_ONLY, Some(1), 7001, 0), TARGET_ONLY, 1, 7001, 0)
               == Some([TargetLine(target)])
  {
    StoryHappens(target);
    StoryRefuses(target);
    OutdatedClears(target);
    ReplayAfterClear(target);
  }

  lemma OutdatedClears(target: string)
    ensures Accepted(Story(target), Plain(1, 44, 6000, 6500, None), TARGET_ONLY, Some(1), 7000, 0) == CLEARED
  {
  }

  lemma StoryRefuses(target: string)
    ensures Accepted(Story(target), Labelled(target), TARGET_ONLY, Some(1), 6999, 0) == Story(target)
    ensures OverlayOf(Story(target), TARGET_ONLY, 1, 6999, 0).None?
  {
  }
}
