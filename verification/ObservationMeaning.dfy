/** What becomes of one message, and what is laid over one frame, in numbers
    (crates/autopiercam-chatstronomy/src/observation.rs). */
module ObservationMeaning {

  import opened SharingTypes
  import opened Observation

  // ---------------------------------------------------------------- messages

  predicate Lasts(start: Stamp, end: Stamp, most: int) {
    start.Some? && end.Some? && 0 < end.value - start.value <= most
  }

  predicate ReadingValid(t: Temperature, observed: int) {
    -273.15 <= t.celsius <= 1000.0 && Lasts(t.observedAt, t.validUntil, 120000) && t.observedAt.value <= observed
  }

  /** Which messages are well-formed: they last half a minute at most, name a telescope, and describe
      nothing when it is unavailable; otherwise they carry an epoch and a revision, and every time in
      them is one and lies no later than the observation, a count after the start of its target's
      visit, a reading lasting two minutes at most. */
  lemma MessageValidExactly(s: ObservationState)
    ensures s.Valid() <==>
            && Lasts(s.observedAt, s.validUntil, 30000)
            && 1 <= s.telescopeId <= 0x1F_FFFF_FFFF_FFFF
            && (s.telescopeName.Some? ==> s.telescopeName.value.wellFormed)
            && (s.stateEpoch.Some? ==> s.stateEpoch.value.wellFormed)
            && (s.revision.Some? ==> s.revision.value <= 0x1F_FFFF_FFFF_FFFF)
            && (!s.available ==>
                  && s.target.None? && s.completedExposures.None?
                  && (s.temperatures.None? || s.temperatures == Some(Temperatures(None, None))))
            && (s.available ==>
                  && s.stateEpoch.Some? && s.revision.Some?
                  && (s.target.Some? ==>
                        && s.target.value.runId.wellFormed && s.target.value.name.wellFormed
                        && (s.target.value.startedAt.Some? ==>
                              s.target.value.startedAt.value.Some? && s.target.value.startedAt.value.value <= s.observedAt.value))
                  && (s.temperatures.Some? ==>
                        && (s.temperatures.value.focuser.Some? ==>
                              ReadingValid(s.temperatures.value.focuser.value, s.observedAt.value))
                        && (s.temperatures.value.external.Some? ==>
                              ReadingValid(s.temperatures.value.external.value, s.observedAt.value)))
                  && (s.completedExposures.Some? ==>
                        var c := s.completedExposures.value;
                        && c.count <= 0x1F_FFFF_FFFF_FFFF && c.light && c.saved && c.asOf.Some?
                        && s.target.Some? && s.target.value.startedAt.Some? && s.target.value.startedAt.value.Some?
                        && s.target.value.startedAt.value.value <= c.asOf.value <= s.observedAt.value))
  {
  }

  /** The samples of this capture session. */
  function Prior(h: Log, session: Option<nat>): seq<Sample> {
    if session.Some? && h.session == session then h.samples else []
  }

  predicate OfChosenTelescope(state: ObservationState, options: OverlayOptions) {
    && options.telescopeId == Some(state.telescopeId)
    && (options.target || options.exposureCount || options.temperature.Focuser? || options.temperature.External?)
  }

  /** The message was observed before the newest sample, or is received before it, or has an earlier
      revision of the same epoch. */
  predicate Outdated(newest: Sample, state: ObservationState, nowMs: int)
    requires newest.state.observedAt.Some? && state.observedAt.Some?
  {
    || state.observedAt.value < newest.state.observedAt.value
    || nowMs < newest.received
    || (state.stateEpoch == newest.state.stateEpoch && newest.state.revision.Some?
        && (state.revision.None? || state.revision.value < newest.state.revision.value))
  }

  /** Exactly what one message does: of another telescope, or when nothing is to be shown, nothing;
      without a half minute of validity it clears the history; a replay leaves it as it is; one that is
      not valid now clears it; any other becomes the newest sample, after those of its epoch, of which
      with it the newest 128 are kept, and alone if it says that nothing is observed. */
  lemma MessageOutcome(h: Log, state: ObservationState, options: OverlayOptions, session: Option<nat>, nowMs: int, now: nat)
    requires Sound(h)
    ensures var t, prior := Accepted(h, state, options, session, nowMs, now), Prior(h, session);
            if session.None? || !OfChosenTelescope(state, options) then
              t == Log(session, prior)
            else if !Lasts(state.observedAt, state.validUntil, 30000) then
              t == Log(None, [])
            else if prior != [] && Outdated(prior[|prior| - 1], state, nowMs) then
              t == Log(session, prior)
            else if !(state.Valid() && state.observedAt.value <= nowMs < state.validUntil.value) then
              t == Log(None, [])
            else
              && t.session == session
              && EndsWith(t.samples, Sample(state, nowMs, now + (state.validUntil.value - nowMs)),
                          if prior != [] && (prior[|prior| - 1].state.stateEpoch != state.stateEpoch || !state.available)
                          then [] else prior)
  {
    hide EndsWith;
    if Taken(h, state, options, session, nowMs) {
      MessageTaken(h, state, options, session, nowMs, now);
    }
  }

  /** The message concerns the history, is no replay, and is valid now. */
  predicate Taken(h: Log, state: ObservationState, options: OverlayOptions, session: Option<nat>, nowMs: int)
    requires Usable(h)
  {
    var prior := Prior(h, session);
    && session.Some? && OfChosenTelescope(state, options) && Lasts(state.observedAt, state.validUntil, 30000)
    && !(prior != [] && Outdated(prior[|prior| - 1], state, nowMs))
    && state.Valid() && state.observedAt.value <= nowMs < state.validUntil.value
  }

  lemma MessageTaken(h: Log, state: ObservationState, options: OverlayOptions, session: Option<nat>, nowMs: int, now: nat)
    requires Usable(h) && Taken(h, state, options, session, nowMs)
    ensures var t, prior := Accepted(h, state, options, session, nowMs, now), Prior(h, session);
            && t.session == session
            && EndsWith(t.samples, Sample(state, nowMs, now + (state.validUntil.value - nowMs)),
                        if prior != [] && (prior[|prior| - 1].state.stateEpoch != state.stateEpoch || !state.available)
                        then [] else prior)
  {
    var prior := Prior(h, session);
    assert Sessioned(h, session) == Log(session, prior);
    KeptThenNewest(Kept(prior, state), Sample(state, nowMs, now + (state.validUntil.value - nowMs)));
  }

  /** `samples` are the last of `earlier`, followed by `newest`, 128 at most. */
  ghost predicate EndsWith(samples: seq<Sample>, newest: Sample, earlier: seq<Sample>) {
    && |samples| == (if |earlier| >= 128 then 128 else |earlier| + 1)
    && samples[|samples| - 1] == newest
    && forall k :: 0 <= k < |samples| - 1 ==> samples[k] == earlier[|earlier| - (|samples| - 1) + k]
  }

  lemma KeptThenNewest(earlier: seq<Sample>, newest: Sample)
    ensures EndsWith(Trimmed(earlier + [newest]), newest, earlier)
  {
  }

  // ---------------------------------------------------------------- frames

  /** Sample `k` is the newest one received by the capture. */
  predicate NewestBy(samples: seq<Sample>, k: nat, captureMs: int) {
    k < |samples| && samples[k].received <= captureMs && (k + 1 < |samples| ==> samples[k + 1].received > captureMs)
  }

  lemma {:induction false} LatestIsNewest(samples: seq<Sample>, k: nat, captureMs: int)
    requires SoundSamples(samples) && NewestBy(samples, k, captureMs)
    ensures LatestAt(samples, captureMs) == Some(samples[k])
    decreases |samples|
  {
    if k < |samples| - 1 {
      assert InOrder(samples[k + 1], samples[|samples| - 1]) || k + 1 == |samples| - 1;
      LatestIsNewest(samples[..|samples| - 1], k, captureMs);
    }
  }

  lemma {:induction false} NoneReceivedYet(samples: seq<Sample>, captureMs: int)
    requires forall k :: 0 <= k < |samples| ==> samples[k].received > captureMs
    ensures LatestAt(samples, captureMs).None?
  {
    if samples != [] {
      NoneReceivedYet(samples[..|samples| - 1], captureMs);
    }
  }

  /** Exactly what is laid over a frame: the text of the newest sample received by its capture, if that
      is of the frame's session and of the chosen telescope, observed anything, and is still valid,
      both at the capture by the wall clock and now by the monotonic one. */
  lemma OverlayExactly(h: Log, options: OverlayOptions, session: nat, captureMs: int, now: nat, k: nat)
    requires Sound(h) && NewestBy(h.samples, k, captureMs)
    ensures OverlayOf(h, options, session, captureMs, now) ==
            var x := h.samples[k];
            if && h.session == Some(session) && now < x.expires
               && x.state.validUntil.Some? && captureMs < x.state.validUntil.value
               && x.state.available && options.telescopeId == Some(x.state.telescopeId)
            then Lines(x.state, options, captureMs) else None
  {
    LatestIsNewest(h.samples, k, captureMs);
  }

  lemma NothingReceivedNothingShown(h: Log, options: OverlayOptions, session: nat, captureMs: int, now: nat)
    requires forall k :: 0 <= k < |h.samples| ==> h.samples[k].received > captureMs
    ensures OverlayOf(h, options, session, captureMs, now).None?
  {
    NoneReceivedYet(h.samples, captureMs);
  }

  /** The reading that was chosen, if the message has it. */
  function Reading(state: ObservationState, options: OverlayOptions): Option<Temperature> {
    if state.temperatures.None? then None
    else if options.temperature.Focuser? then state.temperatures.value.focuser
    else if options.temperature.External? then state.temperatures.value.external
    else None
  }

  /** The text: the target's name, then the number of saved exposures and the chosen temperature on one
      line, as far as they were asked for, are known, and the reading is valid at the capture. A reading
      whose end is no time gives no text at all. */
  lemma LinesExactly(state: ObservationState, options: OverlayOptions, captureMs: int)
    ensures var reading := Reading(state, options);
            var named := options.target && state.target.Some?;
            var counted := options.exposureCount && state.completedExposures.Some?;
            var measured := reading.Some? && reading.value.validUntil.Some? && captureMs < reading.value.validUntil.value;
            var lines := Lines(state, options, captureMs);
            && (lines.None? <==> (reading.Some? && reading.value.validUntil.None?) || !(named || counted || measured))
            && (lines.Some? ==>
                  && |lines.value| == (if named then 1 else 0) + (if counted || measured then 1 else 0)
                  && (named ==> lines.value[0] == TargetLine(state.target.value.name.text))
                  && (counted || measured ==> lines.value[|lines.value| - 1].Diagnostics?)
                  && (counted || measured ==>
                        var items := lines.value[|lines.value| - 1].items;
                        && |items| == (if counted then 1 else 0) + (if measured then 1 else 0)
                        && (counted ==> items[0] == Saved(state.completedExposures.value.count))
                        && (measured ==> items[|items| - 1] == Degrees(options.temperature, reading.value.celsius))))
  {
  }

  /** From message to frame: text received at `m` on the wall clock and `at` on the monotonic one is laid
      over the frames captured from then on, until its validity ends on either clock. */
  lemma ShownOnceReceived(h: Log, state: ObservationState, options: OverlayOptions, session: nat, m: int, at: nat,
                          captureMs: int, now: nat)
    requires Sound(h) && OfChosenTelescope(state, options)
    requires state.Valid() && state.observedAt.value <= m < state.validUntil.value
    requires var prior := Prior(h, Some(session)); prior != [] ==> !Outdated(prior[|prior| - 1], state, m)
    requires m <= captureMs
    ensures OverlayOf(Accepted(h, state, options, Some(session), m, at), options, session, captureMs, now) ==
            if state.available && captureMs < state.validUntil.value && now < at + (state.validUntil.value - m)
            then Lines(state, options, captureMs) else None
  {
    MessageOutcome(h, state, options, Some(session), m, at);
    AcceptedSound(h, state, options, Some(session), m, at);
    var t := Accepted(h, state, options, Some(session), m, at);
    OverlayExactly(t, options, session, captureMs, now, |t.samples| - 1);
  }
}
