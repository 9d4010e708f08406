/** Which images the scheduler offers, told by its fields, the frame and the two clocks alone
    (crates/autopiercam-chatstronomy/src/triggers.rs). */
module TriggerOffers {

  import opened SharingTypes
  import opened Triggers

  predicate SameTelescope(left: Option<Context>, right: Option<Context>) {
    || (left.None? && right.None?)
    || (left.Some? && right.Some? && left.value.telescopeId == right.value.telescopeId)
  }

  /** The frame is not the one queued last. */
  predicate Unqueued(s: Schedule, f: Frame) {
    s.lastQueued.Some? ==> s.lastQueued.value.0 != f.session || s.lastQueued.value.1 != f.sequence
  }

  predicate Recent(f: Frame, wall: nat) {
    wall - 120000 <= f.capturedAt <= wall + 30000
  }

  /** The frame is an exposure begun after the pending completion, in its session and time, and the
      spacing since the last queued image has passed. */
  predicate AnswersCompletion(s: Schedule, f: Frame, now: nat, wall: nat) {
    && s.slewFinish.Some?
    && s.slewFinish.value.session == f.session && now < s.slewFinish.value.deadline
    && f.sequence > s.slewFinish.value.afterSequence && Unqueued(s, f)
    && (s.lastQueuedAt.None? || s.rules.spacingSeconds == 0
        || now >= s.lastQueuedAt.value + 1000 * s.rules.spacingSeconds)
    && f.conservativeStart.Some? && s.slewFinish.value.afterUnixMs < f.conservativeStart.value <= wall
    && wall - 120000 <= f.capturedAt <= wall
  }

  /** A burst of the frame's session is running and not past its deadline. */
  predicate Running(s: Schedule, f: Frame, now: nat) {
    s.burst.Some? && s.burst.value.session == f.session && now < s.burst.value.deadline
  }

  predicate ServesBurst(s: Schedule, f: Frame, now: nat, wall: nat) {
    && Running(s, f, now) && now >= s.burst.value.due
    && f.sequence > s.burst.value.afterSequence && Unqueued(s, f) && Recent(f, wall)
  }

  /** Exactly which image a poll offers: the post-slew image if the frame answers the pending
      completion; otherwise the next image of the running burst if the frame serves it; otherwise, if
      none is running and a slot is due, the periodic image if the frame is fresh. */
  lemma PollOffers(s: Schedule, f: Frame, now: nat, wall: nat, periodicDue: bool)
    requires s.WellFormed()
    ensures var image := Due(s, Some(f), now, wall, periodicDue).1;
            if AnswersCompletion(s, f, now, wall) then
              image == Some(Image("telescope_event", PostSlew, s.slewFinish.value.context))
            else if Running(s, f, now) then
              if ServesBurst(s, f, now, wall) then
                var b := s.burst.value;
                && image.Some? && image.value.kind == b.kind && image.value.context == b.context
                && image.value.caption == if b.telescope.None? then Plain(b.summary)
                                          else AfterEvent(b.telescope.value, 1 + b.total - b.remaining, b.total)
              else image.None?
            else if periodicDue && f.sequence > 0 && Unqueued(s, f) && Recent(f, wall) then
              image == Some(Image("periodic", Plain("Scheduled pier-camera image"), None))
            else image.None?
  {
  }

  /** A poll without a frame offers nothing and drops everything pending; one with a frame drops a
      completion of another session or past its deadline. */
  lemma PollDrops(s: Schedule, frame: Option<Frame>, now: nat, wall: nat, periodicDue: bool)
    requires s.WellFormed()
    ensures var (t, image) := Due(s, frame, now, wall, periodicDue);
            if frame.None? then image.None? && t.burst.None? && t.slewFinish.None?
            else t.slewFinish == if && s.slewFinish.Some? && s.slewFinish.value.session == frame.value.session
                                    && now < s.slewFinish.value.deadline
                                 then s.slewFinish else None
  {
  }

  /** What a poll leaves running: nothing of the burst changes when the post-slew image is offered; a
      burst of the frame's session goes on until its deadline; in its place a due slot begins one of a
      single image, usable with the very frame polled. */
  lemma PollLeaves(s: Schedule, f: Frame, now: nat, wall: nat, periodicDue: bool)
    requires s.WellFormed()
    ensures var t := Due(s, Some(f), now, wall, periodicDue).0;
            && t.lastQueued == s.lastQueued && t.lastQueuedAt == s.lastQueuedAt
            && t.finishReady == AnswersCompletion(s, f, now, wall)
            && (if AnswersCompletion(s, f, now, wall) || Running(s, f, now) then t.burst == s.burst
                else if periodicDue then
                  && t.burst.Some? && t.burst.value.kind == "periodic" && t.burst.value.remaining == 1
                  && t.burst.value.session == f.session && t.burst.value.due == now
                  && t.burst.value.afterSequence == (if f.sequence == 0 then 0 else f.sequence - 1)
                  && t.burst.value.deadline == now + 1000 * (180 + s.rules.spacingSeconds * (s.rules.burstCount - 1))
                else t.burst.None?)
  {
  }

  /** From trigger to image: a burst begun by a detector at `now` offers its first image for exactly
      the fresh frames of its session that come after the triggering one, or are that one if it may be
      used, until 180 seconds and its spacings have passed. */
  lemma DetectedBurstOffers(s: Schedule, kind: string, summary: string, frame: Frame, now: nat, waitNew: bool,
                            f: Frame, later: nat, wall: nat)
    requires s.WellFormed() && s.burst.None? && s.slewFinish.None?
    ensures var image := Due(Triggered(s, kind, summary, frame, now, waitNew), Some(f), later, wall, false).1;
            image == if && f.session == frame.session
                        && now <= later < now + 1000 * (180 + s.rules.spacingSeconds * (s.rules.burstCount - 1))
                        && (f.sequence > frame.sequence || (!waitNew && f.sequence == frame.sequence && f.sequence > 0))
                        && Unqueued(s, f) && Recent(f, wall)
                     then Some(Image(kind, Plain(summary), None)) else None
  {
  }

  /** The same for a telescope event, whose images always follow it and say so. */
  lemma EventBurstOffers(s: Schedule, event: TelescopeEvent, context: Option<Context>, frame: Frame, now: nat, wall0: nat,
                         f: Frame, later: nat, wall: nat)
    requires s.WellFormed() && s.burst.None? && s.slewFinish.None?
    requires !event.SlewCompleted? && (context.Some? || !(event.Action? || event.Operation?))
    ensures var image := Due(TelescopeTriggered(s, event, context, frame, now, wall0), Some(f), later, wall, false).1;
            image == if && f.session == frame.session && f.sequence > frame.sequence
                        && now <= later < now + 1000 * (180 + s.rules.spacingSeconds * (s.rules.burstCount - 1))
                        && Unqueued(s, f) && Recent(f, wall)
                     then Some(Image("telescope_event", AfterEvent(event, 1, s.rules.burstCount), context)) else None
  {
  }

  /** From completion to image: the post-slew image is offered for exactly the frames of the session
      exposed after the completion, for four exposures (rounded up to seconds, a minute if unknown)
      and three minutes, but at least five minutes and at most an hour. */
  lemma CompletionOffers(s: Schedule, context: Option<Context>, frame: Frame, now: nat, wall0: nat,
                         exposure: nat, seconds: nat, f: Frame, later: nat, wall: nat)
    requires s.WellFormed() && s.burst.None? && s.slewFinish.None?
    requires var us := if frame.exposureUs.Some? && frame.exposureUs.value >= 0 then frame.exposureUs.value else 60000000;
             1000000 * (exposure - 1) < us <= 1000000 * exposure
    requires seconds == if 4 * exposure + 180 < 300 then 300 else if 4 * exposure + 180 > 3600 then 3600 else 4 * exposure + 180
    ensures var image := Due(TelescopeTriggered(s, SlewCompleted, context, frame, now, wall0), Some(f), later, wall, false).1;
            image == if && f.session == frame.session && f.sequence > frame.sequence && later < now + 1000 * seconds
                        && (s.lastQueuedAt.None? || s.rules.spacingSeconds == 0
                            || later >= s.lastQueuedAt.value + 1000 * s.rules.spacingSeconds)
                        && Unqueued(s, f)
                        && f.conservativeStart.Some? && wall0 < f.conservativeStart.value <= wall
                        && wall - 120000 <= f.capturedAt <= wall
                     then Some(Image("telescope_event", PostSlew, context)) else None
  {
    assert FinishMs(frame) == 1000 * seconds;
  }

  /** What an event does to what is pending and running: an event that is only known with a context is
      ignored without one; a slew start takes back the pending completion of its telescope; a running
      burst goes on, under the name of another event if neither carries a context; otherwise a burst of
      the event begins. */
  lemma EventOutcome(s: Schedule, event: TelescopeEvent, context: Option<Context>, frame: Frame, now: nat, wall: nat)
    requires s.WellFormed() && !event.SlewCompleted?
    ensures var t := TelescopeTriggered(s, event, context, frame, now, wall);
            if context.None? && (event.Action? || event.Operation?) then t == s
            else
              && t.slewFinish == (if event.SlewStarted? && s.slewFinish.Some? && SameTelescope(s.slewFinish.value.context, context)
                                  then None else s.slewFinish)
              && t.lastQueued == s.lastQueued && t.lastQueuedAt == s.lastQueuedAt && t.burst.Some?
              && (if Running(s, frame, now) then
                    var b := s.burst.value;
                    t.burst.value ==
                      if b.context.None? && context.None? && b.telescope.Some? && b.telescope.value != event
                      then b.(telescope := Some(event), afterSequence := frame.sequence) else b
                  else
                    var b := t.burst.value;
                    && b.telescope == Some(event) && b.context == context && b.session == frame.session
                    && b.afterSequence == frame.sequence && b.due == now
                    && b.remaining == b.total == s.rules.burstCount)
  {
  }

  /** A completion takes the slot exactly when it is free, out of time, or held by the same telescope
      for another capture session. */
  lemma CompletionOutcome(s: Schedule, context: Option<Context>, frame: Frame, now: nat, wall: nat)
    requires s.WellFormed()
    ensures var t := TelescopeTriggered(s, SlewCompleted, context, frame, now, wall);
            && t.burst == s.burst
            && if || s.slewFinish.None? || now >= s.slewFinish.value.deadline
                  || (SameTelescope(s.slewFinish.value.context, context) && s.slewFinish.value.session != frame.session)
               then && t.slewFinish.Some? && t.slewFinish.value.session == frame.session
                    && t.slewFinish.value.afterSequence == frame.sequence && t.slewFinish.value.afterUnixMs == wall
                    && t.slewFinish.value.context == context
                    && now + 300000 <= t.slewFinish.value.deadline <= now + 3600000
               else t.slewFinish == s.slewFinish
  {
  }

  /** Queueing an image: a post-slew image uses up the completion, and ends the burst that announced
      the slew of that telescope; any other image uses up one of its burst and holds the next one back. */
  lemma QueuedOutcome(s: Schedule, f: Frame, now: nat)
    requires s.WellFormed()
    ensures var t := Queued(s, f, now);
            && t.lastQueued == Some((f.session, f.sequence)) && t.lastQueuedAt == Some(now) && !t.finishReady
            && (if s.finishReady then
                  && t.slewFinish.None?
                  && t.burst == (if && s.burst.Some? && s.burst.value.telescope == Some(SlewStarted)
                                    && SameTelescope(s.burst.value.context,
                                                     if s.slewFinish.Some? then s.slewFinish.value.context else None)
                                 then None else s.burst)
                else
                  && t.slewFinish == s.slewFinish
                  && t.burst == (if s.burst.None? || s.burst.value.remaining == 1 then None
                                 else Some(s.burst.value.(remaining := s.burst.value.remaining - 1, afterSequence := f.sequence,
                                                          due := now + 1000 * s.rules.spacingSeconds))))
  {
  }
}
