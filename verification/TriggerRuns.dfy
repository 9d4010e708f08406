/** What the scheduler promises over whole runs: one post-slew image per accepted completion,
    bounded bursts with true captions, and periodic slots that never repeat. */
module TriggerRuns {
  import opened Arithmetic
  import opened SharingTypes
  import opened Triggers

  /** An accepted slew completion. */
  datatype Request = Request(frame: Frame, now: nat, wall: nat, context: Option<Context>)

  /** A queued post-slew image and the number of the request it serves. */
  datatype Answer = Answer(request: nat, frame: Frame, dueAt: nat, wall: nat)

  /** A queued burst image; `wall` is the wall clock of its poll, `labelled` the sequence of the frame
      that was current when the event in its caption arrived. */
  datatype Shot = Shot(frame: Frame, dueAt: nat, wall: nat, queuedAt: nat, image: Image, labelled: nat)

  datatype Action =
    | Trigger(kind: string, summary: string, frame: Frame, now: nat, waitNew: bool)
    | Telescope(event: TelescopeEvent, context: Option<Context>, frame: Frame, now: nat, wall: nat)
    | Poll(polled: Option<Frame>, now: nat, wall: nat, periodicDue: bool, queuedAt: Option<nat>)

  /** The scheduler with the record of its run. `newest` is the newest frame seen per session,
      `quotas` the number of images each burst might have when it began. */
  datatype World = World(
    s: Schedule,
    clock: nat,
    newest: map<nat, nat>,
    requests: seq<Request>,
    answers: seq<Answer>,
    bursts: seq<seq<Shot>>,
    quotas: seq<nat>,
    labelAt: nat)

  ghost predicate Init(w: World) {
    && w.s.rules.burstCount >= 1
    && w.s == Schedule(w.s.rules, None, None, false, None, None)
    && w.newest == map[] && w.requests == [] && w.answers == [] && w.bursts == [] && w.quotas == []
  }

  /** What the scene detector reports; only these are handed to `trigger` from outside. */
  const DETECTED := ["scene_change", "day_night_transition"]

  /** The frame source never goes back within a session. */
  predicate Monotone(newest: map<nat, nat>, f: Frame) {
    f.session in newest ==> newest[f.session] <= f.sequence
  }

  predicate Enabled(w: World, a: Action) {
    && w.s.WellFormed()
    && w.clock <= a.now
    && (match a
        case Trigger(kind, _, frame, _, _) => kind in DETECTED && Monotone(w.newest, frame)
        case Telescope(_, _, frame, _, _) => Monotone(w.newest, frame)
        case Poll(polled, now, wall, periodicDue, queuedAt) =>
          && (polled.Some? ==> Monotone(w.newest, polled.value))
          && (queuedAt.Some? ==>
                now <= queuedAt.value && polled.Some? && Due(w.s, polled, now, wall, periodicDue).1.Some?))
  }

  function See(newest: map<nat, nat>, f: Frame): map<nat, nat> {
    newest[f.session := f.sequence]
  }

  /** Record keeping when a burst begins: a new, empty list of images. */
  function Begin(w: World, quota: nat, labelAt: nat): World {
    w.(bursts := w.bursts + [[]], quotas := w.quotas + [quota], labelAt := labelAt)
  }

  function ApplyTrigger(w: World, kind: string, summary: string, frame: Frame, now: nat, waitNew: bool): World
    requires w.s.WellFormed()
  {
    var w1 := w.(s := Triggered(w.s, kind, summary, frame, now, waitNew), clock := now, newest := See(w.newest, frame));
    if w.s.burst.None? then Begin(w1, w.s.rules.burstCount, w.labelAt) else w1
  }

  function ApplyTelescope(w: World, event: TelescopeEvent, context: Option<Context>, frame: Frame, now: nat, wall: nat): World
    requires w.s.WellFormed()
  {
    var t := TelescopeTriggered(w.s, event, context, frame, now, wall);
    var w1 := w.(s := t, clock := now, newest := See(w.newest, frame));
    if !Known(event, context) then w1
    else if event.SlewCompleted? then
      if t.slewFinish != w.s.slewFinish then w1.(requests := w.requests + [Request(frame, now, wall, context)]) else w1
    else
      var e := Expired(Started(w.s, event, context), frame, now);
      if e.burst.None? then Begin(w1, w.s.rules.burstCount, frame.sequence)
      else if Relabels(e, event, context) then w1.(labelAt := frame.sequence)
      else w1
  }

  function Append(bursts: seq<seq<Shot>>, shot: Shot): seq<seq<Shot>>
    requires |bursts| > 0
  {
    bursts[|bursts| - 1 := bursts[|bursts| - 1] + [shot]]
  }

  /** The poll itself, before anything is queued. */
  function ApplyDue(w: World, polled: Option<Frame>, now: nat, wall: nat, periodicDue: bool): World
    requires w.s.WellFormed()
  {
    var t := Due(w.s, polled, now, wall, periodicDue).0;
    var w1 := w.(s := t, clock := now, newest := if polled.Some? then See(w.newest, polled.value) else w.newest);
    if polled.Some? && !t.finishReady && periodicDue && Expired(Refreshed(w.s, polled.value, now), polled.value, now).burst.None?
    then Begin(w1, 1, w.labelAt) else w1
  }

  function ApplyQueued(w: World, f: Frame, image: Image, dueAt: nat, wall: nat, queuedAt: nat): World
    requires w.s.WellFormed()
    requires if w.s.finishReady then |w.requests| > 0 else |w.bursts| > 0
  {
    var w1 := w.(s := Queued(w.s, f, queuedAt), clock := queuedAt);
    if w.s.finishReady
    then w1.(answers := w.answers + [Answer(|w.requests| - 1, f, dueAt, wall)])
    else w1.(bursts := Append(w.bursts, Shot(f, dueAt, wall, queuedAt, image, w.labelAt)))
  }

  predicate HasRecords(w: World) {
    (w.s.slewFinish.Some? ==> |w.requests| > 0) && (w.s.burst.Some? ==> |w.bursts| > 0)
  }

  function Apply(w: World, a: Action): World
    requires Enabled(w, a) && HasRecords(w)
  {
    match a
    case Trigger(kind, summary, frame, now, waitNew) => ApplyTrigger(w, kind, summary, frame, now, waitNew)
    case Telescope(event, context, frame, now, wall) => ApplyTelescope(w, event, context, frame, now, wall)
    case Poll(polled, now, wall, periodicDue, queuedAt) =>
      var w1 := ApplyDue(w, polled, now, wall, periodicDue);
      if queuedAt.Some?
      then ApplyQueued(w1, polled.value, Due(w.s, polled, now, wall, periodicDue).1.value, now, wall, queuedAt.value)
      else w1
  }

  // ---------------------------------------------------------------- the invariant

  function FinishOf(r: Request): SlewFinish {
    SlewFinish(r.frame.session, r.frame.sequence, r.wall, r.now + FinishMs(r.frame), r.context)
  }

  /** An image answers a completion only from its own session, exposed after it, in time. */
  predicate AnswerOk(a: Answer, r: Request) {
    && a.frame.session == r.frame.session
    && a.frame.sequence > r.frame.sequence
    && a.frame.conservativeStart.Some?
    && r.wall < a.frame.conservativeStart.value <= a.wall
    && a.dueAt < r.now + FinishMs(r.frame)
  }

  ghost predicate RequestsSound(slew: Option<SlewFinish>, requests: seq<Request>, answers: seq<Answer>) {
    && (forall i :: 0 <= i < |answers| ==> answers[i].request < |requests| && AnswerOk(answers[i], requests[answers[i].request]))
    && (forall i, j :: 0 <= i < j < |answers| ==> answers[i].request < answers[j].request)
    && (slew.Some? ==>
          && |requests| > 0
          && slew.value == FinishOf(requests[|requests| - 1])
          && (forall i :: 0 <= i < |answers| ==> answers[i].request < |requests| - 1))
  }

  function QuotaOf(kind: string, rules: TriggerRules): nat {
    if kind == "periodic" then 1 else rules.burstCount
  }

  predicate CaptionOk(shot: Shot, index: nat, count: nat) {
    shot.image.caption.AfterEvent? ==>
      && shot.image.caption.index == index + 1
      && shot.image.caption.total == count
      && shot.labelled < shot.frame.sequence
  }

  /** One burst: at most its quota of images, a single one if it is periodic, all of one session, of
      newer and newer frames at the configured spacing, with captions that count from one and never
      describe an older frame. */
  ghost predicate BurstOk(shots: seq<Shot>, quota: nat, rules: TriggerRules) {
    && |shots| <= quota <= rules.burstCount
    && (forall i :: 0 <= i < |shots| ==> quota == QuotaOf(shots[i].image.kind, rules))
    && (forall i :: 0 <= i < |shots| ==> CaptionOk(shots[i], i, rules.burstCount))
    && (forall i :: 0 <= i < |shots| - 1 ==>
          && shots[i].frame.session == shots[i + 1].frame.session
          && shots[i].frame.sequence < shots[i + 1].frame.sequence
          && shots[i].queuedAt + SpacingMs(rules) <= shots[i + 1].dueAt)
  }

  /** The running burst against its recorded images. */
  ghost predicate RunningOk(b: Burst, shots: seq<Shot>, rules: TriggerRules, quota: nat, labelAt: nat, newest: map<nat, nat>) {
    && b.total == rules.burstCount
    && |shots| + b.remaining == quota <= b.total
    && quota == QuotaOf(b.kind, rules)
    && (b.telescope.Some? ==> quota == b.total && labelAt <= b.afterSequence)
    && (shots != [] ==>
          var last := shots[|shots| - 1];
          && last.frame.session == b.session
          && last.frame.sequence <= b.afterSequence
          && last.queuedAt + SpacingMs(rules) == b.due
          && b.session in newest && last.frame.sequence <= newest[b.session])
  }

  ghost predicate BurstsSound(burst: Option<Burst>, rules: TriggerRules, bursts: seq<seq<Shot>>, quotas: seq<nat>, labelAt: nat,
                              newest: map<nat, nat>) {
    && |quotas| == |bursts|
    && (forall k :: 0 <= k < |bursts| ==> BurstOk(bursts[k], quotas[k], rules))
    && (burst.Some? ==>
          |bursts| > 0 && RunningOk(burst.value, bursts[|bursts| - 1], rules, quotas[|quotas| - 1], labelAt, newest))
  }

  ghost predicate Inv(w: World) {
    && w.s.WellFormed()
    && RequestsSound(w.s.slewFinish, w.requests, w.answers)
    && BurstsSound(w.s.burst, w.s.rules, w.bursts, w.quotas, w.labelAt, w.newest)
  }

  // ---------------------------------------------------------------- preservation

  lemma SeeKeepsRunning(b: Burst, shots: seq<Shot>, rules: TriggerRules, quota: nat, labelAt: nat, newest: map<nat, nat>, f: Frame)
    requires RunningOk(b, shots, rules, quota, labelAt, newest) && Monotone(newest, f)
    ensures RunningOk(b, shots, rules, quota, labelAt, See(newest, f))
  {
  }

  lemma BeginKeeps(rules: TriggerRules, bursts: seq<seq<Shot>>, b: Burst, quotas: seq<nat>, quota: nat, labelAt: nat,
                   newest: map<nat, nat>)
    requires |quotas| == |bursts| && forall k :: 0 <= k < |bursts| ==> BurstOk(bursts[k], quotas[k], rules)
    requires quota == QuotaOf(b.kind, rules)
    requires b.total == rules.burstCount && b.remaining == quota <= b.total
    requires b.telescope.Some? ==> quota == b.total && labelAt <= b.afterSequence
    ensures BurstsSound(Some(b), rules, bursts + [[]], quotas + [quota], labelAt, newest)
  {
  }

  lemma TriggerPreserves(w: World, kind: string, summary: string, frame: Frame, now: nat, waitNew: bool)
    requires Inv(w) && Monotone(w.newest, frame) && kind in DETECTED
    ensures Inv(ApplyTrigger(w, kind, summary, frame, now, waitNew))
  {
    var w1 := ApplyTrigger(w, kind, summary, frame, now, waitNew);
    if w.s.burst.None? {
      BeginKeeps(w1.s.rules, w.bursts, w1.s.burst.value, w.quotas, w.s.rules.burstCount, w1.labelAt, w1.newest);
    } else {
      SeeKeepsRunning(w.s.burst.value, w.bursts[|w.bursts| - 1], w.s.rules, w.quotas[|w.quotas| - 1], w.labelAt, w.newest, frame);
    }
  }

  lemma RequestKeeps(slew: Option<SlewFinish>, requests: seq<Request>, answers: seq<Answer>, r: Request)
    requires RequestsSound(slew, requests, answers)
    ensures RequestsSound(Some(FinishOf(r)), requests + [r], answers)
  {
  }

  /** A completion leaves everything but the pending request alone. */
  lemma CompletionParts(w: World, context: Option<Context>, frame: Frame, now: nat, wall: nat)
    requires w.s.WellFormed()
    ensures var w1 := ApplyTelescope(w, SlewCompleted, context, frame, now, wall);
            && w1.s == w.s.(slewFinish := w1.s.slewFinish) && w1.newest == See(w.newest, frame)
            && w1.(s := w.s, clock := w.clock, newest := w.newest, requests := w.requests) == w
            && (if w1.s.slewFinish == w.s.slewFinish then w1.requests == w.requests
                else var r := Request(frame, now, wall, context);
                     w1.s.slewFinish == Some(FinishOf(r)) && w1.requests == w.requests + [r])
  {
  }

  lemma CompletionPreserves(w: World, context: Option<Context>, frame: Frame, now: nat, wall: nat)
    requires Inv(w) && Monotone(w.newest, frame)
    ensures Inv(ApplyTelescope(w, SlewCompleted, context, frame, now, wall))
  {
    CompletionParts(w, context, frame, now, wall);
    if w.s.burst.Some? {
      SeeKeepsRunning(w.s.burst.value, w.bursts[|w.bursts| - 1], w.s.rules, w.quotas[|w.quotas| - 1], w.labelAt, w.newest, frame);
    }
    RequestKeeps(w.s.slewFinish, w.requests, w.answers, Request(frame, now, wall, context));
  }

  /** The running burst after a relabelling event still describes its images. */
  lemma RelabelKeeps(b: Burst, shots: seq<Shot>, rules: TriggerRules, quota: nat, labelAt: nat, newest: map<nat, nat>,
                     event: TelescopeEvent, f: Frame)
    requires RunningOk(b, shots, rules, quota, labelAt, newest) && Monotone(newest, f)
    requires b.session == f.session && b.telescope.Some?
    ensures RunningOk(b.(telescope := Some(event), afterSequence := f.sequence), shots, rules, quota, f.sequence, See(newest, f))
  {
  }

  /** The parts of a schedule after an event other than a completion. */
  lemma EventParts(s: Schedule, event: TelescopeEvent, context: Option<Context>, frame: Frame, now: nat, wall: nat)
    requires s.WellFormed() && Known(event, context) && !event.SlewCompleted?
    ensures var t := TelescopeTriggered(s, event, context, frame, now, wall);
            var e := Expired(Started(s, event, context), frame, now);
            && t.WellFormed() && t.rules == s.rules
            && (t.slewFinish.None? || t.slewFinish == s.slewFinish)
            && (if e.burst.None?
                then t.burst == Some(NewBurst(s, "telescope_event", "", frame, now, true).(telescope := Some(event), context := context))
                else e.burst == s.burst && s.burst.value.session == frame.session
                     && t.burst == if Relabels(e, event, context)
                                   then Some(s.burst.value.(telescope := Some(event), afterSequence := frame.sequence))
                                   else s.burst)
  {
  }

  /** An event that begins a burst. */
  lemma EventBegins(w: World, event: TelescopeEvent, context: Option<Context>, frame: Frame, now: nat, wall: nat)
    requires Inv(w) && Known(event, context) && !event.SlewCompleted?
    requires Expired(Started(w.s, event, context), frame, now).burst.None?
    ensures Inv(ApplyTelescope(w, event, context, frame, now, wall))
  {
    EventParts(w.s, event, context, frame, now, wall);
    var w1 := ApplyTelescope(w, event, context, frame, now, wall);
    BeginKeeps(w1.s.rules, w.bursts, w1.s.burst.value, w.quotas, w.s.rules.burstCount, w1.labelAt, w1.newest);
  }

  /** An event that finds one running. */
  lemma EventContinues(w: World, event: TelescopeEvent, context: Option<Context>, frame: Frame, now: nat, wall: nat)
    requires Inv(w) && Monotone(w.newest, frame) && Known(event, context) && !event.SlewCompleted?
    requires Expired(Started(w.s, event, context), frame, now).burst.Some?
    ensures Inv(ApplyTelescope(w, event, context, frame, now, wall))
  {
    EventParts(w.s, event, context, frame, now, wall);
    var shots, quota := w.bursts[|w.bursts| - 1], w.quotas[|w.quotas| - 1];
    SeeKeepsRunning(w.s.burst.value, shots, w.s.rules, quota, w.labelAt, w.newest, frame);
    if Relabels(Expired(Started(w.s, event, context), frame, now), event, context) {
      RelabelKeeps(w.s.burst.value, shots, w.s.rules, quota, w.labelAt, w.newest, event, frame);
    }
  }

  lemma EventPreserves(w: World, event: TelescopeEvent, context: Option<Context>, frame: Frame, now: nat, wall: nat)
    requires Inv(w) && Monotone(w.newest, frame)
    requires Known(event, context) && !event.SlewCompleted?
    ensures Inv(ApplyTelescope(w, event, context, frame, now, wall))
  {
    if Expired(Started(w.s, event, context), frame, now).burst.None? {
      EventBegins(w, event, context, frame, now, wall);
    } else {
      EventContinues(w, event, context, frame, now, wall);
    }
  }

  lemma TelescopePreserves(w: World, event: TelescopeEvent, context: Option<Context>, frame: Frame, now: nat, wall: nat)
    requires Inv(w) && Monotone(w.newest, frame)
    ensures Inv(ApplyTelescope(w, event, context, frame, now, wall))
  {
    if !Known(event, context) {
      if w.s.burst.Some? {
        SeeKeepsRunning(w.s.burst.value, w.bursts[|w.bursts| - 1], w.s.rules, w.quotas[|w.quotas| - 1], w.labelAt, w.newest, frame);
      }
    } else if event.SlewCompleted? {
      CompletionPreserves(w, context, frame, now, wall);
    } else {
      EventPreserves(w, event, context, frame, now, wall);
    }
  }

  /** The parts of a poll's result. */
  lemma DueParts(s: Schedule, polled: Option<Frame>, now: nat, wall: nat, periodicDue: bool)
    requires s.WellFormed()
    ensures var t := Due(s, polled, now, wall, periodicDue).0;
            && t.WellFormed() && t.rules == s.rules
            && (t.slewFinish.None? || t.slewFinish == s.slewFinish)
            && (polled.None? ==> t.burst.None?)
            && (polled.Some? ==>
                  var e := Expired(Refreshed(s, polled.value, now), polled.value, now);
                  if t.finishReady then t.burst == s.burst
                  else if periodicDue && e.burst.None?
                  then t.burst == Some(NewBurst(s, "periodic", "Scheduled pier-camera image", polled.value, now, false).(remaining := 1))
                  else t.burst == e.burst && (e.burst.None? || e.burst == s.burst))
  {
  }

  lemma DuePreserves(w: World, polled: Option<Frame>, now: nat, wall: nat, periodicDue: bool)
    requires Inv(w) && (polled.Some? ==> Monotone(w.newest, polled.value))
    ensures Inv(ApplyDue(w, polled, now, wall, periodicDue))
  {
    DueParts(w.s, polled, now, wall, periodicDue);
    var w1 := ApplyDue(w, polled, now, wall, periodicDue);
    if polled.Some? {
      if w.s.burst.Some? {
        SeeKeepsRunning(w.s.burst.value, w.bursts[|w.bursts| - 1], w.s.rules, w.quotas[|w.quotas| - 1], w.labelAt, w.newest, polled.value);
      }
      if !w1.s.finishReady && periodicDue && Expired(Refreshed(w.s, polled.value, now), polled.value, now).burst.None? {
        BeginKeeps(w1.s.rules, w.bursts, w1.s.burst.value, w.quotas, 1, w.labelAt, w1.newest);
      }
    }
    assert RequestsSound(w1.s.slewFinish, w1.requests, w1.answers);
  }

  /** What a due image needs is still true of the schedule that returned it. */
  lemma DueFacts(s: Schedule, f: Frame, now: nat, wall: nat, periodicDue: bool)
    requires s.WellFormed() && Due(s, Some(f), now, wall, periodicDue).1.Some?
    ensures var (t, image) := Due(s, Some(f), now, wall, periodicDue);
            && t.WellFormed()
            && (t.finishReady ==> FinishUsable(t, f, now, wall) && t.slewFinish.value.session == f.session && now < t.slewFinish.value.deadline)
            && (!t.finishReady ==> BurstUsable(t, f, now, wall) && t.burst.value.session == f.session && image.value == BurstImage(t.burst.value))
  {
  }

  lemma AnswerKeeps(slew: SlewFinish, requests: seq<Request>, answers: seq<Answer>, f: Frame, now: nat, wall: nat)
    requires RequestsSound(Some(slew), requests, answers)
    requires f.sequence > slew.afterSequence && slew.session == f.session && now < slew.deadline
    requires f.conservativeStart.Some? && slew.afterUnixMs < f.conservativeStart.value <= wall
    ensures RequestsSound(None, requests, answers + [Answer(|requests| - 1, f, now, wall)])
  {
  }

  lemma ShotKeeps(s: Schedule, bursts: seq<seq<Shot>>, quotas: seq<nat>, labelAt: nat, newest: map<nat, nat>, shot: Shot, wall: nat)
    requires s.WellFormed() && BurstsSound(s.burst, s.rules, bursts, quotas, labelAt, newest)
    requires BurstUsable(s, shot.frame, shot.dueAt, wall) && s.burst.value.session == shot.frame.session
    requires shot.image == BurstImage(s.burst.value) && shot.labelled == labelAt && shot.dueAt <= shot.queuedAt
    requires shot.frame.session in newest && shot.frame.sequence <= newest[shot.frame.session]
    ensures BurstsSound(QueuedBurst(s, shot.frame, shot.queuedAt), s.rules, Append(bursts, shot), quotas, labelAt, newest)
  {
    var shots := bursts[|bursts| - 1];
    ShotExtends(s.burst.value, shots, quotas[|quotas| - 1], s.rules, labelAt, newest, shot);
  }

  /** The next image of the running burst keeps the burst in order. */
  lemma ShotExtends(b: Burst, shots: seq<Shot>, quota: nat, rules: TriggerRules, labelAt: nat, newest: map<nat, nat>,
                    shot: Shot)
    requires BurstOk(shots, quota, rules) && RunningOk(b, shots, rules, quota, labelAt, newest)
    requires 1 <= b.remaining <= b.total && b.session == shot.frame.session && shot.frame.sequence > b.afterSequence
    requires shot.image == BurstImage(b) && shot.labelled == labelAt && b.due <= shot.dueAt
    ensures BurstOk(shots + [shot], quota, rules)
  {
    var t := shots + [shot];
    forall i | 0 <= i < |t| ensures quota == QuotaOf(t[i].image.kind, rules) && CaptionOk(t[i], i, rules.burstCount) {
      assert i < |shots| ==> t[i] == shots[i];
    }
    forall i | 0 <= i < |t| - 1
      ensures t[i].frame.session == t[i + 1].frame.session && t[i].frame.sequence < t[i + 1].frame.sequence
      ensures t[i].queuedAt + SpacingMs(rules) <= t[i + 1].dueAt
    {
      assert t[i] == shots[i];
      assert i + 1 < |shots| ==> t[i + 1] == shots[i + 1];
    }
  }

  lemma QueuedPreserves(w: World, f: Frame, image: Image, dueAt: nat, wall: nat, queuedAt: nat)
    requires Inv(w) && dueAt <= queuedAt
    requires w.s.finishReady ==> FinishUsable(w.s, f, dueAt, wall) && w.s.slewFinish.value.session == f.session && dueAt < w.s.slewFinish.value.deadline
    requires !w.s.finishReady ==> BurstUsable(w.s, f, dueAt, wall) && w.s.burst.value.session == f.session && image == BurstImage(w.s.burst.value)
    requires f.session in w.newest && f.sequence <= w.newest[f.session]
    ensures Inv(ApplyQueued(w, f, image, dueAt, wall, queuedAt))
  {
    if w.s.finishReady {
      AnswerKeeps(w.s.slewFinish.value, w.requests, w.answers, f, dueAt, wall);
    } else {
      ShotKeeps(w.s, w.bursts, w.quotas, w.labelAt, w.newest, Shot(f, dueAt, wall, queuedAt, image, w.labelAt), wall);
    }
  }

  lemma StepPreserves(w: World, a: Action)
    requires Inv(w) && Enabled(w, a)
    ensures HasRecords(w) && Inv(Apply(w, a))
  {
    match a
    case Trigger(kind, summary, frame, now, waitNew) => TriggerPreserves(w, kind, summary, frame, now, waitNew);
    case Telescope(event, context, frame, now, wall) => TelescopePreserves(w, event, context, frame, now, wall);
    case Poll(polled, now, wall, periodicDue, queuedAt) =>
      DuePreserves(w, polled, now, wall, periodicDue);
      if queuedAt.Some? {
        DueFacts(w.s, polled.value, now, wall, periodicDue);
        var w1 := ApplyDue(w, polled, now, wall, periodicDue);
        QueuedPreserves(w1, polled.value, Due(w.s, polled, now, wall, periodicDue).1.value, now, wall, queuedAt.value);
      }
  }

  predicate Follows(worlds: seq<World>, actions: seq<Action>, i: nat)
    requires i < |actions| < |worlds|
  {
    Enabled(worlds[i], actions[i]) && HasRecords(worlds[i]) && worlds[i + 1] == Apply(worlds[i], actions[i])
  }

  ghost predicate Run(worlds: seq<World>, actions: seq<Action>) {
    && |worlds| == |actions| + 1
    && Init(worlds[0])
    && forall i :: 0 <= i < |actions| ==> Follows(worlds, actions, i)
  }

  lemma RunStep(worlds: seq<World>, actions: seq<Action>, i: nat)
    requires Run(worlds, actions) && i < |actions| && Inv(worlds[i])
    ensures Inv(worlds[i + 1])
  {
    assert Follows(worlds, actions, i);
    StepPreserves(worlds[i], actions[i]);
  }

  lemma InitSound(w: World)
    requires Init(w)
    ensures Inv(w)
  {
  }

  lemma {:induction false} RunInvariant(worlds: seq<World>, actions: seq<Action>, i: nat)
    requires Run(worlds, actions) && i < |worlds|
    ensures Inv(worlds[i])
  {
    if i == 0 {
      InitSound(worlds[0]);
    } else {
      RunInvariant(worlds, actions, i - 1);
      RunStep(worlds, actions, i - 1);
    }
  }

  // ---------------------------------------------------------------- the age of images

  /** What a queued image shows was captured at most two minutes before the wall clock of its poll;
      a burst image at most half a minute after it, a post-slew image not after it. */
  predicate FreshAnswer(a: Answer) {
    a.wall - 120000 <= a.frame.capturedAt <= a.wall
  }

  predicate FreshShot(s: Shot) {
    s.wall - 120000 <= s.frame.capturedAt <= s.wall + 30000
  }

  ghost predicate AllFresh(w: World) {
    && (forall k :: 0 <= k < |w.answers| ==> FreshAnswer(w.answers[k]))
    && (forall k, p :: 0 <= k < |w.bursts| && 0 <= p < |w.bursts[k]| ==> FreshShot(w.bursts[k][p]))
  }

  lemma FreshWhenOffered(s: Schedule, f: Frame, now: nat, wall: nat, periodicDue: bool)
    requires s.WellFormed() && Due(s, Some(f), now, wall, periodicDue).1.Some?
    ensures wall - 120000 <= f.capturedAt <= wall + 30000
    ensures Due(s, Some(f), now, wall, periodicDue).0.finishReady ==> f.capturedAt <= wall
  {
  }

  lemma DueKeepsFresh(w: World, polled: Option<Frame>, now: nat, wall: nat, periodicDue: bool)
    requires w.s.WellFormed() && AllFresh(w)
    ensures AllFresh(ApplyDue(w, polled, now, wall, periodicDue))
  {
  }

  lemma QueuedKeepsFresh(w: World, f: Frame, image: Image, dueAt: nat, wall: nat, queuedAt: nat)
    requires w.s.WellFormed() && AllFresh(w)
    requires if w.s.finishReady then |w.requests| > 0 else |w.bursts| > 0
    requires wall - 120000 <= f.capturedAt <= wall + 30000 && (w.s.finishReady ==> f.capturedAt <= wall)
    ensures AllFresh(ApplyQueued(w, f, image, dueAt, wall, queuedAt))
  {
  }

  lemma TelescopeKeepsFresh(w: World, event: TelescopeEvent, context: Option<Context>, frame: Frame, now: nat, wall: nat)
    requires w.s.WellFormed() && AllFresh(w)
    ensures AllFresh(ApplyTelescope(w, event, context, frame, now, wall))
  {
  }

  lemma PollKeepsFresh(w: World, a: Action)
    requires AllFresh(w) && Enabled(w, a) && HasRecords(w) && a.Poll?
    ensures AllFresh(Apply(w, a))
  {
    DueKeepsFresh(w, a.polled, a.now, a.wall, a.periodicDue);
    if a.queuedAt.Some? {
      var f := a.polled.value;
      FreshWhenOffered(w.s, f, a.now, a.wall, a.periodicDue);
      QueuedKeepsFresh(ApplyDue(w, a.polled, a.now, a.wall, a.periodicDue), f,
                       Due(w.s, a.polled, a.now, a.wall, a.periodicDue).1.value, a.now, a.wall, a.queuedAt.value);
    }
  }

  lemma StepKeepsFresh(w: World, a: Action)
    requires AllFresh(w) && Enabled(w, a) && HasRecords(w)
    ensures AllFresh(Apply(w, a))
  {
    match a
    case Trigger(_, _, _, _, _) =>
    case Telescope(event, context, frame, now, wall) => TelescopeKeepsFresh(w, event, context, frame, now, wall);
    case Poll(_, _, _, _, _) => PollKeepsFresh(w, a);
  }

  lemma {:induction false} RunFresh(worlds: seq<World>, actions: seq<Action>, i: nat)
    requires Run(worlds, actions) && i < |worlds|
    ensures AllFresh(worlds[i])
  {
    if i > 0 {
      RunFresh(worlds, actions, i - 1);
      assert Follows(worlds, actions, i - 1);
      StepKeepsFresh(worlds[i - 1], actions[i - 1]);
    }
  }

  /** No image that was ever queued was stale, or ahead of the clock, when it was chosen. */
  lemma QueuedImagesFresh(worlds: seq<World>, actions: seq<Action>, i: nat)
    requires Run(worlds, actions) && i < |worlds|
    ensures forall k :: 0 <= k < |worlds[i].answers| ==>
              worlds[i].answers[k].wall - 120000 <= worlds[i].answers[k].frame.capturedAt <= worlds[i].answers[k].wall
    ensures forall k, p :: 0 <= k < |worlds[i].bursts| && 0 <= p < |worlds[i].bursts[k]| ==>
              var shot := worlds[i].bursts[k][p];
              shot.wall - 120000 <= shot.frame.capturedAt <= shot.wall + 30000
  {
    RunFresh(worlds, actions, i);
  }

  // ---------------------------------------------------------------- the promises

  /** Each accepted slew completion gets at most one post-slew image: of its own session, of a
      later frame exposed after the completion, and before a deadline of at most one hour. */
  lemma OneImagePerCompletion(worlds: seq<World>, actions: seq<Action>, i: nat)
    requires Run(worlds, actions) && i < |worlds|
    ensures var w := worlds[i];
            && (forall k :: 0 <= k < |w.answers| ==>
                  var a := w.answers[k];
                  && a.request < |w.requests|
                  && AnswerOk(a, w.requests[a.request])
                  && a.dueAt < w.requests[a.request].now + 3600 * 1000)
            && (forall j, k :: 0 <= j < |w.answers| && 0 <= k < |w.answers| && w.answers[j].request == w.answers[k].request ==> j == k)
  {
    RunInvariant(worlds, actions, i);
    var w := worlds[i];
    forall j, k | 0 <= j < |w.answers| && 0 <= k < |w.answers| && w.answers[j].request == w.answers[k].request
      ensures j == k
    {
      if j < k {
      } else if k < j {
      }
    }
  }

  /** Until its deadline a pending completion of this session is neither extended by a duplicate
      nor taken over by another telescope, and no telescope's event can move its deadline. */
  lemma PendingCompletionHeld(s: Schedule, event: TelescopeEvent, context: Option<Context>, frame: Frame, now: nat, wall: nat)
    requires s.WellFormed() && s.slewFinish.Some? && now < s.slewFinish.value.deadline
    ensures var t := TelescopeTriggered(s, event, context, frame, now, wall).slewFinish;
            && (t != s.slewFinish ==>
                  && SameSource(s.slewFinish.value.context, context)
                  && (event.SlewStarted? || (event.SlewCompleted? && s.slewFinish.value.session != frame.session)))
            && (t.Some? && t != s.slewFinish ==> t.value.session != s.slewFinish.value.session)
  {
  }

  /** Step `a` disposes of request number `k`: it is answered, its deadline has passed, its telescope
      begins a new slew, or its capture session is over. */
  predicate Disposes(w: World, a: Action, r: Request, k: nat)
    requires Enabled(w, a) && HasRecords(w)
  {
    || (a.Poll? && |Apply(w, a).answers| == |w.answers| + 1 && Apply(w, a).answers[|w.answers|].request == k)
    || a.now >= r.now + FinishMs(r.frame)
    || (a.Telescope? && a.event.SlewStarted? && SameSource(r.context, a.context))
    || (a.Poll? && (a.polled.None? || a.polled.value.session != r.frame.session))
    || (a.Telescope? && a.event.SlewCompleted? && SameSource(r.context, a.context) && a.frame.session != r.frame.session)
  }

  predicate Pending(w: World, r: Request, k: nat) {
    w.s.slewFinish == Some(FinishOf(r)) && |w.requests| == k + 1 && w.requests[k] == r
  }

  lemma TelescopeKeepsPending(w: World, a: Action, r: Request, k: nat)
    requires Inv(w) && Enabled(w, a) && HasRecords(w) && a.Telescope? && Pending(w, r, k) && !Disposes(w, a, r, k)
    ensures Pending(Apply(w, a), r, k)
  {
    if a.event.SlewCompleted? && Known(a.event, a.context) {
      CompletionParts(w, a.context, a.frame, a.now, a.wall);
    }
  }

  lemma PollKeepsPending(w: World, a: Action, r: Request, k: nat)
    requires Inv(w) && Enabled(w, a) && HasRecords(w) && a.Poll? && Pending(w, r, k) && !Disposes(w, a, r, k)
    ensures Pending(Apply(w, a), r, k)
  {
    DueParts(w.s, a.polled, a.now, a.wall, a.periodicDue);
  }

  lemma StepKeepsPending(w: World, a: Action, r: Request, k: nat)
    requires Inv(w) && Enabled(w, a) && HasRecords(w) && Pending(w, r, k) && !Disposes(w, a, r, k)
    ensures Pending(Apply(w, a), r, k)
  {
    match a
    case Trigger(_, _, _, _, _) =>
    case Telescope(_, _, _, _, _) => TelescopeKeepsPending(w, a, r, k);
    case Poll(_, _, _, _, _) => PollKeepsPending(w, a, r, k);
  }

  /** Step `i` accepts a slew completion. */
  predicate Accepts(worlds: seq<World>, i: nat) {
    i + 1 < |worlds| && |worlds[i].requests| < |worlds[i + 1].requests|
  }

  lemma AcceptedIsPending(w: World, a: Action)
    requires Inv(w) && Enabled(w, a) && HasRecords(w) && |w.requests| < |Apply(w, a).requests|
    ensures var t := Apply(w, a);
            |t.requests| == |w.requests| + 1 && Pending(t, t.requests[|w.requests|], |w.requests|)
  {
    if a.Telescope? && a.event.SlewCompleted? {
      CompletionParts(w, a.context, a.frame, a.now, a.wall);
    }
  }

  predicate DisposedAt(worlds: seq<World>, actions: seq<Action>, r: Request, k: nat, e: nat)
    requires |worlds| == |actions| + 1
  {
    && e < |actions| && Enabled(worlds[e], actions[e]) && HasRecords(worlds[e])
    && Disposes(worlds[e], actions[e], r, k)
  }

  lemma RunKeepsPending(worlds: seq<World>, actions: seq<Action>, r: Request, k: nat, i: nat)
    requires Run(worlds, actions) && i < |actions| && Pending(worlds[i], r, k)
    ensures Pending(worlds[i + 1], r, k) || DisposedAt(worlds, actions, r, k, i)
  {
    RunInvariant(worlds, actions, i);
    assert Follows(worlds, actions, i);
    if !Disposes(worlds[i], actions[i], r, k) {
      StepKeepsPending(worlds[i], actions[i], r, k);
    }
  }

  /** A request pending at `i` is pending at `j`, or `e` is the step between them that disposed of it. */
  lemma {:induction false} PendingUntilDisposed(worlds: seq<World>, actions: seq<Action>, r: Request, k: nat, i: nat, j: nat)
    returns (e: nat)
    requires Run(worlds, actions) && i <= j < |worlds| && Pending(worlds[i], r, k)
    ensures Pending(worlds[j], r, k) || (i <= e < j && DisposedAt(worlds, actions, r, k, e))
  {
    e := i;
    if i < j {
      e := PendingUntilDisposed(worlds, actions, r, k, i, j - 1);
      if Pending(worlds[j - 1], r, k) {
        RunKeepsPending(worlds, actions, r, k, j - 1);
        e := j - 1;
      }
    }
  }

  lemma RunAccepts(worlds: seq<World>, actions: seq<Action>, i: nat)
    requires Run(worlds, actions) && Accepts(worlds, i)
    ensures var k := |worlds[i].requests|;
            |worlds[i + 1].requests| == k + 1 && Pending(worlds[i + 1], worlds[i + 1].requests[k], k)
  {
    RunInvariant(worlds, actions, i);
    assert Follows(worlds, actions, i);
    AcceptedIsPending(worlds[i], actions[i]);
  }

  /** The completion slot is given away only once it is free: between two accepted completions there
      is a step `e` at which the first was answered, had expired, was superseded by its own telescope
      or lost its capture session. */
  lemma SlotFreedBeforeNext(worlds: seq<World>, actions: seq<Action>, i: nat, j: nat) returns (e: nat)
    requires Run(worlds, actions) && i < j && Accepts(worlds, i) && Accepts(worlds, j)
    ensures var k := |worlds[i].requests|;
            k < |worlds[i + 1].requests| && i < e <= j && DisposedAt(worlds, actions, worlds[i + 1].requests[k], k, e)
  {
    RunAccepts(worlds, actions, i);
    var k := |worlds[i].requests|;
    e := PendingUntilDisposed(worlds, actions, worlds[i + 1].requests[k], k, i + 1, j + 1);
    LaterRequests(worlds, actions, i + 1, j);
  }

  lemma {:induction false} LaterRequests(worlds: seq<World>, actions: seq<Action>, i: nat, j: nat)
    requires Run(worlds, actions) && i <= j < |worlds|
    ensures |worlds[i].requests| <= |worlds[j].requests|
  {
    if i < j {
      LaterRequests(worlds, actions, i, j - 1);
      assert Follows(worlds, actions, j - 1);
    }
  }

  /** Every burst of every run keeps to its quota, one image for a periodic burst and the configured
      number for any other, all of one session and of newer and newer frames. */
  lemma BurstsBounded(worlds: seq<World>, actions: seq<Action>, i: nat, k: nat)
    requires Run(worlds, actions) && i < |worlds| && k < |worlds[i].bursts|
    ensures k < |worlds[i].quotas| && BurstOk(worlds[i].bursts[k], worlds[i].quotas[k], worlds[i].s.rules)
    ensures forall p :: 0 <= p < |worlds[i].bursts[k]| ==>
              |worlds[i].bursts[k]| <= QuotaOf(worlds[i].bursts[k][p].image.kind, worlds[i].s.rules)
    ensures forall p, q :: 0 <= p < q < |worlds[i].bursts[k]| ==>
              && worlds[i].bursts[k][p].frame.session == worlds[i].bursts[k][q].frame.session
              && worlds[i].bursts[k][p].frame.sequence < worlds[i].bursts[k][q].frame.sequence
  {
    RunInvariant(worlds, actions, i);
    forall p, q | 0 <= p < q < |worlds[i].bursts[k]|
      ensures worlds[i].bursts[k][p].frame.session == worlds[i].bursts[k][q].frame.session
      ensures worlds[i].bursts[k][p].frame.sequence < worlds[i].bursts[k][q].frame.sequence
    {
      BurstOrdered(worlds[i].bursts[k], worlds[i].quotas[k], worlds[i].s.rules, p, q);
    }
  }

  lemma {:induction false} BurstOrdered(shots: seq<Shot>, quota: nat, rules: TriggerRules, p: nat, q: nat)
    requires BurstOk(shots, quota, rules) && p < q < |shots|
    ensures shots[p].frame.session == shots[q].frame.session && shots[p].frame.sequence < shots[q].frame.sequence
  {
    if p + 1 < q {
      BurstOrdered(shots, quota, rules, p, q - 1);
    }
    assert shots[q - 1].frame.sequence < shots[q - 1 + 1].frame.sequence;
  }

  // ---------------------------------------------------------------- periodic slots

  datatype SlotAction = Reconfigure(minutes: nat, wall: nat) | SlotPoll(wall: nat)

  function SlotStep(p: Slots, a: SlotAction): Slots {
    match a
    case Reconfigure(minutes, wall) => Configured(p, minutes, wall)
    case SlotPoll(wall) => Polled(p, wall)
  }

  /** Reconfigurations to the same interval, and polls before the last 64-bit millisecond, in any order. */
  ghost predicate SlotRun(states: seq<Slots>, actions: seq<SlotAction>, minutes: nat) {
    && minutes > 0
    && |states| == |actions| + 1
    && states[0].intervalMs == minutes * 60000
    && (forall i :: 0 <= i < |actions| ==> states[i + 1] == SlotStep(states[i], actions[i]))
    && (forall i :: 0 <= i < |actions| ==> actions[i].Reconfigure? ==> actions[i].minutes == minutes)
    && (forall i :: 0 <= i < |actions| ==> actions[i].SlotPoll? ==> actions[i].wall < MAX_MS)
  }

  predicate Fires(p: Slots, a: SlotAction) {
    a.SlotPoll? && SlotDue(p, a.wall)
  }

  lemma {:induction false} IntervalStays(states: seq<Slots>, actions: seq<SlotAction>, minutes: nat, i: nat)
    requires SlotRun(states, actions, minutes) && i < |states|
    ensures states[i].intervalMs == minutes * 60000
  {
    if i > 0 {
      IntervalStays(states, actions, minutes, i - 1);
      assert states[i - 1 + 1] == SlotStep(states[i - 1], actions[i - 1]);
    }
  }

  lemma SlotStepAdvances(p: Slots, a: SlotAction, minutes: nat)
    requires p.intervalMs == minutes * 60000 > 0
    requires a.Reconfigure? ==> a.minutes == minutes
    requires a.SlotPoll? ==> a.wall < MAX_MS
    ensures p.nextMs <= SlotStep(p, a).nextMs
    ensures !Fires(p, a) ==> SlotStep(p, a) == p
  {
    if Fires(p, a) {
      BoundaryAfter(p.intervalMs, a.wall);
    }
  }

  lemma {:induction false} SlotsAdvance(states: seq<Slots>, actions: seq<SlotAction>, minutes: nat, i: nat, j: nat)
    requires SlotRun(states, actions, minutes) && i <= j < |states|
    ensures states[i].nextMs <= states[j].nextMs
  {
    if i < j {
      SlotsAdvance(states, actions, minutes, i, j - 1);
      IntervalStays(states, actions, minutes, j - 1);
      SlotStepAdvances(states[j - 1], actions[j - 1], minutes);
      assert states[j - 1 + 1] == SlotStep(states[j - 1], actions[j - 1]);
    }
  }

  /** However the wall clock jumps, firings use strictly increasing UTC slots: no slot fires twice,
      a slot missed while the clock ran past it is never made up, and every poll at or past the
      next boundary fires. */
  lemma FiringsUseFreshSlots(states: seq<Slots>, actions: seq<SlotAction>, minutes: nat, i: nat, j: nat)
    requires SlotRun(states, actions, minutes) && i < j < |actions|
    requires Fires(states[i], actions[i]) && actions[j].SlotPoll?
    ensures Fires(states[j], actions[j]) ==>
              actions[i].wall / (minutes * 60000) < actions[j].wall / (minutes * 60000)
    ensures (forall k :: i < k < j ==> !Fires(states[k], actions[k])) ==>
              (Fires(states[j], actions[j]) <==> actions[i].wall / (minutes * 60000) < actions[j].wall / (minutes * 60000))
  {
    var d := minutes * 60000;
    var wi, wj := actions[i].wall, actions[j].wall;
    IntervalStays(states, actions, minutes, i);
    IntervalStays(states, actions, minutes, j);
    SlotsAdvance(states, actions, minutes, i + 1, j);
    assert states[i + 1] == SlotStep(states[i], actions[i]);
    SlotOrder(d, wi, wj);
    if forall k :: i < k < j ==> !Fires(states[k], actions[k]) {
      NextStays(states, actions, minutes, i + 1, j);
    }
  }

  /** Nothing fires in the slot in which another interval was configured: the first poll to fire after
      that is the first in a later slot. */
  lemma FirstFiring(p: Slots, wall: nat, states: seq<Slots>, actions: seq<SlotAction>, minutes: nat, j: nat)
    requires SlotRun(states, actions, minutes) && j < |actions| && actions[j].SlotPoll?
    requires states[0] == Configured(p, minutes, wall) && p.intervalMs != minutes * 60000
    requires forall k :: 0 <= k < j ==> !Fires(states[k], actions[k])
    ensures Fires(states[j], actions[j]) <==> wall / (minutes * 60000) < actions[j].wall / (minutes * 60000)
  {
    IntervalStays(states, actions, minutes, j);
    NextStays(states, actions, minutes, 0, j);
    SlotOrder(minutes * 60000, wall, actions[j].wall);
  }

  lemma {:induction false} NextStays(states: seq<Slots>, actions: seq<SlotAction>, minutes: nat, i: nat, j: nat)
    requires SlotRun(states, actions, minutes) && i <= j < |states|
    requires forall k :: i <= k < j ==> !Fires(states[k], actions[k])
    ensures states[j].nextMs == states[i].nextMs
    decreases j - i
  {
    if i < j {
      NextStays(states, actions, minutes, i, j - 1);
      IntervalStays(states, actions, minutes, j - 1);
      SlotStepAdvances(states[j - 1], actions[j - 1], minutes);
      assert states[j - 1 + 1] == SlotStep(states[j - 1], actions[j - 1]);
    }
  }

  /** A wall time reaches the boundary after `a` exactly when it lies in a later slot. */
  lemma SlotOrder(d: nat, a: nat, b: nat)
    requires d > 0 && b < MAX_MS
    ensures NextBoundary(d, a) <= b <==> a / d < b / d
  {
    var n := a / d + 1;
    assert a == a / d * d + a % d && b == b / d * d + b % d;
    if n <= b / d {
      assert n * d <= b / d * d;
    } else {
      assert (b / d + 1) * d <= n * d by {
        assert b / d + 1 <= n;
        MulMonotone(b / d + 1, n, d);
      }
      assert (b / d + 1) * d == b / d * d + d;
    }
  }
}
