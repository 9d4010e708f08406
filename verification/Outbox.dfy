/** The transport's image outbox (crates/autopiercam-chatstronomy/src/transport.rs): the `run` loop
    with its reconnects, and the `session` loop as a step machine.

    Time is monotonic milliseconds. The loops run on one task, so the actions of a session are taken
    one after the other; each check before a send is one load. Beside the task runs whoever commits
    settings: it switches sharing off, moves the epoch, writes the new settings and moves the epoch
    again, or leaves sharing off when the write fails; and the final stop. */
module Outbox {
  import opened SharingTypes
  import opened Snapshot

  const MINUTE := 60000
  const FRESH_MS := 300000

  /** What was true when an image was put into an outbox. Its position in `created` stands for the
      fresh random identifier. */
  datatype Created = Created(bytes: seq<int>, session: nat, epoch: nat, consent: nat, automatic: bool)

  datatype Outbound = Outbound(id: nat, bytes: seq<int>, capturedAt: nat, session: nat, retryAt: nat)

  /** What a session is in the middle of: encoding a snapshot, the checks before a send in their
      order (`current` is the capture session they looked up first), or the send itself. */
  datatype Work =
    | Resting
    | Encoding(session: nat, capturedAt: nat)
    | Looked(current: Option<nat>)
    | Running(current: Option<nat>)
    | EpochSeen(current: Option<nat>)
    | FreshSeen(current: Option<nat>)
    | FenceSeen
    | Cleared
    | SendingEvent
    | SendingSnapshot

  datatype Ack = Delivered | Declined | Retry(afterSeconds: nat)

  /** Where the task is. `seen` is the epoch it last observed, `using` the settings it last read. */
  datatype Place =
    | AtTop
    | EpochRead
    | Chosen
    | AwaitingChange
    | InSession(request: Option<Fence>, asked: nat, snapshot: Option<Outbound>, uploading: bool, work: Work)
    | Backoff
    | Ended

  /** How far a settings commit has come. */
  datatype Commit = NoCommit | SwitchedOff | Announced | Written

  /** One completed send. */
  datatype Sent = Sent(id: nat, bytes: seq<int>, automatic: bool, startedAt: nat, at: nat, epoch: nat, consent: nat,
                       session: nat)

  /** `enabled` says that the settings in force have sharing on and a device; `consent` counts the
      settings written so far. */
  datatype State = State(
    now: nat,
    epoch: nat,
    enabled: bool,
    consent: nat,
    commit: Commit,
    stopped: bool,
    seen: nat,
    using: nat,
    place: Place,
    outbox: Option<Outbound>,
    lastNewEvent: int,
    startedAt: nat,
    created: seq<Created>,
    log: seq<Sent>)

  ghost predicate Init(s: State) {
    && s.place.AtTop? && s.outbox.None? && s.seen <= s.epoch && s.using == s.consent
    && s.commit.NoCommit? && !s.stopped
    && s.lastNewEvent <= s.now
    && s.created == [] && s.log == []
  }

  /** The frame source: the current capture session and the wall clock. */
  datatype View = View(session: Option<nat>, wall: nat)

  predicate Fresh(item: Outbound, v: View) {
    && v.session == Some(item.session)
    && v.wall - item.capturedAt <= FRESH_MS
    && item.capturedAt <= v.wall + 30000
  }

  datatype Outcome = Disabled | Unusable | Connects

  datatype CommitAction =
    | SwitchOff
    | AnnounceOff
    | WriteConsent(on: bool)
    | LoseConsent
    | AnnounceOn
    | StopStore
    | StopAnnounce

  datatype LoopAction =
    | ReadEpoch
    | CheckStopped
    | Choose(outcome: Outcome)
    | ConsentChanged
    | RetryTimer
    | SessionCancelled
    | SessionEnds(fatal: bool)

  datatype SessionAction =
    | Configured
    | SnapshotAsked(asked: Request, allowed: bool, v: View)
    | Acknowledged(id: nat, ack: Ack)
    | UploadChanges
    | DropStale(v: View)
    | SnapshotInvalid(capturedAt: nat, v: View)
    | SnapshotChecked(capturedAt: nat, v: View)
    | SnapshotEncoded(jpeg: Option<seq<int>>)
    | NewEvent(bytes: seq<int>, capturedAt: nat, session: nat)
    | LookAtSource(current: Option<nat>)
    | CheckStep(wall: nat)
    | StartSend
    | EndSend

  /** A step of the clock, of whoever commits settings or stops the service, of the run loop, or of
      the session it is in. */
  datatype Action = Wait(ms: nat) | Commits(c: CommitAction) | Loops(l: LoopAction) | Serves(x: SessionAction)

  predicate Quiet(s: State) {
    s.place.InSession? && s.place.work.Resting?
  }

  predicate CommitEnabled(s: State, c: CommitAction) {
    match c
    case SwitchOff => s.commit.NoCommit?
    case AnnounceOff => s.commit.SwitchedOff?
    case WriteConsent(_) => s.commit.Announced?
    case LoseConsent => s.commit.Announced?
    case AnnounceOn => s.commit.Written?
    case StopStore => !s.stopped
    case StopAnnounce => s.stopped
  }

  predicate LoopEnabled(s: State, l: LoopAction) {
    match l
    case ReadEpoch => s.place.AtTop?
    case CheckStopped => s.place.EpochRead?
    case Choose(outcome) => s.place.Chosen? && (outcome.Disabled? <==> !s.enabled)
    case ConsentChanged => (s.place.AwaitingChange? || s.place.Backoff?) && s.epoch != s.seen
    // The timer is looked at only after the epoch has been found unchanged.
    case RetryTimer => s.place.Backoff? && s.epoch == s.seen
    case SessionCancelled => s.place.InSession? && s.epoch != s.seen
    case SessionEnds(_) => s.place.InSession?
  }

  predicate SessionEnabled(s: State, x: SessionAction)
    requires s.place.InSession?
  {
    match x
    case SnapshotInvalid(capturedAt, v) =>
      Quiet(s) && s.place.request.Some? && (v.session.Some? ==> !Admitted(s, v, v.session.value, capturedAt))
    case SnapshotChecked(capturedAt, v) =>
      && Quiet(s) && s.place.request.Some? && s.place.snapshot.None? && v.session.Some?
      && Admitted(s, v, v.session.value, capturedAt)
    case SnapshotEncoded(_) => s.place.work.Encoding? && s.place.snapshot.None?
    case NewEvent(_, _, _) =>
      Quiet(s) && !s.place.uploading && s.outbox.None? && s.place.request.None? && s.now - s.lastNewEvent >= MINUTE
    case CheckStep(_) => Checks(s.place.work)
    case StartSend => s.place.work.Cleared?
    case EndSend => (s.place.work.SendingEvent? || s.place.work.SendingSnapshot?) && Next(s).Some?
    case _ => Quiet(s)
  }

  predicate Enabled(s: State, a: Action) {
    match a
    case Wait(_) => true
    case Commits(c) => CommitEnabled(s, c)
    case Loops(l) => LoopEnabled(s, l)
    case Serves(x) => s.place.InSession? && SessionEnabled(s, x)
  }

  predicate Checks(work: Work) {
    work.Looked? || work.Running? || work.EpochSeen? || work.FreshSeen? || work.FenceSeen?
  }

  /** The image to be sent next: a snapshot goes before the automatic outbox. */
  function Next(s: State): Option<Outbound>
    requires s.place.InSession?
  {
    if s.place.snapshot.Some? then s.place.snapshot else s.outbox
  }

  /** The open request still admits this frame. Snapshot consent is fixed for a session. */
  predicate Admitted(s: State, v: View, session: nat, capturedAt: nat)
    requires s.place.InSession? && s.place.request.Some?
  {
    var fence := s.place.request.value;
    fence.Admits(LocalState(fence.state.allowed, s.epoch, v.session), session, capturedAt, v.wall, s.now)
  }

  function Born(s: State, bytes: seq<int>, capturedAt: nat, session: nat): Outbound {
    Outbound(|s.created|, bytes, capturedAt, session, s.now)
  }

  function Acked(item: Option<Outbound>, ack: Ack, now: nat): Option<Outbound>
    requires item.Some?
  {
    match ack
    case Retry(seconds) =>
      Some(item.value.(retryAt := now + (if seconds < 60 then 60 else if seconds > 3600 then 3600 else seconds) * 1000))
    case _ => None
  }

  predicate Names(item: Option<Outbound>, id: nat) {
    item.Some? && item.value.id == id
  }

  function At(s: State, work: Work): State
    requires s.place.InSession?
  {
    s.(place := s.place.(work := work))
  }

  /** The next check before a send. */
  function CheckNext(s: State, wall: nat): State
    requires s.place.InSession? && Checks(s.place.work)
  {
    match s.place.work
    case Looked(current) => if s.stopped then s.(place := Backoff) else At(s, Running(current))
    case Running(current) => if s.epoch != s.seen then s.(place := Backoff) else At(s, EpochSeen(current))
    case EpochSeen(current) =>
      if s.place.uploading || Next(s).None? then At(s, Resting)
      else if Fresh(Next(s).value, View(current, wall)) then At(s, FreshSeen(current))
      else if s.place.snapshot.Some? then s.(place := s.place.(snapshot := None, work := Resting))
      else At(s, Resting).(outbox := None)
    case FreshSeen(current) =>
      if Next(s).Some?
         && (s.place.request.Some? ==>
               Admitted(s, View(current, wall), Next(s).value.session, Next(s).value.capturedAt))
      then At(s, FenceSeen) else At(s, Resting)
    case FenceSeen => if Next(s).Some? && s.now >= Next(s).value.retryAt then At(s, Cleared) else At(s, Resting)
  }

  function CommitNext(s: State, c: CommitAction): State
    requires CommitEnabled(s, c)
  {
    match c
    case SwitchOff => s.(enabled := false, commit := SwitchedOff)
    case AnnounceOff => s.(epoch := s.epoch + 1, commit := Announced)
    case WriteConsent(on) => s.(enabled := on, consent := s.consent + 1, commit := Written)
    case LoseConsent => s.(commit := NoCommit)
    case AnnounceOn => s.(epoch := s.epoch + 1, commit := NoCommit)
    case StopStore => s.(stopped := true)
    case StopAnnounce => s.(epoch := s.epoch + 1)
  }

  function LoopNext(s: State, l: LoopAction): State
    requires LoopEnabled(s, l)
  {
    match l
    case ReadEpoch => s.(seen := s.epoch, place := EpochRead)
    case CheckStopped => s.(place := if s.stopped then Ended else Chosen)
    case Choose(outcome) =>
      (match outcome
       case Disabled => s.(using := s.consent, place := AwaitingChange, outbox := None)
       // An unusable origin or credential waits for a change and keeps the outbox.
       case Unusable => s.(using := s.consent, place := AwaitingChange)
       case Connects => s.(using := s.consent, place := InSession(None, 0, None, false, Resting)))
    case ConsentChanged => s.(place := AtTop, outbox := if s.place.Backoff? then None else s.outbox)
    case RetryTimer => s.(place := AtTop)
    case SessionCancelled => s.(place := AtTop, outbox := None)
    case SessionEnds(fatal) =>
      if fatal then s.(place := AwaitingChange, outbox := None) else s.(place := Backoff)
  }

  function SessionNext(s: State, x: SessionAction): State
    requires s.place.InSession? && SessionEnabled(s, x)
  {
    match x
    case Configured => s.(outbox := None, place := s.place.(request := None, snapshot := None))
    case SnapshotAsked(r, allowed, v) =>
      var fence := New(r, LocalState(allowed, s.epoch, v.session), v.wall, s.now);
      if s.place.request.Some? || s.outbox.Some? || s.place.uploading || fence.None? then s
      else s.(place := s.place.(request := fence, asked := s.now))
    case Acknowledged(id, ack) =>
      if Names(s.place.snapshot, id) then
        var kept := Acked(s.place.snapshot, ack, s.now);
        s.(place := s.place.(snapshot := kept, request := if kept.None? then None else s.place.request))
      else if Names(s.outbox, id) then
        var kept := Acked(s.outbox, ack, s.now);
        s.(outbox := kept,
           place := s.place.(request := if kept.None? && s.place.snapshot.None? then None else s.place.request))
      else s
    case UploadChanges => s.(place := s.place.(uploading := !s.place.uploading))
    case DropStale(v) =>
      s.(outbox := if s.outbox.Some? && !Fresh(s.outbox.value, v) then None else s.outbox)
    case SnapshotInvalid(_, _) => s.(place := s.place.(request := None, snapshot := None))
    case SnapshotChecked(capturedAt, v) => At(s, Encoding(v.session.value, capturedAt))
    case SnapshotEncoded(jpeg) =>
      var work := s.place.work;
      if jpeg.None? then s.(place := s.place.(request := None, work := Resting))
      else s.(place := s.place.(snapshot := Some(Born(s, jpeg.value, work.capturedAt, work.session)), work := Resting),
              created := s.created + [Created(jpeg.value, work.session, s.seen, s.using, false)])
    case NewEvent(bytes, capturedAt, session) =>
      s.(outbox := Some(Born(s, bytes, capturedAt, session)),
         created := s.created + [Created(bytes, session, s.seen, s.using, true)],
         lastNewEvent := s.now)
    case LookAtSource(current) => At(s, Looked(current))
    case CheckStep(wall) => CheckNext(s, wall)
    case StartSend =>
      s.(place := s.place.(work := if s.place.snapshot.Some? then SendingSnapshot else SendingEvent), startedAt := s.now)
    case EndSend =>
      // The whole message has been handed over: a completed send.
      var item := Next(s);
      var automatic := s.place.work.SendingEvent?;
      var again := item.value.(retryAt := s.now + MINUTE);
      s.(place := s.place.(work := Resting, snapshot := if automatic then s.place.snapshot else Some(again)),
         outbox := if automatic then Some(again) else s.outbox,
         lastNewEvent := s.now,
         log := s.log + [Sent(item.value.id, item.value.bytes, automatic, s.startedAt, s.now, s.seen, s.using, item.value.session)])
  }

  function Apply(s: State, a: Action): State
    requires Enabled(s, a)
  {
    match a
    case Wait(ms) => s.(now := s.now + ms)
    case Commits(c) => CommitNext(s, c)
    case Loops(l) => LoopNext(s, l)
    case Serves(x) => SessionNext(s, x)
  }

  predicate Follows(states: seq<State>, actions: seq<Action>, i: nat)
    requires i < |actions| < |states|
  {
    Enabled(states[i], actions[i]) && states[i + 1] == Apply(states[i], actions[i])
  }

  ghost predicate Run(states: seq<State>, actions: seq<Action>) {
    && |states| == |actions| + 1
    && Init(states[0])
    && forall i :: 0 <= i < |actions| ==> Follows(states, actions, i)
  }

  // ---------------------------------------------------------------- the invariant

  /** An automatic image and an open snapshot request exclude each other. */
  predicate Exclusive(place: Place, outbox: Option<Outbound>) {
    place.InSession? ==>
      && (outbox.Some? ==> place.request.None?)
      && (place.snapshot.Some? ==> place.request.Some?)
      && (place.work.Encoding? ==> place.request.Some? && place.snapshot.None?)
      && (place.work.SendingSnapshot? ==> place.snapshot.Some?)
      && (place.work.SendingEvent? ==> place.snapshot.None? && outbox.Some?)
      && (place.work.FreshSeen? || place.work.FenceSeen? || place.work.Cleared? ==> place.snapshot.Some? || outbox.Some?)
      && (place.request.Some? ==> place.request.value.deadline <= place.asked + 90000)
  }

  /** The checks have found the epoch current. */
  predicate PastEpoch(work: Work) {
    work.EpochSeen? || work.FreshSeen? || work.FenceSeen? || work.Cleared?
  }

  /** A request was met in the epoch of its session or, before the session noticed, in a later one. */
  predicate Requested(place: Place, seen: nat, epoch: nat) {
    place.InSession? && place.request.Some? ==>
      && seen <= place.request.value.state.generation <= epoch
      && (PastEpoch(place.work) ==> place.request.value.state.generation == seen)
  }

  /** While a session's epoch is current the settings it uses are those in force, or a commit has
      switched them off and is about to say so. */
  predicate Consented(s: State) {
    && (s.enabled ==> s.commit.NoCommit? || s.commit.Written?)
    && s.using <= s.consent
    && (s.place.InSession? && s.seen == s.epoch ==>
          s.consent == s.using && !s.commit.Announced? && (s.enabled || s.commit.SwitchedOff?))
  }

  predicate Recorded(created: seq<Created>, item: Outbound, automatic: bool) {
    && item.id < |created|
    && created[item.id].bytes == item.bytes
    && created[item.id].session == item.session
    && created[item.id].automatic == automatic
  }

  predicate Identified(place: Place, outbox: Option<Outbound>, created: seq<Created>, seen: nat, using: nat) {
    && (outbox.Some? ==>
          && Recorded(created, outbox.value, true)
          && created[outbox.value.id].epoch <= seen
          && created[outbox.value.id].consent <= using)
    && (place.InSession? && place.snapshot.Some? ==>
          && Recorded(created, place.snapshot.value, false)
          && created[place.snapshot.value.id].epoch == seen)
  }

  predicate SentOk(created: seq<Created>, e: Sent) {
    && e.id < |created|
    && created[e.id].bytes == e.bytes && created[e.id].session == e.session && created[e.id].automatic == e.automatic
    && (!e.automatic ==> created[e.id].epoch == e.epoch)
  }

  ghost predicate LogIdentified(log: seq<Sent>, created: seq<Created>) {
    forall i :: 0 <= i < |log| ==> SentOk(created, log[i])
  }

  /** Automatic sends on record completed at least a minute before `t`. */
  ghost predicate QuietBefore(log: seq<Sent>, t: int) {
    forall i :: 0 <= i < |log| && log[i].automatic ==> log[i].at + MINUTE <= t
  }

  ghost predicate Spaced(log: seq<Sent>) {
    forall i, j :: 0 <= i < j < |log| && log[i].automatic && log[j].automatic ==>
      log[i].at + MINUTE <= log[j].startedAt <= log[j].at
  }

  ghost predicate Timed(s: State) {
    && Spaced(s.log)
    && s.lastNewEvent <= s.now
    && QuietBefore(s.log, s.lastNewEvent + MINUTE)
    && (s.outbox.Some? ==> QuietBefore(s.log, s.outbox.value.retryAt))
    && (s.place.InSession? && s.place.work.Cleared? && s.place.snapshot.None? && s.outbox.Some? ==>
          s.outbox.value.retryAt <= s.now)
    && (s.place.InSession? && s.place.work.SendingEvent? ==>
          s.startedAt <= s.now && QuietBefore(s.log, s.startedAt))
  }

  ghost predicate Inv(s: State) {
    && s.seen <= s.epoch
    && Exclusive(s.place, s.outbox)
    && Requested(s.place, s.seen, s.epoch)
    && Consented(s)
    && Identified(s.place, s.outbox, s.created, s.seen, s.using)
    && LogIdentified(s.log, s.created)
    && Timed(s)
  }

  lemma CommitPreserves(s: State, c: CommitAction)
    requires Inv(s) && CommitEnabled(s, c)
    ensures Inv(CommitNext(s, c))
  {
  }

  lemma ChoosePreserves(s: State, outcome: Outcome)
    requires Inv(s) && LoopEnabled(s, Choose(outcome))
    ensures Inv(LoopNext(s, Choose(outcome)))
  {
  }

  /** Outside a session the invariant says little. */
  lemma LeavePreserves(s: State, place: Place, outbox: Option<Outbound>)
    requires Inv(s) && !place.InSession? && (outbox.None? || outbox == s.outbox)
    ensures Inv(s.(place := place, outbox := outbox))
  {
  }

  lemma LoopPreserves(s: State, l: LoopAction)
    requires Inv(s) && LoopEnabled(s, l)
    ensures Inv(LoopNext(s, l))
  {
    match l
    case Choose(outcome) => ChoosePreserves(s, outcome);
    case ReadEpoch => LeavePreserves(s.(seen := s.epoch), EpochRead, s.outbox);
    case _ => LeavePreserves(s, LoopNext(s, l).place, LoopNext(s, l).outbox);
  }

  lemma RequestPreserves(s: State, x: SessionAction)
    requires Inv(s) && s.place.InSession? && SessionEnabled(s, x)
    requires x.Configured? || x.SnapshotAsked? || x.UploadChanges? || x.DropStale? || x.SnapshotInvalid?
             || x.SnapshotChecked?
    ensures Inv(SessionNext(s, x))
  {
  }

  lemma SourceCheckPreserves(s: State, wall: nat)
    requires Inv(s) && s.place.InSession? && (s.place.work.Looked? || s.place.work.Running?)
    ensures Inv(CheckNext(s, wall))
  {
  }

  /** A session goes on to the next check, or back to rest. */
  lemma MovingOnPreserves(s: State, work: Work)
    requires Inv(s) && s.place.InSession? && PastEpoch(s.place.work)
    requires work.Resting? || (Next(s).Some? && (work.FreshSeen? || work.FenceSeen? || work.Cleared?))
    requires work.Cleared? ==> Next(s).value.retryAt <= s.now
    ensures Inv(At(s, work))
  {
  }

  lemma DroppingPreserves(s: State)
    requires Inv(s) && s.place.InSession? && s.place.work.Resting?
    ensures Inv(s.(place := s.place.(snapshot := None)))
    ensures Inv(s.(outbox := None))
  {
  }

  lemma FreshCheckPreserves(s: State, wall: nat)
    requires Inv(s) && s.place.InSession? && s.place.work.EpochSeen?
    ensures Inv(CheckNext(s, wall))
  {
    if Next(s).Some? {
      MovingOnPreserves(s, FreshSeen(s.place.work.current));
    }
    MovingOnPreserves(s, Resting);
    DroppingPreserves(At(s, Resting));
  }

  lemma FenceCheckPreserves(s: State, wall: nat)
    requires Inv(s) && s.place.InSession? && (s.place.work.FreshSeen? || s.place.work.FenceSeen?)
    ensures Inv(CheckNext(s, wall))
  {
    MovingOnPreserves(s, Resting);
    if s.place.work.FreshSeen? && Next(s).Some? {
      MovingOnPreserves(s, FenceSeen);
    } else if Next(s).Some? && s.now >= Next(s).value.retryAt {
      MovingOnPreserves(s, Cleared);
    }
  }

  lemma CheckPreserves(s: State, wall: nat)
    requires Inv(s) && s.place.InSession? && Checks(s.place.work)
    ensures Inv(CheckNext(s, wall))
  {
    match s.place.work
    case Looked(_) => SourceCheckPreserves(s, wall);
    case Running(_) => SourceCheckPreserves(s, wall);
    case EpochSeen(_) => FreshCheckPreserves(s, wall);
    case _ => FenceCheckPreserves(s, wall);
  }

  lemma StartPreserves(s: State, x: SessionAction)
    requires Inv(s) && s.place.InSession? && SessionEnabled(s, x) && (x.LookAtSource? || x.StartSend?)
    ensures Inv(SessionNext(s, x))
  {
  }

  lemma SnapshotAckPreserves(s: State, id: nat, ack: Ack)
    requires Inv(s) && Quiet(s) && Names(s.place.snapshot, id)
    ensures Inv(SessionNext(s, Acknowledged(id, ack)))
  {
  }

  lemma EventAckPreserves(s: State, id: nat, ack: Ack)
    requires Inv(s) && Quiet(s) && !Names(s.place.snapshot, id)
    ensures Inv(SessionNext(s, Acknowledged(id, ack)))
  {
  }

  lemma AcknowledgedPreserves(s: State, id: nat, ack: Ack)
    requires Inv(s) && Quiet(s)
    ensures Inv(SessionNext(s, Acknowledged(id, ack)))
  {
    if Names(s.place.snapshot, id) {
      SnapshotAckPreserves(s, id, ack);
    } else {
      EventAckPreserves(s, id, ack);
    }
  }

  /** New identifiers leave everything on record as it is. */
  lemma RecordsKept(s: State, c: Created)
    requires Inv(s)
    ensures var created := s.created + [c];
            && LogIdentified(s.log, created)
            && Identified(s.place, s.outbox, created, s.seen, s.using)
  {
    assert forall i :: 0 <= i < |s.created| ==> (s.created + [c])[i] == s.created[i];
    forall i | 0 <= i < |s.log| ensures SentOk(s.created + [c], s.log[i]) {
      assert SentOk(s.created, s.log[i]);
    }
  }

  lemma CreatePreserves(s: State, x: SessionAction)
    requires Inv(s) && s.place.InSession? && SessionEnabled(s, x) && (x.SnapshotEncoded? || x.NewEvent?)
    ensures Inv(SessionNext(s, x))
  {
    if x.NewEvent? {
      RecordsKept(s, Created(x.bytes, x.session, s.seen, s.using, true));
    } else if x.jpeg.Some? {
      RecordsKept(s, Created(x.jpeg.value, s.place.work.session, s.seen, s.using, false));
    }
  }

  lemma LogGrows(s: State, e: Sent)
    requires Inv(s) && SentOk(s.created, e) && e.at == s.now
    requires e.automatic ==> QuietBefore(s.log, e.startedAt) && e.startedAt <= e.at
    ensures Spaced(s.log + [e]) && LogIdentified(s.log + [e], s.created)
    ensures QuietBefore(s.log + [e], s.now + MINUTE)
  {
    assert forall i :: 0 <= i < |s.log| ==> (s.log + [e])[i] == s.log[i];
  }

  lemma EndSendPreserves(s: State)
    requires Inv(s) && s.place.InSession? && SessionEnabled(s, EndSend)
    ensures Inv(SessionNext(s, EndSend))
  {
    var item := Next(s).value;
    LogGrows(s, Sent(item.id, item.bytes, s.place.work.SendingEvent?, s.startedAt, s.now, s.seen, s.using, item.session));
  }

  lemma SessionPreserves(s: State, x: SessionAction)
    requires Inv(s) && s.place.InSession? && SessionEnabled(s, x)
    ensures Inv(SessionNext(s, x))
  {
    match x
    case Acknowledged(id, ack) => AcknowledgedPreserves(s, id, ack);
    case SnapshotEncoded(_) => CreatePreserves(s, x);
    case NewEvent(_, _, _) => CreatePreserves(s, x);
    case EndSend => EndSendPreserves(s);
    case LookAtSource(_) => StartPreserves(s, x);
    case CheckStep(wall) => CheckPreserves(s, wall);
    case StartSend => StartPreserves(s, x);
    case _ => RequestPreserves(s, x);
  }

  lemma StepPreserves(s: State, a: Action)
    requires Inv(s) && Enabled(s, a)
    ensures Inv(Apply(s, a))
  {
    match a
    case Wait(_) =>
    case Commits(c) => CommitPreserves(s, c);
    case Loops(l) => LoopPreserves(s, l);
    case Serves(x) => SessionPreserves(s, x);
  }

  lemma {:induction false} RunInvariant(states: seq<State>, actions: seq<Action>, i: nat)
    requires Run(states, actions) && i < |states|
    ensures Inv(states[i])
  {
    if i > 0 {
      RunInvariant(states, actions, i - 1);
      assert Follows(states, actions, i - 1);
      StepPreserves(states[i - 1], actions[i - 1]);
    }
  }

  // ---------------------------------------------------------------- the promises

  /** Across acknowledgements, retries and reconnects, an automatic image is never sent within a
      minute of the completed send of another one. */
  lemma AutomaticSendsSpaced(states: seq<State>, actions: seq<Action>, n: nat, i: nat, j: nat)
    requires Run(states, actions) && n < |states| && i < j < |states[n].log|
    requires states[n].log[i].automatic && states[n].log[j].automatic
    ensures states[n].log[i].at + 60000 <= states[n].log[j].startedAt
    ensures states[n].log[i].at + 60000 <= states[n].log[j].at
  {
    RunInvariant(states, actions, n);
  }

  /** Everything sent under one identifier is the same image: same bytes, same capture session. */
  lemma ResendsIdentical(states: seq<State>, actions: seq<Action>, n: nat, i: nat, j: nat)
    requires Run(states, actions) && n < |states| && i < |states[n].log| && j < |states[n].log|
    requires states[n].log[i].id == states[n].log[j].id
    ensures states[n].log[i].bytes == states[n].log[j].bytes
    ensures states[n].log[i].session == states[n].log[j].session
    ensures states[n].log[i].automatic == states[n].log[j].automatic
  {
    RunInvariant(states, actions, n);
  }

  /** An automatic image is never held while a snapshot request is open, so a snapshot is never
      sent in its place nor it in place of a snapshot. */
  lemma OutboxAndRequestExclusive(states: seq<State>, actions: seq<Action>, n: nat)
    requires Run(states, actions) && n < |states| && states[n].place.InSession?
    ensures states[n].outbox.Some? ==> states[n].place.request.None? && states[n].place.snapshot.None?
    ensures states[n].place.snapshot.Some? ==> states[n].place.request.Some?
  {
    RunInvariant(states, actions, n);
  }

  /** The fence check that lets a snapshot go finds the consent and the capture session its request
      met, within 90 seconds of the request, and the epoch the image was made in. */
  lemma SnapshotFencedByItsRequest(states: seq<State>, actions: seq<Action>, n: nat)
    requires Run(states, actions) && n < |actions| && actions[n].Serves? && actions[n].x.CheckStep?
    requires states[n].place.InSession? && states[n].place.work.FreshSeen? && states[n].place.snapshot.Some?
    requires states[n + 1].place.InSession? && states[n + 1].place.work.FenceSeen?
    ensures states[n].place.request.Some? && states[n].place.snapshot.value.id < |states[n].created|
    ensures var fence := states[n].place.request.value;
            && fence.state.generation == states[n].epoch
            && fence.state.session == Some(states[n].place.snapshot.value.session)
            && states[n].now < states[n].place.asked + 90000
            && states[n].created[states[n].place.snapshot.value.id].epoch == states[n].epoch
  {
    RunInvariant(states, actions, n);
    assert Follows(states, actions, n);
  }

  // ---------------------------------------------------------------- consent of automatic images

  /** Before step `n` some read of the epoch found it moved and this image still in the outbox. */
  predicate Carried(states: seq<State>, actions: seq<Action>, id: nat, n: nat)
    requires |states| == |actions| + 1 && n <= |actions|
  {
    n > 0 && (Carries(states[n - 1], actions[n - 1], id) || Carried(states, actions, id, n - 1))
  }

  predicate Carries(s: State, a: Action, id: nat) {
    a == Loops(ReadEpoch) && Names(s.outbox, id) && s.epoch != s.seen
  }

  /** Every identifier in use is on record. */
  predicate Registered(s: State) {
    s.outbox.Some? ==> s.outbox.value.id < |s.created|
  }

  /** What a step does to the outbox: it may empty it, touch what it holds without changing which
      image that is, or, in a session, put in a new image of the session's epoch and settings. */
  predicate OutboxFrom(s: State, t: State) {
    && s.created <= t.created
    && (t.outbox.Some? ==>
          && t.outbox.value.id < |t.created|
          && (Names(s.outbox, t.outbox.value.id) ||
                (t.seen == s.seen && t.using == s.using && t.outbox.value.id == |s.created|
                 && t.created[|s.created|].epoch == s.seen && t.created[|s.created|].consent == s.using)))
  }

  lemma CheckSource(s: State, wall: nat)
    requires s.place.InSession? && Checks(s.place.work)
    ensures var t := CheckNext(s, wall);
            && (t.outbox == s.outbox || t.outbox.None?)
            && t.created == s.created && t.seen == s.seen && t.using == s.using
  {
  }

  lemma SessionSource(s: State, x: SessionAction)
    requires Registered(s) && Exclusive(s.place, s.outbox) && s.place.InSession? && SessionEnabled(s, x)
    ensures OutboxFrom(s, SessionNext(s, x))
    ensures SessionNext(s, x).seen == s.seen && SessionNext(s, x).using == s.using
  {
    if x.CheckStep? {
      CheckSource(s, x.wall);
    }
  }

  lemma LoopSource(s: State, l: LoopAction)
    requires Registered(s) && LoopEnabled(s, l)
    ensures var t := LoopNext(s, l);
            && OutboxFrom(s, t) && t.created == s.created
            && t.seen == (if l.ReadEpoch? then s.epoch else s.seen)
            && t.using == (if l.Choose? then s.consent else s.using)
            && (t.outbox.Some? && l.Choose? ==> !l.outcome.Disabled?)
  {
  }

  lemma CommitSource(s: State, c: CommitAction)
    requires CommitEnabled(s, c)
    ensures var t := CommitNext(s, c);
            t.outbox == s.outbox && t.created == s.created && t.seen == s.seen && t.using == s.using && t.place == s.place
  {
  }

  lemma OutboxSource(s: State, a: Action)
    requires Registered(s) && Exclusive(s.place, s.outbox) && Enabled(s, a)
    ensures var t := Apply(s, a);
            && OutboxFrom(s, t)
            && t.seen == (if a == Loops(ReadEpoch) then s.epoch else s.seen)
            && t.using == (if Chooses(a) then s.consent else s.using)
            && (t.outbox.Some? && Chooses(a) ==> !a.l.outcome.Disabled?)
            && (a.Loops? ==> t.created == s.created)
  {
    match a
    case Wait(_) =>
    case Commits(c) => CommitSource(s, c);
    case Loops(l) => LoopSource(s, l);
    case Serves(x) => SessionSource(s, x);
  }

  lemma RunSource(states: seq<State>, actions: seq<Action>, n: nat)
    requires Run(states, actions) && n < |actions|
    ensures var s, a, t := states[n], actions[n], states[n + 1];
            && Registered(s) && OutboxFrom(s, t)
            && t.seen == (if a == Loops(ReadEpoch) then s.epoch else s.seen)
            && t.using == (if Chooses(a) then s.consent else s.using)
            && (t.outbox.Some? && Chooses(a) ==> !a.l.outcome.Disabled?)
            && (a.Loops? ==> t.created == s.created)
  {
    RunInvariant(states, actions, n);
    assert Follows(states, actions, n);
    OutboxSource(states[n], actions[n]);
  }

  lemma RunCreates(states: seq<State>, actions: seq<Action>, n: nat)
    requires Run(states, actions) && n < |actions|
    ensures |states[n].created| <= |states[n + 1].created| && Registered(states[n])
  {
    RunSource(states, actions, n);
  }

  lemma {:induction false} NewImageNotCarried(states: seq<State>, actions: seq<Action>, n: nat, id: nat)
    requires Run(states, actions) && n < |states| && |states[n].created| <= id
    ensures !Carried(states, actions, id, n)
  {
    if n > 0 {
      RunCreates(states, actions, n - 1);
      NewImageNotCarried(states, actions, n - 1, id);
    }
  }

  /** An image in the outbox is of an earlier epoch than the one last read exactly when such a read
      has carried it. */
  lemma {:induction false} OlderExactlyWhenCarried(states: seq<State>, actions: seq<Action>, n: nat)
    requires Run(states, actions) && n < |states| && states[n].outbox.Some?
    ensures var id := states[n].outbox.value.id;
            && id < |states[n].created| && states[n].created[id].epoch <= states[n].seen
            && (states[n].created[id].epoch != states[n].seen <==> Carried(states, actions, id, n))
  {
    assert n > 0;
    var id := states[n].outbox.value.id;
    RunSource(states, actions, n - 1);
    EpochSeenOnly(states, actions, n - 1);
    if Names(states[n - 1].outbox, id) {
      OlderExactlyWhenCarried(states, actions, n - 1);
    } else {
      NewImageNotCarried(states, actions, n - 1, id);
    }
  }

  lemma EpochSeenOnly(states: seq<State>, actions: seq<Action>, n: nat)
    requires Run(states, actions) && n < |states|
    ensures states[n].seen <= states[n].epoch
  {
    RunInvariant(states, actions, n);
  }

  /** The step `n` finds the epoch current and goes on to the next check. */
  predicate PassesEpoch(states: seq<State>, actions: seq<Action>, n: nat)
    requires |states| == |actions| + 1
  {
    && n < |actions| && actions[n].Serves? && actions[n].x.CheckStep?
    && states[n].place.InSession? && states[n].place.work.Running?
    && states[n + 1].place.InSession? && states[n + 1].place.work.EpochSeen?
  }

  lemma EpochFound(states: seq<State>, actions: seq<Action>, n: nat)
    requires Run(states, actions) && PassesEpoch(states, actions, n)
    ensures states[n].epoch == states[n].seen && states[n + 1] == At(states[n], states[n + 1].place.work)
  {
    assert Follows(states, actions, n);
  }

  /** The epoch check before a send finds an automatic image of the current epoch exactly when no read
      of the epoch, however many sessions ago, found the epoch moved and the image still waiting. */
  lemma CheckedInOwnEpoch(states: seq<State>, actions: seq<Action>, n: nat)
    requires Run(states, actions) && PassesEpoch(states, actions, n) && states[n].outbox.Some?
    ensures states[n].outbox.value.id < |states[n].created|
    ensures states[n].created[states[n].outbox.value.id].epoch == states[n].epoch
       <==> !Carried(states, actions, states[n].outbox.value.id, n)
  {
    OlderExactlyWhenCarried(states, actions, n);
    EpochFound(states, actions, n);
  }

  /** The epoch moved between states `i` and `j`: a commit announced itself, before or after its
      write, or the final stop did. */
  ghost predicate EpochMoved(actions: seq<Action>, i: nat, j: nat)
    requires j <= |actions|
  {
    exists c :: i <= c < j && MovesEpoch(actions[c])
  }

  predicate MovesEpoch(a: Action) {
    a.Commits? && (a.c.AnnounceOff? || a.c.AnnounceOn? || a.c.StopAnnounce?)
  }

  lemma RunMovesEpoch(states: seq<State>, actions: seq<Action>, j: nat)
    requires Run(states, actions) && 0 < j < |states|
    ensures states[j].epoch == states[j - 1].epoch + if MovesEpoch(actions[j - 1]) then 1 else 0
  {
    assert Follows(states, actions, j - 1);
  }

  function Moves(actions: seq<Action>, i: nat, j: nat): nat
    requires i <= j <= |actions|
  {
    if i == j then 0 else Moves(actions, i, j - 1) + if MovesEpoch(actions[j - 1]) then 1 else 0
  }

  lemma {:induction false} MovedWhenCounted(actions: seq<Action>, i: nat, j: nat)
    requires i <= j <= |actions|
    ensures EpochMoved(actions, i, j) <==> Moves(actions, i, j) > 0
  {
    if i < j {
      MovedWhenCounted(actions, i, j - 1);
      if EpochMoved(actions, i, j - 1) {
        var c :| i <= c < j - 1 && MovesEpoch(actions[c]);
        assert i <= c < j && MovesEpoch(actions[c]);
      }
    }
  }

  lemma {:induction false} EpochsCounted(states: seq<State>, actions: seq<Action>, i: nat, j: nat)
    requires Run(states, actions) && i <= j < |states|
    ensures states[j].epoch == states[i].epoch + Moves(actions, i, j)
  {
    if i < j {
      EpochsCounted(states, actions, i, j - 1);
      RunMovesEpoch(states, actions, j);
    }
  }

  lemma EpochCounts(states: seq<State>, actions: seq<Action>, i: nat, j: nat)
    requires Run(states, actions) && i <= j < |states|
    ensures states[i].epoch <= states[j].epoch
    ensures states[i].epoch == states[j].epoch <==> !EpochMoved(actions, i, j)
  {
    EpochsCounted(states, actions, i, j);
    MovedWhenCounted(actions, i, j);
  }

  predicate Checking(s: State) {
    s.place.InSession? && PastEpoch(s.place.work)
  }

  /** From its epoch check at `c` up to its start at `i` a send stays under way. */
  ghost predicate CheckingThroughout(states: seq<State>, c: nat, i: nat)
    requires i < |states|
  {
    forall k | c < k <= i :: Checking(states[k])
  }

  lemma OnlyCheckStepsCheck(s: State, x: SessionAction)
    requires s.place.InSession? && SessionEnabled(s, x) && Checking(SessionNext(s, x))
    ensures x.CheckStep? && (Checking(s) || (s.place.work.Running? && SessionNext(s, x).place.work.EpochSeen?))
  {
  }

  lemma CheckKeepsItem(s: State, wall: nat)
    requires s.place.InSession? && Checks(s.place.work) && Checking(CheckNext(s, wall))
    ensures CheckNext(s, wall).outbox == s.outbox && CheckNext(s, wall).created == s.created
  {
  }

  lemma StepKeepsItem(s: State, a: Action)
    requires Enabled(s, a) && Checking(s) && Checking(Apply(s, a))
    ensures Apply(s, a).outbox == s.outbox && Apply(s, a).created == s.created
  {
    match a
    case Wait(_) =>
    case Commits(c) => CommitSource(s, c);
    case Loops(_) =>
    case Serves(x) =>
      OnlyCheckStepsCheck(s, x);
      CheckKeepsItem(s, x.wall);
  }

  lemma RunKeepsItem(states: seq<State>, actions: seq<Action>, i: nat)
    requires Run(states, actions) && 0 < i < |states| && Checking(states[i - 1]) && Checking(states[i])
    ensures states[i].outbox == states[i - 1].outbox && states[i].created == states[i - 1].created
  {
    assert Follows(states, actions, i - 1);
    StepKeepsItem(states[i - 1], actions[i - 1]);
  }

  lemma {:induction false} ItemKept(states: seq<State>, actions: seq<Action>, c: nat, i: nat)
    requires Run(states, actions) && c < i < |states|
    requires PassesEpoch(states, actions, c) && CheckingThroughout(states, c, i)
    ensures states[i].outbox == states[c].outbox && states[i].created == states[c].created
  {
    if c + 1 == i {
      EpochFound(states, actions, c);
    } else {
      ItemKept(states, actions, c, i - 1);
      assert Checking(states[i - 1]) && Checking(states[i]);
      RunKeepsItem(states, actions, i);
    }
  }

  lemma CheckingBegins(s: State, a: Action)
    requires Enabled(s, a) && !Checking(s) && Checking(Apply(s, a))
    ensures a.Serves? && a.x.CheckStep? && s.place.InSession? && s.place.work.Running?
    ensures Apply(s, a).place.work.EpochSeen?
  {
    match a
    case Wait(_) =>
    case Commits(c) => CommitSource(s, c);
    case Loops(l) =>
    case Serves(x) => OnlyCheckStepsCheck(s, x);
  }

  /** Every send under way has passed its epoch check. */
  lemma {:induction false} SendWasChecked(states: seq<State>, actions: seq<Action>, i: nat) returns (c: nat)
    requires Run(states, actions) && i < |states| && Checking(states[i])
    ensures c < i && PassesEpoch(states, actions, c) && CheckingThroughout(states, c, i)
  {
    assert i > 0;
    if Checking(states[i - 1]) {
      c := SendWasChecked(states, actions, i - 1);
    } else {
      c := i - 1;
      assert Follows(states, actions, c);
      CheckingBegins(states[c], actions[c]);
    }
  }

  /** Every automatic image that starts on its way passed an epoch check at some step `c`, and it
      starts in the epoch it was made in exactly when the run loop had not carried it by then and the
      epoch has not moved since. */
  lemma StartedInOwnEpoch(states: seq<State>, actions: seq<Action>, i: nat) returns (c: nat)
    requires Run(states, actions) && i < |actions| && actions[i] == Serves(StartSend) && states[i].outbox.Some?
    ensures c < i && PassesEpoch(states, actions, c) && states[c].outbox == states[i].outbox
    ensures states[i].outbox.value.id < |states[i].created|
    ensures var id := states[i].outbox.value.id;
            states[i].created[id].epoch == states[i].epoch <==>
            !Carried(states, actions, id, c) && !EpochMoved(actions, c, i)
  {
    assert Follows(states, actions, i);
    c := SendWasChecked(states, actions, i);
    ItemKept(states, actions, c, i);
    CheckedInOwnEpoch(states, actions, c);
    OlderExactlyWhenCarried(states, actions, c);
    EpochCounts(states, actions, c, i);
    EpochFound(states, actions, c);
  }

  // ---------------------------------------------------------------- settings of automatic images

  predicate Chooses(a: Action) {
    a.Loops? && a.l.Choose?
  }

  /** The loop reads settings with sharing on, other than those it used before, while the image waits. */
  predicate Adopts(s: State, a: Action, id: nat) {
    Chooses(a) && !a.l.outcome.Disabled? && Names(s.outbox, id) && s.consent != s.using
  }

  predicate Adopted(states: seq<State>, actions: seq<Action>, id: nat, n: nat)
    requires |states| == |actions| + 1 && n <= |actions|
  {
    n > 0 && (Adopts(states[n - 1], actions[n - 1], id) || Adopted(states, actions, id, n - 1))
  }

  lemma {:induction false} NewImageNotAdopted(states: seq<State>, actions: seq<Action>, n: nat, id: nat)
    requires Run(states, actions) && n < |states| && |states[n].created| <= id
    ensures !Adopted(states, actions, id, n)
  {
    if n > 0 {
      RunCreates(states, actions, n - 1);
      NewImageNotAdopted(states, actions, n - 1, id);
    }
  }

  /** An image in the outbox was made under other settings than those in use exactly when the loop
      has adopted new ones over it. */
  lemma {:induction false} OtherSettingsExactlyWhenAdopted(states: seq<State>, actions: seq<Action>, n: nat)
    requires Run(states, actions) && n < |states| && states[n].outbox.Some?
    ensures var id := states[n].outbox.value.id;
            && id < |states[n].created| && states[n].created[id].consent <= states[n].using
            && (states[n].created[id].consent != states[n].using <==> Adopted(states, actions, id, n))
  {
    assert n > 0;
    var id := states[n].outbox.value.id;
    RunSource(states, actions, n - 1);
    SettingsRead(states, actions, n - 1);
    if Names(states[n - 1].outbox, id) {
      OtherSettingsExactlyWhenAdopted(states, actions, n - 1);
    } else {
      NewImageNotAdopted(states, actions, n - 1, id);
    }
  }

  lemma SettingsRead(states: seq<State>, actions: seq<Action>, n: nat)
    requires Run(states, actions) && n < |states|
    ensures states[n].using <= states[n].consent
  {
    RunInvariant(states, actions, n);
  }

  /** The epoch check before a send finds an automatic image made under the settings now in force
      exactly when the loop, while the image waited, never chose to go on under new ones. */
  lemma CheckedUnderOwnSettings(states: seq<State>, actions: seq<Action>, n: nat)
    requires Run(states, actions) && PassesEpoch(states, actions, n) && states[n].outbox.Some?
    ensures states[n].outbox.value.id < |states[n].created|
    ensures states[n].created[states[n].outbox.value.id].consent == states[n].consent
       <==> !Adopted(states, actions, states[n].outbox.value.id, n)
  {
    OtherSettingsExactlyWhenAdopted(states, actions, n);
    EpochFound(states, actions, n);
    RunInvariant(states, actions, n);
  }

  /** At `w` a commit wrote settings with sharing on; since then they were not switched off again and
      the loop made no choice. */
  ghost predicate WaitingSince(actions: seq<Action>, w: nat, n: nat)
    requires n <= |actions|
  {
    && w < n && actions[w] == Commits(WriteConsent(true))
    && forall k | w < k < n :: !Chooses(actions[k]) && actions[k] != Commits(SwitchOff)
  }

  /** Settings with sharing on are in force that the loop has not read. */
  predicate Unread(s: State) {
    s.enabled && s.consent != s.using
  }

  lemma LoopSettings(s: State, l: LoopAction)
    requires LoopEnabled(s, l)
    ensures Unread(LoopNext(s, l)) <==> Unread(s) && !l.Choose?
  {
  }

  lemma SessionSettings(s: State, x: SessionAction)
    requires s.place.InSession? && SessionEnabled(s, x)
    ensures Unread(SessionNext(s, x)) <==> Unread(s)
  {
  }

  lemma CommitSettings(s: State, c: CommitAction)
    requires Inv(s) && CommitEnabled(s, c)
    ensures Unread(CommitNext(s, c)) <==> c == WriteConsent(true) || (Unread(s) && c != SwitchOff)
  {
  }

  lemma SettingsStep(s: State, a: Action)
    requires Inv(s) && Enabled(s, a)
    ensures Unread(Apply(s, a)) <==>
            a == Commits(WriteConsent(true)) || (Unread(s) && !Chooses(a) && a != Commits(SwitchOff))
  {
    match a
    case Wait(_) =>
    case Commits(c) => CommitSettings(s, c);
    case Loops(l) => LoopSettings(s, l);
    case Serves(x) => SessionSettings(s, x);
  }

  lemma RunSettings(states: seq<State>, actions: seq<Action>, n: nat)
    requires Run(states, actions) && n < |actions|
    ensures Unread(states[n + 1]) <==>
            || actions[n] == Commits(WriteConsent(true))
            || (Unread(states[n]) && !Chooses(actions[n]) && actions[n] != Commits(SwitchOff))
  {
    RunInvariant(states, actions, n);
    assert Follows(states, actions, n);
    SettingsStep(states[n], actions[n]);
  }

  lemma {:induction false} WrittenAndWaiting(states: seq<State>, actions: seq<Action>, n: nat) returns (w: nat)
    requires Run(states, actions) && n < |states| && Unread(states[n])
    ensures WaitingSince(actions, w, n)
  {
    assert n > 0;
    RunSettings(states, actions, n - 1);
    w := n - 1;
    if actions[n - 1] != Commits(WriteConsent(true)) {
      w := WrittenAndWaiting(states, actions, n - 1);
    }
  }

  lemma {:induction false} WaitingOnceWritten(states: seq<State>, actions: seq<Action>, w: nat, n: nat)
    requires Run(states, actions) && n < |states| && WaitingSince(actions, w, n)
    ensures Unread(states[n])
  {
    RunSettings(states, actions, n - 1);
    if w < n - 1 {
      WaitingOnceWritten(states, actions, w, n - 1);
    }
  }

  /** The loop's choice adopts new settings over a waiting image exactly when a commit has written
      them with sharing on, and since then neither switched them off nor seen another choice. A choice
      made while a commit has them switched off drops the image instead. */
  lemma AdoptedOnceWritten(states: seq<State>, actions: seq<Action>, n: nat, id: nat)
    requires Run(states, actions) && n < |actions| && Chooses(actions[n]) && Names(states[n].outbox, id)
    ensures Adopts(states[n], actions[n], id) <==> exists w :: WaitingSince(actions, w, n)
    ensures !states[n].enabled ==> states[n + 1].outbox.None?
  {
    assert Follows(states, actions, n);
    if Adopts(states[n], actions[n], id) {
      var w := WrittenAndWaiting(states, actions, n);
    }
    forall w | WaitingSince(actions, w, n) ensures Adopts(states[n], actions[n], id) {
      WaitingOnceWritten(states, actions, w, n);
    }
  }

  // ---------------------------------------------------------------- how an image is carried

  ghost predicate AtTopThroughout(states: seq<State>, m: nat, n: nat)
    requires n < |states|
  {
    forall k | m < k <= n :: states[k].place.AtTop?
  }

  ghost predicate AwaitingThroughout(states: seq<State>, l: nat, m: nat)
    requires m < |states|
  {
    forall k | l < k <= m :: states[k].place.AwaitingChange?
  }

  /** A session ends in a back-off, or is ended by the loop. */
  lemma SessionStays(s: State, x: SessionAction)
    requires s.place.InSession? && SessionEnabled(s, x)
    ensures SessionNext(s, x).place.InSession? || SessionNext(s, x).place.Backoff?
  {
  }

  lemma WaitStep(s: State, a: Action)
    requires Enabled(s, a) && Apply(s, a).place.AwaitingChange? && Apply(s, a).outbox.Some?
    ensures if s.place.AwaitingChange? then s.outbox.Some? else a == Loops(Choose(Unusable))
  {
    match a
    case Wait(_) =>
    case Commits(c) => CommitSource(s, c);
    case Loops(_) =>
    case Serves(x) => SessionStays(s, x);
  }

  /** A wait that still holds an image began with an unusable origin or credential. */
  lemma {:induction false} WaitKeptOutbox(states: seq<State>, actions: seq<Action>, m: nat) returns (l: nat)
    requires Run(states, actions) && m < |states| && states[m].place.AwaitingChange? && states[m].outbox.Some?
    ensures l < m && actions[l] == Loops(Choose(Unusable)) && AwaitingThroughout(states, l, m)
  {
    assert m > 0;
    l := m - 1;
    assert Follows(states, actions, l);
    WaitStep(states[l], actions[l]);
    if states[l].place.AwaitingChange? {
      l := WaitKeptOutbox(states, actions, m - 1);
    }
  }

  lemma TopLoop(s: State, l: LoopAction)
    requires LoopEnabled(s, l) && LoopNext(s, l).place.AtTop? && LoopNext(s, l).outbox.Some?
    ensures LoopNext(s, l).outbox == s.outbox && LoopNext(s, l).seen == s.seen && !s.place.AtTop?
    ensures l.RetryTimer? || (l.ConsentChanged? && s.place.AwaitingChange?)
  {
  }

  /** The loop comes back to its top with an image still in the outbox in two ways only. */
  lemma TopStep(s: State, a: Action)
    requires Enabled(s, a) && Apply(s, a).place.AtTop?
    ensures s.place.AtTop? ==> Apply(s, a).outbox == s.outbox && Apply(s, a).seen == s.seen
    ensures !s.place.AtTop? && Apply(s, a).outbox.Some? ==>
              && Apply(s, a).outbox == s.outbox && Apply(s, a).seen == s.seen
              && (a == Loops(RetryTimer) || (a == Loops(ConsentChanged) && s.place.AwaitingChange?))
  {
    match a
    case Wait(_) =>
    case Commits(c) => CommitSource(s, c);
    case Loops(l) =>
      if LoopNext(s, l).outbox.Some? {
        TopLoop(s, l);
      }
    case Serves(x) => SessionStays(s, x);
  }

  lemma {:induction false} TopKeptOutbox(states: seq<State>, actions: seq<Action>, n: nat) returns (m: nat)
    requires Run(states, actions) && n < |states| && states[n].place.AtTop? && states[n].outbox.Some?
    ensures m < n && AtTopThroughout(states, m, n) && states[m].outbox == states[n].outbox
    ensures actions[m] == Loops(RetryTimer) || (actions[m] == Loops(ConsentChanged) && states[m].place.AwaitingChange?)
    ensures states[m + 1].seen == states[n].seen
  {
    assert n > 0;
    m := n - 1;
    assert Follows(states, actions, m);
    TopStep(states[m], actions[m]);
    if states[m].place.AtTop? {
      m := TopKeptOutbox(states, actions, n - 1);
    }
  }

  lemma {:induction false} TopKeeps(states: seq<State>, actions: seq<Action>, m: nat, n: nat)
    requires Run(states, actions) && m < n < |states| && AtTopThroughout(states, m, n)
    ensures states[n].outbox == states[m + 1].outbox && states[n].seen == states[m + 1].seen
  {
    if m + 1 < n {
      TopKeeps(states, actions, m, n - 1);
      assert states[n - 1].place.AtTop? && states[n].place.AtTop?;
      assert Follows(states, actions, n - 1);
      TopStep(states[n - 1], actions[n - 1]);
    }
  }

  /** At `m` a wait for a usable origin or credential, begun at some `l`, ended with a change of
      epoch, and the loop has been at its top ever since. */
  ghost predicate LeftWait(states: seq<State>, actions: seq<Action>, m: nat, n: nat)
    requires Run(states, actions) && m < n < |states|
  {
    && actions[m] == Loops(ConsentChanged) && states[m].place.AwaitingChange? && AtTopThroughout(states, m, n)
    && exists l :: l < m && 0 <= l && actions[l] == Loops(Choose(Unusable)) && AwaitingThroughout(states, l, m)
  }

  /** At `m` the back-off timer ran out, and the epoch moved while the loop was at its top. */
  ghost predicate LeftBackoff(states: seq<State>, actions: seq<Action>, m: nat, n: nat)
    requires Run(states, actions) && m < n < |states|
  {
    actions[m] == Loops(RetryTimer) && AtTopThroughout(states, m, n) && EpochMoved(actions, m, n)
  }

  /** A read of the epoch carries an image past a move of the epoch in exactly two situations: the
      move ended a wait for a usable origin or credential, or it came after the back-off timer had
      run out and before the epoch was read again. */
  lemma CarriedInTwoWays(states: seq<State>, actions: seq<Action>, n: nat, id: nat)
    requires Run(states, actions) && n < |actions| && actions[n] == Loops(ReadEpoch)
    ensures Carries(states[n], actions[n], id) <==>
            exists m :: 0 <= m < n && Names(states[m].outbox, id)
                        && (LeftWait(states, actions, m, n) || LeftBackoff(states, actions, m, n))
  {
    if Carries(states[n], actions[n], id) {
      var m := CarriedFrom(states, actions, n, id);
    }
    forall m | 0 <= m < n && Names(states[m].outbox, id)
               && (LeftWait(states, actions, m, n) || LeftBackoff(states, actions, m, n))
      ensures Carries(states[n], actions[n], id)
    {
      TopKeeps(states, actions, m, n);
      EpochCounts(states, actions, m, n);
      assert Follows(states, actions, m);
      RunInvariant(states, actions, m);
    }
  }

  lemma CarriedFrom(states: seq<State>, actions: seq<Action>, n: nat, id: nat) returns (m: nat)
    requires Run(states, actions) && n < |actions| && Carries(states[n], actions[n], id)
    ensures m < n && Names(states[m].outbox, id)
    ensures LeftWait(states, actions, m, n) || LeftBackoff(states, actions, m, n)
  {
    assert Follows(states, actions, n);
    m := TopKeptOutbox(states, actions, n);
    assert Follows(states, actions, m);
    if actions[m] == Loops(RetryTimer) {
      EpochCounts(states, actions, m, n);
    } else {
      var l := WaitKeptOutbox(states, actions, m);
    }
  }

  // ---------------------------------------------------------------- it happens

  lemma Continue(states: seq<State>, actions: seq<Action>, a: Action) returns (states': seq<State>, actions': seq<Action>)
    requires Run(states, actions) && Enabled(states[|actions|], a)
    ensures Run(states', actions') && states'[|actions'|] == Apply(states[|actions|], a)
  {
    states' := states + [Apply(states[|actions|], a)];
    actions' := actions + [a];
    forall i | 0 <= i < |actions| ensures Follows(states', actions', i) {
      assert Follows(states, actions, i);
    }
  }

  /** The agent with one event image in the outbox, at `place`, after `consent` settings were written. */
  function Holding(bytes: seq<int>, place: Place, epoch: nat, enabled: bool, consent: nat, commit: Commit, seen: nat,
                   using: nat): State {
    State(60000, epoch, enabled, consent, commit, false, seen, using, place, Some(Outbound(0, bytes, 0, 1, 60000)),
          60000, 0, [Created(bytes, 1, 0, 0, true)], [])
  }

  /** An event image is made, and its connection breaks. */
  lemma MadeAndKept(bytes: seq<int>) returns (states: seq<State>, actions: seq<Action>)
    ensures Run(states, actions)
    ensures states[|actions|] == Holding(bytes, Backoff, 0, true, 0, NoCommit, 0, 0)
  {
    states, actions := [State(60000, 0, true, 0, NoCommit, false, 0, 0, AtTop, None, 0, 0, [], [])], [];
    states, actions := Continue(states, actions, Loops(ReadEpoch));
    states, actions := Continue(states, actions, Loops(CheckStopped));
    states, actions := Continue(states, actions, Loops(Choose(Connects)));
    states, actions := Continue(states, actions, Serves(NewEvent(bytes, 0, 1)));
    states, actions := Continue(states, actions, Loops(SessionEnds(false)));
  }

  /** The credential cannot be read: the loop waits, and the image with it. */
  lemma KeptWhileWaiting(bytes: seq<int>) returns (states: seq<State>, actions: seq<Action>)
    ensures Run(states, actions)
    ensures states[|actions|] == Holding(bytes, AwaitingChange, 0, true, 0, NoCommit, 0, 0)
  {
    states, actions := MadeAndKept(bytes);
    states, actions := Continue(states, actions, Loops(RetryTimer));
    states, actions := Continue(states, actions, Loops(ReadEpoch));
    states, actions := Continue(states, actions, Loops(CheckStopped));
    states, actions := Continue(states, actions, Loops(Choose(Unusable)));
  }

  /** A whole commit, which leaves sharing on, goes by before the loop looks again. */
  lemma CommitGoesBy(bytes: seq<int>) returns (states: seq<State>, actions: seq<Action>)
    ensures Run(states, actions)
    ensures states[|actions|] == Holding(bytes, AwaitingChange, 2, true, 1, NoCommit, 0, 0)
  {
    states, actions := KeptWhileWaiting(bytes);
    states, actions := Continue(states, actions, Commits(SwitchOff));
    states, actions := Continue(states, actions, Commits(AnnounceOff));
    states, actions := Continue(states, actions, Commits(WriteConsent(true)));
    states, actions := Continue(states, actions, Commits(AnnounceOn));
  }

  lemma CarriedOver(bytes: seq<int>) returns (states: seq<State>, actions: seq<Action>)
    ensures Run(states, actions)
    ensures states[|actions|] == Holding(bytes, InSession(None, 0, None, false, Resting), 2, true, 1, NoCommit, 2, 1)
  {
    states, actions := CommitGoesBy(bytes);
    states, actions := Continue(states, actions, Loops(ConsentChanged));
    states, actions := Continue(states, actions, Loops(ReadEpoch));
    states, actions := Continue(states, actions, Loops(CheckStopped));
    states, actions := Continue(states, actions, Loops(Choose(Connects)));
  }

  lemma CheckedOver(bytes: seq<int>) returns (states: seq<State>, actions: seq<Action>)
    ensures Run(states, actions)
    ensures states[|actions|] == Holding(bytes, InSession(None, 0, None, false, FreshSeen(Some(1))), 2, true, 1, NoCommit, 2, 1)
  {
    states, actions := CarriedOver(bytes);
    states, actions := Continue(states, actions, Serves(LookAtSource(Some(1))));
    states, actions := Continue(states, actions, Serves(CheckStep(0)));
    states, actions := Continue(states, actions, Serves(CheckStep(0)));
    states, actions := Continue(states, actions, Serves(CheckStep(0)));
  }

  /** An image made under one consent is sent under the next, although the outbox is described as
      never surviving a privacy change: a commit that leaves sharing on goes by while the loop waits
      for a usable credential. */
  lemma SentUnderLaterConsent(bytes: seq<int>) returns (states: seq<State>, actions: seq<Action>)
    ensures Run(states, actions)
    ensures var last := states[|actions|];
            && |last.log| == 1 && last.log[0].bytes == bytes && last.log[0].id < |last.created|
            && last.created[last.log[0].id].epoch < last.log[0].epoch
            && last.created[last.log[0].id].consent < last.log[0].consent
  {
    states, actions := CheckedOver(bytes);
    states, actions := Continue(states, actions, Serves(CheckStep(0)));
    states, actions := Continue(states, actions, Serves(CheckStep(0)));
    states, actions := Continue(states, actions, Serves(StartSend));
    states, actions := Continue(states, actions, Serves(EndSend));
  }
}
