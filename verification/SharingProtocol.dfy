/** The lock and epoch protocol of the sharing agent (service.rs, and the parts of transport.rs
    that take and upload a queued timelapse).

    Every action below is one atomic load or store, one critical section, or one disk or network
    outcome of one thread; all interleavings are allowed. The `mutation` lock is `lock`; any number
    of offer threads run beside one committer, the transport task and the final stop. Counters do
    not wrap. Settings are written only by the holder of `lock`, so taking the lock, reading the
    settings under it and the first load that follows are one action. */
module SharingProtocol {
  import opened SharingTypes

  /** A movie in the one-slot queue. `id` stands for the random identifier. */
  datatype Queued = Queued(id: nat, session: nat, epoch: nat, queuedAt: nat)

  const MAX_AGE_SECONDS := 900
  const ATTEMPTS := 3

  /** What an offer thread has done so far. */
  datatype OfferPc =
    | EpochRead | GenerationRead | Consented | NotStopped | SessionRead
    | CopyLocked | Copying | CopyEpochSeen | CopyGenerationSeen | CopyStopSeen | CopyAllowed | Copied
    | Locked | EpochRechecked | StopRechecked | SessionRechecked | ConsentRechecked

  datatype Offer = Offer(
    pc: OfferPc,
    expected: Option<ConsentKey>,
    epoch: nat,
    generation: nat,
    settings: Settings,
    session: nat)
  {
    predicate PassedStop() {
      !pc.EpochRead? && !pc.GenerationRead? && !pc.Consented?
    }
    predicate HasConsent() {
      !pc.EpochRead? && !pc.GenerationRead?
    }
    /** In the copy loop, between two chunks or within the checks before the next one. */
    predicate Copies() {
      pc.Copying? || pc.CopyEpochSeen? || pc.CopyGenerationSeen? || pc.CopyStopSeen? || pc.CopyAllowed?
    }
    predicate HoldsCopy() {
      pc.CopyLocked? || Copies() || pc.Copied? || HoldsLock()
    }
    predicate HoldsLock() {
      pc.Locked? || pc.EpochRechecked? || pc.StopRechecked? || pc.SessionRechecked? || pc.ConsentRechecked?
    }
    predicate PassedEpoch() {
      HoldsLock() && !pc.Locked?
    }
  }

  datatype CommitKind = Save | PairFirst | PairSecond | Forget

  /** What a commit has done so far. */
  datatype Phase =
    | Begun | SwitchedOff | Cancelled | Flushed | Persisted | Written | Recancelled | Republished

  /** A chat rule change: the lock is held, the checks have passed, the file is written. */
  datatype ConfigureStage = Admitting | Checked | Stored

  datatype Lock =
    | Free
    | ByOffer(id: nat)
    | ByCommit(kind: CommitKind, next: Settings, phase: Phase)
    | ByConfigure(rules: TriggerRules, chosen: Settings, stage: ConfigureStage)

  datatype Pairing = NotPairing | Requesting | AwaitingHub(saved: Settings)

  datatype StopPhase = Running | Stopped | StopCancelled | StopFlushed

  /** The checks before an upload request, in their order, and the request itself. */
  datatype AttemptStage = Waiting | StopSeen | EpochSeen | SourceSeen | AgeSeen | SourceSeenAgain | Posting

  /** The transport's handling of one movie: taken from the slot, filtered by age and then by capture
      session, and attempted. `checkedAt` is when the age was last found admissible. */
  datatype Upload =
    | NoUpload
    | Taken(item: Queued)
    | Aged(item: Queued)
    | Attempting(item: Queued, attempt: nat, stage: AttemptStage, checkedAt: nat)

  datatype Transport =
    | Idle
    | Starting(epoch: nat)
    | Permitted(epoch: nat)
    | Session(epoch: nat, settings: Settings, rules: TriggerRules, upload: Upload)

  /** One started upload request: the capture session and the time at its start, and the time of its
      age check. */
  datatype Attempt = Attempt(item: Queued, number: nat, session: Option<nat>, checkedAt: nat, at: nat)

  datatype State = State(
    memory: Settings,
    disk: Settings,
    epoch: nat,
    generation: nat,
    slot: Option<Queued>,
    lock: Lock,
    copyOwner: Option<nat>,
    offers: map<nat, Offer>,
    pairing: Pairing,
    stop: StopPhase,
    source: Option<nat>,
    clock: nat,
    nextId: nat,
    transport: Transport,
    uploads: seq<Attempt>)

  /** Service start from a stored file: `start_with_store`. */
  ghost predicate Init(s: State) {
    && s.memory == s.disk && s.disk.Loadable()
    && s.epoch == 0 && s.generation == 0 && s.slot.None?
    && s.lock.Free? && s.copyOwner.None? && s.offers == map[]
    && s.pairing.NotPairing? && s.stop.Running? && s.transport.Idle?
    && s.uploads == []
  }

  datatype Action =
    // environment
    | CaptureSession(session: Option<nat>)
    | Wait(seconds: nat)
    // offers
    | BeginOffer(id: nat, expected: Option<ConsentKey>)
    | OfferStep(id: nat)
    | CopyOutcome(id: nat, copied: bool)
    | DropOffer(id: nat)
    // local mutations
    | BeginSave(expectedRevision: nat, preferences: Preferences)
    | BeginPair(expectedRevision: nat)
    | HubReply(device: Option<int>, stored: bool)
    | BeginForget(expectedRevision: nat)
    | CommitStep(diskOk: bool)
    // shutdown
    | StopStep
    // transport task
    | ReadEpoch
    | CheckRunning
    | StartSession
    | BeginConfigure(rules: TriggerRules)
    | ConfigureStep(diskOk: bool)
    | PruneSlot(byAge: bool)
    | TakeMovie
    | FilterAge
    | FilterSource(fits: bool)
    | AttemptStep
    | StartAttempt
    | EndAttempt(retry: bool)
    | EndSession

  // ---------------------------------------------------------------- atomic pieces

  function Cancel(s: State): State {
    s.(generation := s.generation + 1, slot := None)
  }

  function Bump(s: State): State {
    s.(epoch := s.epoch + 1)
  }

  function At(s: State, id: nat, pc: OfferPc): State
    requires id in s.offers
  {
    s.(offers := s.offers[id := s.offers[id].(pc := pc)])
  }

  /** The offer returns, releasing what it holds. */
  function Finish(s: State, id: nat): State
    requires id in s.offers
  {
    s.(offers := map k | k in s.offers && k != id :: s.offers[k],
       copyOwner := if s.offers[id].HoldsCopy() then None else s.copyOwner,
       lock := if s.offers[id].HoldsLock() then Free else s.lock)
  }

  predicate Young(s: State, item: Queued) {
    s.clock - item.queuedAt <= MAX_AGE_SECONDS
  }

  predicate Captured(s: State, item: Queued) {
    s.source == Some(item.session)
  }

  // ---------------------------------------------------------------- offers

  predicate OfferEnabled(s: State, id: nat) {
    && id in s.offers
    && !s.offers[id].pc.CopyAllowed?
    && (s.offers[id].pc.Copied? ==> s.lock.Free?)
  }

  /** The next step of an offer; a failed check ends it. */
  function OfferNext(s: State, id: nat): State
    requires OfferEnabled(s, id)
  {
    var o := s.offers[id];
    match o.pc
    case EpochRead =>
      s.(offers := s.offers[id := o.(pc := GenerationRead, generation := s.generation)])
    case GenerationRead =>
      if s.memory.SharesTimelapses() && (o.expected.Some? ==> s.memory.Consent() == o.expected)
      then s.(offers := s.offers[id := o.(pc := Consented, settings := s.memory)])
      else Finish(s, id)
    case Consented =>
      if s.stop.Running? then At(s, id, NotStopped) else Finish(s, id)
    case NotStopped =>
      if s.source.Some?
      then s.(offers := s.offers[id := o.(pc := SessionRead, session := s.source.value)])
      else Finish(s, id)
    case SessionRead =>
      if s.copyOwner.None? then At(s, id, CopyLocked).(copyOwner := Some(id)) else Finish(s, id)
    case CopyLocked =>
      if s.slot.None? then At(s, id, Copying) else Finish(s, id)
    case Copying =>
      if s.epoch == o.epoch then At(s, id, CopyEpochSeen) else Finish(s, id)
    case CopyEpochSeen =>
      if s.generation == o.generation then At(s, id, CopyGenerationSeen) else Finish(s, id)
    case CopyGenerationSeen =>
      if s.stop.Running? then At(s, id, CopyStopSeen) else Finish(s, id)
    case CopyStopSeen =>
      if s.source == Some(o.session) then At(s, id, CopyAllowed) else Finish(s, id)
    case Copied =>
      At(s, id, OfferPc.Locked).(lock := ByOffer(id))
    case Locked =>
      if s.epoch == o.epoch then At(s, id, EpochRechecked) else Finish(s, id)
    case EpochRechecked =>
      if s.stop.Running? then At(s, id, StopRechecked) else Finish(s, id)
    case StopRechecked =>
      if s.source == Some(o.session) then At(s, id, SessionRechecked) else Finish(s, id)
    case SessionRechecked =>
      if o.expected.Some? ==> s.memory.Consent() == o.expected
      then At(s, id, ConsentRechecked) else Finish(s, id)
    case ConsentRechecked =>
      // Under the slot's own lock: generation, then emptiness, then the store.
      if s.generation == o.generation && s.slot.None?
      then Finish(s, id).(slot := Some(Queued(s.nextId, o.session, o.epoch, s.clock)), nextId := s.nextId + 1)
      else Finish(s, id)
  }

  // ---------------------------------------------------------------- commits

  predicate CanBegin(s: State, expectedRevision: nat) {
    s.lock.Free? && s.memory.revision == expectedRevision
  }

  predicate SaveEnabled(s: State, expectedRevision: nat, p: Preferences) {
    && p.Valid()
    && CanBegin(s, expectedRevision)
    && (s.memory.device.Some? ==> s.memory.preferences.hubOrigin == p.hubOrigin)
  }

  predicate CommitEnabled(s: State) {
    s.lock.ByCommit?
  }

  /** The commit failed: the error returns to the caller and `pair` gives up. */
  function Fail(s: State): State
    requires s.lock.ByCommit?
  {
    s.(lock := Free,
       pairing := if s.lock.kind.PairFirst? || s.lock.kind.PairSecond? then NotPairing else s.pairing)
  }

  function Return(s: State): State
    requires s.lock.ByCommit?
  {
    s.(lock := Free,
       pairing := match s.lock.kind
                  case PairFirst => AwaitingHub(s.lock.next)
                  case PairSecond => NotPairing
                  case _ => s.pairing)
  }

  function CommitNext(s: State, diskOk: bool): State
    requires CommitEnabled(s)
  {
    var l := s.lock;
    match l.phase
    case Begun => s.(memory := s.memory.SwitchedOff(), lock := l.(phase := SwitchedOff))
    case SwitchedOff => Cancel(s).(lock := l.(phase := Cancelled))
    case Cancelled => Bump(s).(lock := l.(phase := Flushed))
    case Flushed => if diskOk then s.(disk := l.next, lock := l.(phase := Persisted)) else Fail(s)
    case Persisted => s.(memory := l.next, lock := l.(phase := Written))
    case Written => Cancel(s).(lock := l.(phase := Recancelled))
    case Recancelled => Bump(s).(lock := l.(phase := Republished))
    case Republished => Return(s)
  }

  // ---------------------------------------------------------------- the transition relation

  predicate Enabled(s: State, a: Action) {
    match a
    case CaptureSession(_) => true
    case Wait(_) => true
    case BeginOffer(id, _) => id !in s.offers
    case OfferStep(id) => OfferEnabled(s, id)
    case CopyOutcome(id, copied) => id in s.offers && s.offers[id].pc.CopyAllowed?
    case DropOffer(id) =>
      id in s.offers && (s.offers[id].pc.Copying? || s.offers[id].pc.CopyAllowed? || s.offers[id].pc.ConsentRechecked?)
    case BeginSave(r, p) => SaveEnabled(s, r, p)
    case BeginPair(r) =>
      && s.pairing.NotPairing? && CanBegin(s, r)
      && s.memory.device.None? && s.memory.preferences.hubOrigin != ""
    case HubReply(device, _) =>
      s.pairing.AwaitingHub? && (device.Some? ==> s.lock.Free? && device.value > 0)
    case BeginForget(r) => CanBegin(s, r)
    case CommitStep(_) => CommitEnabled(s)
    case StopStep => !s.stop.StopFlushed?
    case ReadEpoch => s.transport.Idle?
    case CheckRunning => s.transport.Starting?
    case StartSession => s.transport.Permitted?
    case BeginConfigure(rules) => s.transport.Session? && s.lock.Free?
    case ConfigureStep(_) => s.lock.ByConfigure? && s.transport.Session?
    case PruneSlot(_) => s.transport.Session?
    case TakeMovie => s.transport.Session? && s.transport.upload.NoUpload? && s.slot.Some?
    case FilterAge => s.transport.Session? && s.transport.upload.Taken?
    case FilterSource(_) => s.transport.Session? && s.transport.upload.Aged?
    case AttemptStep => Attempts(s) && !s.transport.upload.stage.SourceSeenAgain? && !s.transport.upload.stage.Posting?
    case StartAttempt => Attempts(s) && s.transport.upload.stage.SourceSeenAgain?
    case EndAttempt(_) => Attempts(s) && s.transport.upload.stage.Posting?
    case EndSession => s.transport.Session? && !s.lock.ByConfigure?
  }

  predicate Attempts(s: State) {
    s.transport.Session? && s.transport.upload.Attempting?
  }

  function WithUpload(s: State, u: Upload): State
    requires s.transport.Session?
  {
    s.(transport := s.transport.(upload := u))
  }

  /** The next check of an attempt; a failed one ends the upload. */
  function AttemptNext(s: State): State
    requires Enabled(s, AttemptStep)
  {
    var u := s.transport.upload;
    match u.stage
    case Waiting => WithUpload(s, if s.stop.Running? then u.(stage := StopSeen) else NoUpload)
    case StopSeen =>
      WithUpload(s, if s.epoch == u.item.epoch && s.transport.settings.SharesTimelapses()
                    then u.(stage := EpochSeen) else NoUpload)
    case EpochSeen => WithUpload(s, if Captured(s, u.item) then u.(stage := SourceSeen) else NoUpload)
    case SourceSeen =>
      WithUpload(s, if Young(s, u.item) then u.(stage := AgeSeen, checkedAt := s.clock) else NoUpload)
    case AgeSeen => WithUpload(s, if Captured(s, u.item) then u.(stage := SourceSeenAgain) else NoUpload)
  }

  function Apply(s: State, a: Action): State
    requires Enabled(s, a)
  {
    match a
    case CaptureSession(session) => s.(source := session)
    case Wait(seconds) => s.(clock := s.clock + seconds)
    case BeginOffer(id, expected) =>
      s.(offers := s.offers[id := Offer(EpochRead, expected, s.epoch, 0, s.memory, 0)])
    case OfferStep(id) => OfferNext(s, id)
    // End of file, or another chunk and the checks again.
    case CopyOutcome(id, copied) => At(s, id, if copied then Copied else Copying)
    case DropOffer(id) => Finish(s, id)
    case BeginSave(_, p) =>
      s.(lock := ByCommit(Save, s.memory.(preferences := p, remoteRules := None, revision := s.memory.revision + 1), Begun))
    case BeginPair(_) =>
      s.(lock := ByCommit(PairFirst, s.memory.SwitchedOff().(remoteRules := None, revision := s.memory.revision + 1), Begun),
         pairing := Requesting)
    case HubReply(device, stored) =>
      if device.Some? && s.stop.Running? && s.memory.revision == s.pairing.saved.revision && stored
      then s.(lock := ByCommit(PairSecond, s.pairing.saved.(device := device, revision := s.pairing.saved.revision + 1), Begun),
              pairing := Requesting)
      else s.(pairing := NotPairing)
    case BeginForget(_) =>
      s.(lock := ByCommit(Forget, s.memory.(preferences := s.memory.preferences.Forgotten(), remoteRules := None,
                                            device := None, revision := s.memory.revision + 1), Begun))
    case CommitStep(diskOk) => CommitNext(s, diskOk)
    case StopStep =>
      (match s.stop
       case Running => s.(stop := Stopped)
       case Stopped => Cancel(s).(stop := StopCancelled)
       case _ => Bump(s).(stop := StopFlushed))
    case ReadEpoch => s.(transport := Starting(s.epoch))
    case CheckRunning => s.(transport := if s.stop.Running? then Permitted(s.transport.epoch) else Idle)
    case StartSession =>
      if s.memory.preferences.enabled && s.memory.device.Some?
      then s.(transport := Session(s.transport.epoch, s.memory, s.memory.Rules(), NoUpload))
      else s.(transport := Idle)
    case BeginConfigure(rules) =>
      if s.stop.Running?
      then s.(lock := ByConfigure(rules, s.memory.(remoteRules := Some(rules), revision := s.memory.revision + 1), Admitting))
      else s
    case ConfigureStep(diskOk) =>
      (match s.lock.stage
       case Admitting =>
         if && s.epoch == s.transport.epoch && s.memory.preferences.enabled
            && s.memory.preferences.chatConfiguration && s.lock.rules.AllowedBy(s.memory.preferences)
         then s.(lock := s.lock.(stage := Checked)) else s.(lock := Free)
       case Checked =>
         if diskOk then s.(disk := s.lock.chosen, lock := s.lock.(stage := Stored)) else s.(lock := Free)
       case Stored =>
         s.(memory := s.lock.chosen, lock := Free, transport := s.transport.(rules := s.lock.rules)))
    case PruneSlot(byAge) =>
      // Under the slot's own lock: each ground for emptying it is one load.
      if s.slot.Some? && (s.slot.value.epoch != s.transport.epoch
                          || (if byAge then !Young(s, s.slot.value) else !Captured(s, s.slot.value)))
      then s.(slot := None) else s
    case TakeMovie => WithUpload(s, Taken(s.slot.value)).(slot := None)
    case FilterAge =>
      var item := s.transport.upload.item;
      WithUpload(s, if item.epoch == s.transport.epoch && Young(s, item) then Aged(item) else NoUpload)
    case FilterSource(fits) =>
      var item := s.transport.upload.item;
      WithUpload(s, if Captured(s, item) && fits then Attempting(item, 0, Waiting, 0) else NoUpload)
    case AttemptStep => AttemptNext(s)
    case StartAttempt =>
      var u := s.transport.upload;
      WithUpload(s, u.(stage := Posting))
        .(uploads := s.uploads + [Attempt(u.item, u.attempt, s.source, u.checkedAt, s.clock)])
    case EndAttempt(retry) =>
      var u := s.transport.upload;
      WithUpload(s, if retry && u.attempt + 1 < ATTEMPTS then Attempting(u.item, u.attempt + 1, Waiting, 0) else NoUpload)
    case EndSession => Cancel(s).(transport := Idle)
  }

  predicate Follows(states: seq<State>, actions: seq<Action>, i: nat)
    requires i < |actions| < |states|
  {
    Enabled(states[i], actions[i]) && states[i + 1] == Apply(states[i], actions[i])
  }

  /** A run: every state follows from the one before by an enabled action. */
  ghost predicate Run(states: seq<State>, actions: seq<Action>) {
    && |states| == |actions| + 1
    && Init(states[0])
    && forall i :: 0 <= i < |actions| ==> Follows(states, actions, i)
  }
}
