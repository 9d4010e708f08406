/** Safety of the sharing protocol over every run and interleaving: an inductive invariant and
    the properties read off it. */
module SharingSafety {
  import opened SharingTypes
  import opened SharingProtocol

  // ---------------------------------------------------------------- the invariant

  /** Locks are held by exactly the offers that passed them. */
  ghost predicate LocksHeld(offers: map<nat, Offer>, lock: Lock, copyOwner: Option<nat>) {
    && (forall id :: id in offers ==>
          && (offers[id].HoldsLock() <==> lock == ByOffer(id))
          && (offers[id].HoldsCopy() <==> copyOwner == Some(id)))
    && (lock.ByOffer? ==> lock.id in offers)
    && (copyOwner.Some? ==> copyOwner.value in offers)
  }

  /** The final stop has cancelled queued movies. */
  predicate StopReached(stop: StopPhase) {
    stop.StopCancelled? || stop.StopFlushed?
  }

  predicate CountersOk(o: Offer, epoch: nat, generation: nat, stopped: bool) {
    && o.epoch <= epoch
    && (!o.pc.EpochRead? ==> o.generation <= generation)
    && (o.PassedEpoch() ==> o.epoch == epoch || o.generation < generation)
    && (o.PassedStop() && stopped ==> o.generation < generation)
  }

  ghost predicate CountersBehind(offers: map<nat, Offer>, epoch: nat, generation: nat, stopped: bool) {
    forall id :: id in offers ==> CountersOk(offers[id], epoch, generation, stopped)
  }

  /** A commit between a change of the in-memory settings and the epoch change that announces it. */
  predicate Unannounced(lock: Lock) {
    && lock.ByCommit?
    && (lock.phase.SwitchedOff? || lock.phase.Cancelled? || lock.phase.Written? || lock.phase.Recancelled?)
  }

  predicate SameConsent(a: Settings, b: Settings) {
    a.preferences == b.preferences && a.device == b.device
  }

  predicate ReaderOk(o: Offer, epoch: nat, memory: Settings, unannounced: bool) {
    o.HasConsent() ==>
      && o.settings.SharesTimelapses()
      && (o.epoch == epoch ==> SameConsent(o.settings, memory) || unannounced)
  }

  /** Whoever read the current epoch before the settings still knows the consent in force. */
  ghost predicate OffersCurrent(offers: map<nat, Offer>, epoch: nat, memory: Settings, unannounced: bool) {
    forall id :: id in offers ==> ReaderOk(offers[id], epoch, memory, unannounced)
  }

  predicate TransportCurrent(transport: Transport, epoch: nat, memory: Settings, unannounced: bool) {
    match transport
    case Idle => true
    case Starting(e) => e <= epoch
    case Permitted(e) => e <= epoch
    case Session(e, settings, rules, _) =>
      && e <= epoch
      && (e == epoch ==> unannounced || (SameConsent(settings, memory) && rules == memory.Rules()))
  }

  predicate SlotCurrent(slot: Option<Queued>, epoch: nat, stopped: bool, memory: Settings, lock: Lock) {
    slot.Some? ==>
      && slot.value.epoch == epoch
      && !stopped
      && (memory.SharesTimelapses() || (lock.ByCommit? && lock.phase.SwitchedOff?))
      && (lock.ByCommit? ==> lock.phase.Begun? || lock.phase.SwitchedOff?)
  }

  predicate BeforeWrite(phase: Phase) {
    phase.Begun? || phase.SwitchedOff? || phase.Cancelled? || phase.Flushed? || phase.Persisted?
  }

  predicate CommitSound(kind: CommitKind, next: Settings, phase: Phase, memory: Settings, disk: Settings, pairing: Pairing) {
    && next.Loadable()
    && (BeforeWrite(phase) ==> next.revision == memory.revision + 1)
    && (BeforeWrite(phase) && !phase.Begun? ==> !memory.preferences.enabled)
    && (phase.Persisted? ==> disk == next)
    && (!BeforeWrite(phase) ==> memory == next && disk == next)
    && (kind.PairFirst? || kind.PairSecond? ==> pairing.Requesting? && !next.preferences.enabled)
    && (kind.PairFirst? || kind.Forget? ==> next.device.None?)
    && (kind.Save? ==> next.device == memory.device)
    && (kind.PairSecond? && BeforeWrite(phase) ==>
          next == memory.(device := next.device, revision := next.revision))
  }

  predicate ConfigureSound(rules: TriggerRules, chosen: Settings, stage: ConfigureStage, memory: Settings, disk: Settings) {
    && chosen == memory.(remoteRules := Some(rules), revision := memory.revision + 1)
    && (!stage.Admitting? ==>
          && memory.preferences.enabled && memory.preferences.chatConfiguration
          && rules.AllowedBy(memory.preferences))
    && (stage.Stored? ==> disk == chosen)
  }

  predicate PairingSound(pairing: Pairing, memory: Settings) {
    pairing.AwaitingHub? ==>
      var saved := pairing.saved;
      && saved.Loadable() && saved.device.None? && !saved.preferences.enabled
      && saved.revision <= memory.revision
      && (saved.revision == memory.revision ==> memory == saved)
  }

  predicate SettingsSound(memory: Settings, disk: Settings, lock: Lock, pairing: Pairing) {
    && memory.Loadable() && disk.Loadable()
    && (memory.preferences.enabled ==> memory == disk || (lock.ByConfigure? && lock.stage.Stored?))
    && (lock.ByCommit? ==> CommitSound(lock.kind, lock.next, lock.phase, memory, disk, pairing))
    && (lock.ByConfigure? ==> ConfigureSound(lock.rules, lock.chosen, lock.stage, memory, disk))
    && PairingSound(pairing, memory)
  }

  /** The attempt number below which attempts of the movie in hand may be on record. */
  function StartedBelow(u: Upload): nat {
    if !u.Attempting? then 0 else if u.stage.Posting? then u.attempt + 1 else u.attempt
  }

  /** The attempt has found its movie's epoch current. */
  predicate PastEpoch(stage: AttemptStage) {
    stage.EpochSeen? || stage.SourceSeen? || stage.AgeSeen? || stage.SourceSeenAgain?
  }

  /** The attempt has found its movie young enough. */
  predicate PastAge(stage: AttemptStage) {
    stage.AgeSeen? || stage.SourceSeenAgain?
  }

  predicate AttemptOk(a: Attempt, nextId: nat) {
    && a.item.id < nextId && a.number < ATTEMPTS
    && a.checkedAt - a.item.queuedAt <= MAX_AGE_SECONDS
    && a.checkedAt <= a.at
  }

  ghost predicate LogSound(uploads: seq<Attempt>, nextId: nat) {
    && (forall i :: 0 <= i < |uploads| ==> AttemptOk(uploads[i], nextId))
    && (forall i, j :: 0 <= i < j < |uploads| && uploads[i].item.id == uploads[j].item.id ==>
          uploads[i].number < uploads[j].number)
  }

  /** Attempts on record for movie `id` are numbered below `bound`. */
  ghost predicate LoggedBelow(uploads: seq<Attempt>, id: nat, bound: nat) {
    forall i :: 0 <= i < |uploads| && uploads[i].item.id == id ==> uploads[i].number < bound
  }

  predicate StageSound(u: Upload, epoch: nat, settings: Settings, clock: nat) {
    && (u.Aged? ==> u.item.epoch == epoch)
    && (u.Attempting? ==>
          && u.item.epoch == epoch && u.attempt < ATTEMPTS
          && (PastEpoch(u.stage) ==> settings.SharesTimelapses())
          && (PastAge(u.stage) ==> u.checkedAt - u.item.queuedAt <= MAX_AGE_SECONDS && u.checkedAt <= clock))
  }

  ghost predicate UploadSound(t: Transport, slot: Option<Queued>, nextId: nat, clock: nat, uploads: seq<Attempt>) {
    && (slot.Some? ==> slot.value.id < nextId && LoggedBelow(uploads, slot.value.id, 0))
    && (t.Session? && !t.upload.NoUpload? ==>
          && t.upload.item.id < nextId
          && (slot.Some? ==> t.upload.item.id != slot.value.id)
          && StageSound(t.upload, t.epoch, t.settings, clock)
          && LoggedBelow(uploads, t.upload.item.id, StartedBelow(t.upload)))
  }

  ghost predicate Inv(s: State) {
    && LocksHeld(s.offers, s.lock, s.copyOwner)
    && CountersBehind(s.offers, s.epoch, s.generation, StopReached(s.stop))
    && OffersCurrent(s.offers, s.epoch, s.memory, Unannounced(s.lock))
    && TransportCurrent(s.transport, s.epoch, s.memory, Unannounced(s.lock))
    && SlotCurrent(s.slot, s.epoch, StopReached(s.stop), s.memory, s.lock)
    && SettingsSound(s.memory, s.disk, s.lock, s.pairing)
    && (s.lock.ByConfigure? ==> s.transport.Session?)
    && LogSound(s.uploads, s.nextId)
    && UploadSound(s.transport, s.slot, s.nextId, s.clock, s.uploads)
  }

  // ---------------------------------------------------------------- preservation

  lemma EnvironmentPreserves(s: State, a: Action)
    requires Inv(s) && Enabled(s, a) && (a.CaptureSession? || a.Wait?)
    ensures Inv(Apply(s, a))
  {
  }

  lemma StartingPreserves(s: State, a: Action)
    requires Inv(s) && Enabled(s, a) && (a.ReadEpoch? || a.CheckRunning?)
    ensures Inv(Apply(s, a))
  {
  }

  lemma StartSessionPreserves(s: State)
    requires Inv(s) && Enabled(s, StartSession)
    ensures Inv(Apply(s, StartSession))
  {
  }

  lemma BeginOfferPreserves(s: State, id: nat, expected: Option<ConsentKey>)
    requires Inv(s) && Enabled(s, BeginOffer(id, expected))
    ensures Inv(Apply(s, BeginOffer(id, expected)))
  {
  }

  lemma FinishPreserves(s: State, id: nat)
    requires Inv(s) && id in s.offers
    ensures Inv(Finish(s, id))
  {
  }

  lemma BeginCommitPreserves(s: State, a: Action)
    requires Inv(s) && Enabled(s, a) && (a.BeginSave? || a.BeginForget?)
    ensures Inv(Apply(s, a))
  {
  }

  lemma PairPreserves(s: State, a: Action)
    requires Inv(s) && Enabled(s, a) && (a.BeginPair? || a.HubReply?)
    ensures Inv(Apply(s, a))
  {
  }

  lemma CommitSwitchOffPreserves(s: State, diskOk: bool)
    requires Inv(s) && CommitEnabled(s) && s.lock.phase.Begun?
    ensures Inv(CommitNext(s, diskOk))
  {
  }

  lemma CommitFlushPreserves(s: State, diskOk: bool)
    requires Inv(s) && CommitEnabled(s) && (s.lock.phase.SwitchedOff? || s.lock.phase.Cancelled?)
    ensures Inv(CommitNext(s, diskOk))
  {
  }

  lemma CommitWritePreserves(s: State, diskOk: bool)
    requires Inv(s) && CommitEnabled(s)
    requires s.lock.phase.Flushed? || s.lock.phase.Persisted?
    ensures Inv(CommitNext(s, diskOk))
  {
  }

  lemma CommitAnnouncePreserves(s: State, diskOk: bool)
    requires Inv(s) && CommitEnabled(s)
    requires s.lock.phase.Written? || s.lock.phase.Recancelled? || s.lock.phase.Republished?
    ensures Inv(CommitNext(s, diskOk))
  {
  }

  lemma StopStorePreserves(s: State)
    requires Inv(s) && s.stop.Running?
    ensures Inv(Apply(s, StopStep))
  {
  }

  lemma StopCancelPreserves(s: State)
    requires Inv(s) && s.stop.Stopped?
    ensures Inv(Apply(s, StopStep))
  {
  }

  lemma StopPreserves(s: State)
    requires Inv(s) && Enabled(s, StopStep)
    ensures Inv(Apply(s, StopStep))
  {
    match s.stop
    case Running => StopStorePreserves(s);
    case Stopped => StopCancelPreserves(s);
    case _ =>
  }

  lemma BeginConfigurePreserves(s: State, rules: TriggerRules)
    requires Inv(s) && Enabled(s, BeginConfigure(rules))
    ensures Inv(Apply(s, BeginConfigure(rules)))
  {
  }

  lemma ConfigureAdmitPreserves(s: State, diskOk: bool)
    requires Inv(s) && Enabled(s, ConfigureStep(diskOk)) && s.lock.stage.Admitting?
    ensures Inv(Apply(s, ConfigureStep(diskOk)))
  {
  }

  lemma ConfigureWritePreserves(s: State, diskOk: bool)
    requires Inv(s) && Enabled(s, ConfigureStep(diskOk)) && s.lock.stage.Checked?
    ensures Inv(Apply(s, ConfigureStep(diskOk)))
  {
  }

  lemma ConfigurePublishPreserves(s: State, diskOk: bool)
    requires Inv(s) && Enabled(s, ConfigureStep(diskOk)) && s.lock.stage.Stored?
    ensures Inv(Apply(s, ConfigureStep(diskOk)))
  {
  }

  lemma TakePreserves(s: State, a: Action)
    requires Inv(s) && Enabled(s, a) && (a.PruneSlot? || a.TakeMovie?)
    ensures Inv(Apply(s, a))
  {
  }

  lemma FilterPreserves(s: State, a: Action)
    requires Inv(s) && Enabled(s, a) && (a.FilterAge? || a.FilterSource?)
    ensures Inv(Apply(s, a))
  {
  }

  lemma ConsentCheckPreserves(s: State)
    requires Inv(s) && Enabled(s, AttemptStep)
    requires s.transport.upload.stage.Waiting? || s.transport.upload.stage.StopSeen?
    ensures Inv(AttemptNext(s))
  {
  }

  lemma SourceCheckPreserves(s: State)
    requires Inv(s) && Enabled(s, AttemptStep)
    requires s.transport.upload.stage.EpochSeen? || s.transport.upload.stage.AgeSeen?
    ensures Inv(AttemptNext(s))
  {
  }

  lemma AgeCheckPreserves(s: State)
    requires Inv(s) && Enabled(s, AttemptStep) && s.transport.upload.stage.SourceSeen?
    ensures Inv(AttemptNext(s))
  {
  }

  lemma CheckPreserves(s: State)
    requires Inv(s) && Enabled(s, AttemptStep)
    ensures Inv(AttemptNext(s))
  {
    match s.transport.upload.stage
    case Waiting => ConsentCheckPreserves(s);
    case StopSeen => ConsentCheckPreserves(s);
    case SourceSeen => AgeCheckPreserves(s);
    case _ => SourceCheckPreserves(s);
  }

  lemma UploadPreserves(s: State, a: Action)
    requires Inv(s) && Enabled(s, a) && (a.EndAttempt? || a.EndSession?)
    ensures Inv(Apply(s, a))
  {
  }

  lemma LogGrows(uploads: seq<Attempt>, nextId: nat, a: Attempt)
    requires LogSound(uploads, nextId) && AttemptOk(a, nextId)
    requires LoggedBelow(uploads, a.item.id, a.number)
    ensures LogSound(uploads + [a], nextId)
    ensures LoggedBelow(uploads + [a], a.item.id, a.number + 1)
    ensures forall id, bound :: id != a.item.id && LoggedBelow(uploads, id, bound) ==> LoggedBelow(uploads + [a], id, bound)
  {
    forall i | 0 <= i < |uploads + [a]| ensures (uploads + [a])[i] == if i < |uploads| then uploads[i] else a {
    }
  }

  lemma AttemptPreserves(s: State)
    requires Inv(s) && Enabled(s, StartAttempt)
    ensures Inv(Apply(s, StartAttempt))
  {
    var u := s.transport.upload;
    LogGrows(s.uploads, s.nextId, Attempt(u.item, u.attempt, s.source, u.checkedAt, s.clock));
  }

  /** An offer that moves on without taking or releasing a lock. */
  lemma OfferMoves(s: State, id: nat, o: Offer)
    requires Inv(s) && id in s.offers
    requires o.HoldsLock() == s.offers[id].HoldsLock() && o.HoldsCopy() == s.offers[id].HoldsCopy()
    requires CountersOk(o, s.epoch, s.generation, StopReached(s.stop))
    requires ReaderOk(o, s.epoch, s.memory, Unannounced(s.lock))
    ensures Inv(s.(offers := s.offers[id := o]))
  {
  }

  predicate OfferSound(s: State, o: Offer) {
    && CountersOk(o, s.epoch, s.generation, StopReached(s.stop))
    && ReaderOk(o, s.epoch, s.memory, Unannounced(s.lock))
  }

  /** The offer ended, or moved on with the locks it holds. */
  predicate EndsOrMoves(s: State, id: nat, t: State)
    requires id in s.offers
  {
    || t == Finish(s, id)
    || (id in t.offers && t == s.(offers := s.offers[id := t.offers[id]])
        && t.offers[id].HoldsLock() == s.offers[id].HoldsLock()
        && t.offers[id].HoldsCopy() == s.offers[id].HoldsCopy()
        && OfferSound(s, t.offers[id]))
  }

  lemma ConsentChecked(s: State, id: nat)
    requires OfferEnabled(s, id) && OfferSound(s, s.offers[id])
    requires var pc := s.offers[id].pc; pc.EpochRead? || pc.GenerationRead?
    ensures EndsOrMoves(s, id, OfferNext(s, id))
  {
  }

  lemma SourceChecked(s: State, id: nat)
    requires OfferEnabled(s, id) && OfferSound(s, s.offers[id])
    requires var pc := s.offers[id].pc; pc.Consented? || pc.NotStopped?
    ensures EndsOrMoves(s, id, OfferNext(s, id))
  {
  }

  lemma SlotChecked(s: State, id: nat)
    requires OfferEnabled(s, id) && OfferSound(s, s.offers[id])
    requires var pc := s.offers[id].pc; pc.CopyLocked? || pc.Copying?
    ensures EndsOrMoves(s, id, OfferNext(s, id))
  {
  }

  lemma CopyFenceChecked(s: State, id: nat)
    requires OfferEnabled(s, id) && OfferSound(s, s.offers[id])
    requires var pc := s.offers[id].pc; pc.CopyEpochSeen? || pc.CopyGenerationSeen?
    ensures EndsOrMoves(s, id, OfferNext(s, id))
  {
  }

  lemma CopySourceChecked(s: State, id: nat)
    requires OfferEnabled(s, id) && OfferSound(s, s.offers[id])
    requires var pc := s.offers[id].pc; pc.CopyStopSeen?
    ensures EndsOrMoves(s, id, OfferNext(s, id))
  {
  }

  lemma Rechecked(s: State, id: nat)
    requires OfferEnabled(s, id) && OfferSound(s, s.offers[id])
    requires s.offers[id].HoldsLock() && !s.offers[id].pc.ConsentRechecked?
    ensures EndsOrMoves(s, id, OfferNext(s, id))
  {
  }

  predicate ChecksOnly(pc: OfferPc) {
    !pc.SessionRead? && !pc.Copied? && !pc.ConsentRechecked?
  }

  lemma CheckEndsOrMoves(s: State, id: nat)
    requires OfferEnabled(s, id) && OfferSound(s, s.offers[id]) && ChecksOnly(s.offers[id].pc)
    ensures EndsOrMoves(s, id, OfferNext(s, id))
  {
    match s.offers[id].pc
    case EpochRead => ConsentChecked(s, id);
    case GenerationRead => ConsentChecked(s, id);
    case Consented => SourceChecked(s, id);
    case NotStopped => SourceChecked(s, id);
    case CopyLocked => SlotChecked(s, id);
    case Copying => SlotChecked(s, id);
    case CopyEpochSeen => CopyFenceChecked(s, id);
    case CopyGenerationSeen => CopyFenceChecked(s, id);
    case CopyStopSeen => CopySourceChecked(s, id);
    case _ => Rechecked(s, id);
  }

  /** A check of an offer that takes no lock. */
  lemma OfferCheckPreserves(s: State, id: nat)
    requires Inv(s) && OfferEnabled(s, id) && ChecksOnly(s.offers[id].pc)
    ensures Inv(OfferNext(s, id))
  {
    CheckEndsOrMoves(s, id);
    if OfferNext(s, id) == Finish(s, id) {
      FinishPreserves(s, id);
    } else {
      OfferMoves(s, id, OfferNext(s, id).offers[id]);
    }
  }

  lemma OfferCopyPreserves(s: State, id: nat)
    requires Inv(s) && OfferEnabled(s, id)
    requires var pc := s.offers[id].pc; pc.SessionRead?
    ensures Inv(OfferNext(s, id))
  {
    FinishPreserves(s, id);
  }

  lemma OfferLockPreserves(s: State, id: nat)
    requires Inv(s) && OfferEnabled(s, id)
    requires var pc := s.offers[id].pc; pc.Copied?
    ensures Inv(OfferNext(s, id))
  {
  }

  lemma OfferAdmitPreserves(s: State, id: nat)
    requires Inv(s) && OfferEnabled(s, id) && s.offers[id].pc.ConsentRechecked?
    ensures Inv(OfferNext(s, id))
  {
    FinishPreserves(s, id);
  }

  lemma CopyPreserves(s: State, id: nat, copied: bool)
    requires Inv(s) && Enabled(s, CopyOutcome(id, copied))
    ensures Inv(Apply(s, CopyOutcome(id, copied)))
  {
    OfferMoves(s, id, s.offers[id].(pc := if copied then Copied else Copying));
  }

  lemma OfferStepPreserves(s: State, id: nat)
    requires Inv(s) && OfferEnabled(s, id)
    ensures Inv(OfferNext(s, id))
  {
    match s.offers[id].pc
    case SessionRead => OfferCopyPreserves(s, id);
    case Copied => OfferLockPreserves(s, id);
    case ConsentRechecked => OfferAdmitPreserves(s, id);
    case _ => OfferCheckPreserves(s, id);
  }

  lemma CommitStepPreserves(s: State, diskOk: bool)
    requires Inv(s) && CommitEnabled(s)
    ensures Inv(CommitNext(s, diskOk))
  {
    match s.lock.phase
    case Begun => CommitSwitchOffPreserves(s, diskOk);
    case SwitchedOff => CommitFlushPreserves(s, diskOk);
    case Cancelled => CommitFlushPreserves(s, diskOk);
    case Flushed => CommitWritePreserves(s, diskOk);
    case Persisted => CommitWritePreserves(s, diskOk);
    case _ => CommitAnnouncePreserves(s, diskOk);
  }

  predicate TakesMovie(a: Action) {
    a.PruneSlot? || a.TakeMovie? || a.FilterAge? || a.FilterSource?
  }

  lemma TakeStepPreserves(s: State, a: Action)
    requires Inv(s) && Enabled(s, a) && TakesMovie(a)
    ensures Inv(Apply(s, a))
  {
    match a
    case PruneSlot(_) => TakePreserves(s, a);
    case TakeMovie => TakePreserves(s, a);
    case FilterAge => FilterPreserves(s, a);
    case FilterSource(_) => FilterPreserves(s, a);
  }

  lemma ConnectPreserves(s: State, a: Action)
    requires Inv(s) && Enabled(s, a)
    requires a.CaptureSession? || a.Wait? || a.ReadEpoch? || a.CheckRunning? || a.StartSession?
    ensures Inv(Apply(s, a))
  {
    match a
    case CaptureSession(_) => EnvironmentPreserves(s, a);
    case Wait(_) => EnvironmentPreserves(s, a);
    case StartSession => StartSessionPreserves(s);
    case _ => StartingPreserves(s, a);
  }

  predicate Uploads(a: Action) {
    a.AttemptStep? || a.StartAttempt? || a.EndAttempt? || a.EndSession?
  }

  lemma UploadStepPreserves(s: State, a: Action)
    requires Inv(s) && Enabled(s, a) && Uploads(a)
    ensures Inv(Apply(s, a))
  {
    match a
    case AttemptStep => CheckPreserves(s);
    case StartAttempt => AttemptPreserves(s);
    case EndAttempt(_) => UploadPreserves(s, a);
    case EndSession => UploadPreserves(s, a);
  }

  predicate Offers(a: Action) {
    a.BeginOffer? || a.OfferStep? || a.CopyOutcome? || a.DropOffer?
  }

  lemma OfferThreadPreserves(s: State, a: Action)
    requires Inv(s) && Enabled(s, a) && Offers(a)
    ensures Inv(Apply(s, a))
  {
    match a
    case BeginOffer(id, expected) => BeginOfferPreserves(s, id, expected);
    case OfferStep(id) => OfferStepPreserves(s, id);
    case CopyOutcome(id, copied) => CopyPreserves(s, id, copied);
    case DropOffer(id) => FinishPreserves(s, id);
  }

  /** Everything done under the `mutation` lock apart from offers. */
  predicate Mutates(a: Action) {
    || a.BeginSave? || a.BeginForget? || a.BeginPair? || a.HubReply? || a.CommitStep?
    || a.BeginConfigure? || a.ConfigureStep?
  }

  lemma MutationPreserves(s: State, a: Action)
    requires Inv(s) && Enabled(s, a) && Mutates(a)
    ensures Inv(Apply(s, a))
  {
    match a
    case BeginSave(_, _) => BeginCommitPreserves(s, a);
    case BeginForget(_) => BeginCommitPreserves(s, a);
    case BeginPair(_) => PairPreserves(s, a);
    case HubReply(_, _) => PairPreserves(s, a);
    case CommitStep(diskOk) => CommitStepPreserves(s, diskOk);
    case BeginConfigure(rules) => BeginConfigurePreserves(s, rules);
    case ConfigureStep(diskOk) => ConfigureStepPreserves(s, diskOk);
  }

  lemma StepPreserves(s: State, a: Action)
    requires Inv(s) && Enabled(s, a)
    ensures Inv(Apply(s, a))
  {
    if Offers(a) {
      OfferThreadPreserves(s, a);
    } else if Mutates(a) {
      MutationPreserves(s, a);
    } else if TakesMovie(a) {
      TakeStepPreserves(s, a);
    } else if Uploads(a) {
      UploadStepPreserves(s, a);
    } else if a.StopStep? {
      StopPreserves(s);
    } else {
      ConnectPreserves(s, a);
    }
  }

  lemma ConfigureStepPreserves(s: State, diskOk: bool)
    requires Inv(s) && Enabled(s, ConfigureStep(diskOk))
    ensures Inv(Apply(s, ConfigureStep(diskOk)))
  {
    match s.lock.stage
    case Admitting => ConfigureAdmitPreserves(s, diskOk);
    case Checked => ConfigureWritePreserves(s, diskOk);
    case Stored => ConfigurePublishPreserves(s, diskOk);
  }

  lemma {:induction false} RunInvariant(states: seq<State>, actions: seq<Action>, i: nat)
    requires Run(states, actions) && i < |states|
    ensures Inv(states[i])
  {
    if i > 0 {
      RunInvariant(states, actions, i - 1);
      assert Follows(states, actions, i - 1);
      StepPreserves(states[i - 1], actions[i - 1]);
    }
  }

  // ---------------------------------------------------------------- the one-slot queue

  /** At every moment of every run a queued movie belongs to the current epoch and is covered by
      live consent; the only moment consent may be off is a commit that has just switched sharing
      off and is about to cancel the slot. */
  lemma QueuedMovieHasConsent(states: seq<State>, actions: seq<Action>, i: nat)
    requires Run(states, actions) && i < |states| && states[i].slot.Some?
    ensures states[i].slot.value.epoch == states[i].epoch
    ensures states[i].memory.SharesTimelapses() || (states[i].lock.ByCommit? && states[i].lock.phase.SwitchedOff?)
    ensures !StopReached(states[i].stop)
  {
    RunInvariant(states, actions, i);
  }

  /** Some commit or the final stop announced an epoch between `i` and `j`. */
  ghost predicate EpochAnnounced(states: seq<State>, actions: seq<Action>, i: nat, j: nat)
    requires |states| == |actions| + 1
  {
    exists f :: i <= f < j < |states| && AnnouncesEpoch(states[f], actions[f])
  }

  predicate AnnouncesEpoch(s: State, a: Action) {
    || (a.CommitStep? && s.lock.ByCommit? && (s.lock.phase.Cancelled? || s.lock.phase.Recancelled?))
    || (a.StopStep? && s.stop.StopCancelled?)
  }

  /** The epoch moves by one with each announcement, and with nothing else. */
  lemma StepMovesEpoch(s: State, a: Action)
    requires Enabled(s, a)
    ensures Apply(s, a).epoch == s.epoch + if AnnouncesEpoch(s, a) then 1 else 0
  {
    match a
    case OfferStep(id) => assert OfferNext(s, id).epoch == s.epoch;
    case CommitStep(diskOk) =>
      assert CommitNext(s, diskOk).epoch == s.epoch + if s.lock.phase.Cancelled? || s.lock.phase.Recancelled? then 1 else 0;
    case _ =>
  }

  lemma {:induction false} EpochMovesWhenAnnounced(states: seq<State>, actions: seq<Action>, i: nat, j: nat)
    requires Run(states, actions) && i <= j < |states|
    ensures states[i].epoch <= states[j].epoch
    ensures states[i].epoch == states[j].epoch <==> !EpochAnnounced(states, actions, i, j)
  {
    if i < j {
      EpochMovesWhenAnnounced(states, actions, i, j - 1);
      assert Follows(states, actions, j - 1);
      StepMovesEpoch(states[j - 1], actions[j - 1]);
      if AnnouncesEpoch(states[j - 1], actions[j - 1]) {
        assert EpochAnnounced(states, actions, i, j);
      } else if EpochAnnounced(states, actions, i, j) {
        var f :| i <= f < j && AnnouncesEpoch(states[f], actions[f]);
        assert f < j - 1;
        assert EpochAnnounced(states, actions, i, j - 1);
      }
    }
  }

  /** Once a commit has announced itself, no movie of an earlier epoch is ever in the slot again,
      however the offers that were copying it interleave. */
  lemma CommitFencesSlot(states: seq<State>, actions: seq<Action>, i: nat, j: nat)
    requires Run(states, actions) && i <= j < |states|
    requires EpochAnnounced(states, actions, i, j) && states[j].slot.Some?
    ensures states[i].epoch < states[j].slot.value.epoch
  {
    EpochMovesWhenAnnounced(states, actions, i, j);
    QueuedMovieHasConsent(states, actions, j);
  }

  lemma StepKeepsSlot(s: State, a: Action)
    requires Enabled(s, a) && s.slot.Some?
    ensures Apply(s, a).slot.None? || Apply(s, a).slot == s.slot
  {
    match a
    case OfferStep(id) => assert OfferNext(s, id).slot == s.slot;
    case CommitStep(diskOk) => assert CommitNext(s, diskOk).slot.None? || CommitNext(s, diskOk).slot == s.slot;
    case _ =>
  }

  /** A queued movie is taken or cancelled, never replaced. */
  lemma SlotNeverReplaced(states: seq<State>, actions: seq<Action>, i: nat)
    requires Run(states, actions) && i + 1 < |states|
    requires states[i].slot.Some? && states[i + 1].slot.Some?
    ensures states[i + 1].slot == states[i].slot
  {
    assert Follows(states, actions, i);
    StepKeepsSlot(states[i], actions[i]);
  }

  /** At most one offer at a time is copying or admitting a movie, and it alone may hold the lock. */
  lemma OneOfferCopies(states: seq<State>, actions: seq<Action>, i: nat, p: nat, q: nat)
    requires Run(states, actions) && i < |states|
    requires p in states[i].offers && q in states[i].offers
    requires states[i].offers[p].HoldsCopy() && states[i].offers[q].HoldsCopy()
    ensures p == q
    ensures states[i].lock.ByOffer? ==> states[i].lock.id == p
  {
    RunInvariant(states, actions, i);
  }

  // ---------------------------------------------------------------- uploads

  /** Every request on record belongs to a movie that was at most 900 seconds old when the attempt
      checked it, and a movie has at most three of them, numbered in order. */
  lemma UploadsBounded(states: seq<State>, actions: seq<Action>, i: nat)
    requires Run(states, actions) && i < |states|
    ensures forall k :: 0 <= k < |states[i].uploads| ==>
              var a := states[i].uploads[k];
              a.checkedAt - a.item.queuedAt <= 900 && a.checkedAt <= a.at && a.number < 3
    ensures forall j, k | 0 <= j < k < |states[i].uploads| ::
              (states[i].uploads[j].item.id == states[i].uploads[k].item.id ==>
                 states[i].uploads[j].number < states[i].uploads[k].number)
  {
    RunInvariant(states, actions, i);
  }

  lemma EpochCheckPassed(s: State)
    requires Enabled(s, AttemptStep) && Attempts(AttemptNext(s)) && AttemptNext(s).transport.upload.stage.EpochSeen?
    ensures s.transport.upload.item.epoch == s.epoch && s.transport.settings.SharesTimelapses()
  {
  }

  /** An attempt passes its epoch check only in the movie's own epoch, with consent in force or a
      commit in progress that has switched sharing off but not yet moved the epoch. */
  lemma AttemptCheckedUnderConsent(states: seq<State>, actions: seq<Action>, i: nat)
    requires Run(states, actions) && i < |actions| && actions[i].AttemptStep?
    requires Attempts(states[i + 1]) && states[i + 1].transport.upload.stage.EpochSeen?
    ensures Attempts(states[i]) && states[i].transport.upload.item.epoch == states[i].epoch
    ensures states[i].memory.SharesTimelapses() || Unannounced(states[i].lock)
  {
    RunInvariant(states, actions, i);
    assert Follows(states, actions, i) && states[i + 1] == AttemptNext(states[i]);
    EpochCheckPassed(states[i]);
  }

  /** When the request of an attempt starts, its movie is of the session's epoch, and as long as that
      epoch is current consent is in force or a commit is taking it away. */
  lemma AttemptStartedUnderConsent(states: seq<State>, actions: seq<Action>, i: nat)
    requires Run(states, actions) && i < |actions| && actions[i].StartAttempt?
    ensures Attempts(states[i])
    ensures var item := states[i].transport.upload.item;
            && item.epoch == states[i].transport.epoch
            && item.epoch <= states[i].epoch
            && (item.epoch == states[i].epoch ==> states[i].memory.SharesTimelapses() || Unannounced(states[i].lock))
  {
    RunInvariant(states, actions, i);
    assert Follows(states, actions, i);
  }

  // ---------------------------------------------------------------- settings

  /** While sharing is on in memory, memory equals the stored file except exactly while an accepted
      chat rule change has been stored and is about to be published; that change leaves the
      preferences alone. */
  lemma EnabledMeansStored(states: seq<State>, actions: seq<Action>, i: nat)
    requires Run(states, actions) && i < |states| && states[i].memory.preferences.enabled
    ensures states[i].memory == states[i].disk ||
            (states[i].lock.ByConfigure? && states[i].disk == states[i].lock.chosen
             && states[i].disk.preferences == states[i].memory.preferences)
    ensures states[i].memory == states[i].disk <==> !(states[i].lock.ByConfigure? && states[i].lock.stage.Stored?)
  {
    RunInvariant(states, actions, i);
  }

  /** The rules in force, and those a connected session acts on, are within local consent; a
      session of the current epoch acts on exactly the rules in force. */
  lemma RulesWithinConsent(states: seq<State>, actions: seq<Action>, i: nat)
    requires Run(states, actions) && i < |states|
    ensures states[i].memory.Rules().AllowedBy(states[i].memory.preferences)
    ensures states[i].transport.Session? && states[i].transport.epoch == states[i].epoch && !Unannounced(states[i].lock) ==>
              && states[i].transport.rules == states[i].memory.Rules()
              && states[i].transport.rules.AllowedBy(states[i].memory.preferences)
  {
    RunInvariant(states, actions, i);
    ActiveRulesWithinConsent(states[i].memory);
  }

  /** The second half of pairing changes nothing but the device and the revision of the settings
      in memory, and leaves sharing off. */
  lemma PairingOnlyAddsDevice(states: seq<State>, actions: seq<Action>, i: nat)
    requires Run(states, actions) && i < |actions| && actions[i].CommitStep?
    requires states[i].lock.ByCommit? && states[i].lock.kind.PairSecond? && states[i].lock.phase.Persisted?
    ensures states[i + 1].memory ==
            states[i].memory.(device := states[i + 1].memory.device, revision := states[i].memory.revision + 1)
    ensures !states[i + 1].memory.preferences.enabled
  {
    RunInvariant(states, actions, i);
    assert Follows(states, actions, i);
  }

  /** What is on disk at any moment, a crash included, is accepted by the next start. */
  lemma EveryStoredFileReloads(states: seq<State>, actions: seq<Action>, i: nat)
    requires Run(states, actions) && i < |states|
    ensures Init(Restarted(states[i]))
  {
    RunInvariant(states, actions, i);
  }

  /** A save whose disk write fails leaves sharing off in memory and the file as it was. */
  lemma FailedCommitSwitchesOff(states: seq<State>, actions: seq<Action>, i: nat)
    requires Run(states, actions) && i < |actions| && actions[i] == CommitStep(false)
    requires states[i].lock.ByCommit? && states[i].lock.phase.Flushed?
    ensures states[i + 1].lock.Free?
    ensures !states[i + 1].memory.preferences.enabled && states[i + 1].disk == states[i].disk
    ensures states[i + 1].slot.None?
  {
    RunInvariant(states, actions, i);
    assert Follows(states, actions, i);
  }

  /** From its start at `b` up to step `i` one commit holds the lock without having written the file. */
  ghost predicate Unwritten(states: seq<State>, b: nat, i: nat)
    requires i < |states|
  {
    forall k | b < k <= i ::
      states[k].lock.ByCommit? && BeforeWrite(states[k].lock.phase) && !states[k].lock.phase.Persisted?
  }

  /** The file is written by a commit, which is then past its write, and by a chat rule change. */
  lemma StepKeepsFile(s: State, a: Action)
    requires Enabled(s, a) && !s.lock.ByConfigure?
    requires Apply(s, a).lock.ByCommit? ==> !Apply(s, a).lock.phase.Persisted?
    ensures Apply(s, a).disk == s.disk
  {
    match a
    case OfferStep(id) => assert OfferNext(s, id).disk == s.disk;
    case AttemptStep => assert AttemptNext(s).disk == s.disk;
    case _ =>
  }

  lemma {:induction false} CommitKeepsFile(states: seq<State>, actions: seq<Action>, b: nat, i: nat)
    requires Run(states, actions) && b <= i < |states| && states[b].lock.Free? && Unwritten(states, b, i)
    ensures states[i].disk == states[b].disk
  {
    if b < i {
      CommitKeepsFile(states, actions, b, i - 1);
      assert !states[i - 1].lock.ByConfigure? && states[i].lock.ByCommit? && !states[i].lock.phase.Persisted?;
      assert Follows(states, actions, i - 1);
      StepKeepsFile(states[i - 1], actions[i - 1]);
    }
  }

  /** What a service started again from the file of `s` holds. */
  function Restarted(s: State): State {
    State(s.disk, s.disk, 0, 0, None, Free, None, map[], NotPairing, Running, s.source, s.clock, s.nextId, Idle, [])
  }

  /** After any commit whose write failed sharing is off, and a restart turns it on exactly when the
      file before that commit had it on: a failed stop lasts until the next restart. */
  lemma RestartAfterFailedCommit(states: seq<State>, actions: seq<Action>, b: nat, i: nat)
    requires Run(states, actions) && b < i < |actions| && states[b].lock.Free? && Unwritten(states, b, i)
    requires actions[i] == CommitStep(false) && states[i].lock.ByCommit? && states[i].lock.phase.Flushed?
    ensures !states[i + 1].memory.preferences.enabled && Init(Restarted(states[i + 1]))
    ensures Restarted(states[i + 1]).memory.preferences.enabled <==> states[b].disk.preferences.enabled
    ensures states[b].memory.preferences.enabled ==> Restarted(states[i + 1]).memory.preferences.enabled
  {
    FailedCommitSwitchesOff(states, actions, i);
    CommitKeepsFile(states, actions, b, i);
    EveryStoredFileReloads(states, actions, i + 1);
    if states[b].memory.preferences.enabled {
      EnabledMeansStored(states, actions, b);
    }
  }

  /** A save that turns sharing off, up to the failure of its disk write. */
  lemma FailedStop(s0: State) returns (states: seq<State>, actions: seq<Action>)
    requires Init(s0) && s0.memory.preferences.enabled
    ensures |states| == 6 && |actions| == 5 && Run(states, actions) && states[0] == s0
    ensures actions[0] == BeginSave(s0.memory.revision, s0.memory.preferences.SwitchedOff())
    ensures states[5].lock.Free? && states[5].memory == s0.memory.SwitchedOff() && states[5].disk == s0.disk
  {
    var save := BeginSave(s0.memory.revision, s0.memory.preferences.SwitchedOff());
    var s1 := Apply(s0, save);
    var s2 := CommitNext(s1, true);
    var s3 := CommitNext(s2, true);
    var s4 := CommitNext(s3, true);
    var s5 := CommitNext(s4, false);
    states := [s0, s1, s2, s3, s4, s5];
    actions := [save, CommitStep(true), CommitStep(true), CommitStep(true), CommitStep(false)];
  }

  /** The off state of a failed stop does not survive a restart: from every enabled start there is
      a run in which the operator's stop fails and the file it leaves turns sharing on again. */
  lemma FailedStopUndoneByRestart(s0: State) returns (states: seq<State>, actions: seq<Action>)
    requires Init(s0) && s0.memory.preferences.enabled
    ensures Run(states, actions) && states[0] == s0
    ensures |actions| > 0 && actions[0] == BeginSave(s0.memory.revision, s0.memory.preferences.SwitchedOff())
    ensures states[|actions|].lock.Free? && !states[|actions|].memory.preferences.enabled
    ensures states[|actions|].disk.preferences.enabled && states[|actions|].disk.Loadable()
  {
    states, actions := FailedStop(s0);
    RunInvariant(states, actions, 5);
  }
}
