/** Which upload requests start in the epoch and in the capture session their movie was queued in.

    The checks before a request are single loads; between any two of them, and between the last one
    and the request, consent and capture may change. */
module SharingUploads {

  import opened SharingTypes
  import opened SharingProtocol
  import opened SharingSafety

  predicate Checking(s: State) {
    Attempts(s) && PastEpoch(s.transport.upload.stage)
  }

  lemma StepKeepsMovie(s: State, a: Action)
    requires Enabled(s, a) && Checking(s) && Checking(Apply(s, a))
    ensures Apply(s, a).transport.upload.item == s.transport.upload.item
  {
    match a
    case OfferStep(id) => assert OfferNext(s, id).transport == s.transport;
    case CommitStep(diskOk) => assert CommitNext(s, diskOk).transport == s.transport;
    case AttemptStep => assert AttemptNext(s).transport.upload.item == s.transport.upload.item;
    case _ =>
  }

  /** The attempt is on its way from its epoch check to its request throughout `c < k <= i`. */
  ghost predicate CheckingThroughout(states: seq<State>, c: nat, i: nat)
    requires i < |states|
  {
    forall k | c < k <= i :: Checking(states[k])
  }

  lemma {:induction false} SameMovie(states: seq<State>, actions: seq<Action>, c: nat, i: nat)
    requires Run(states, actions) && c < i < |states| && CheckingThroughout(states, c, i)
    ensures states[i].transport.upload.item == states[c + 1].transport.upload.item
  {
    if c + 1 < i {
      SameMovie(states, actions, c, i - 1);
      assert Checking(states[i - 1]) && Checking(states[i]);
      assert Follows(states, actions, i - 1);
      StepKeepsMovie(states[i - 1], actions[i - 1]);
    }
  }

  /** The step `c` finds the movie's epoch current. */
  predicate ChecksEpoch(states: seq<State>, actions: seq<Action>, c: nat)
    requires |states| == |actions| + 1
  {
    c < |actions| && actions[c].AttemptStep? && Attempts(states[c]) && states[c].transport.upload.stage.StopSeen?
  }

  /** The step `c` finds the movie's capture session running, for the second and last time. */
  predicate ChecksSource(states: seq<State>, actions: seq<Action>, c: nat)
    requires |states| == |actions| + 1
  {
    c < |actions| && actions[c].AttemptStep? && Attempts(states[c]) && states[c].transport.upload.stage.AgeSeen?
  }

  predicate ReadyToStart(s: State) {
    Attempts(s) && s.transport.upload.stage.SourceSeenAgain?
  }

  /** Only an epoch check brings an attempt on its way to the request, and only a look at the source
      brings it to the end of the checks. */
  lemma CheckingBegins(s: State, a: Action)
    requires Enabled(s, a)
    ensures Checking(Apply(s, a)) && !Checking(s) ==>
              a.AttemptStep? && Attempts(s) && s.transport.upload.stage.StopSeen?
    ensures ReadyToStart(Apply(s, a)) && !ReadyToStart(s) ==>
              a.AttemptStep? && Attempts(s) && s.transport.upload.stage.AgeSeen?
  {
    match a
    case OfferStep(id) => assert OfferNext(s, id).transport == s.transport;
    case CommitStep(diskOk) => assert CommitNext(s, diskOk).transport == s.transport;
    case _ =>
  }

  /** Every attempt on its way to the request has passed its epoch check. */
  lemma {:induction false} EpochWasChecked(states: seq<State>, actions: seq<Action>, i: nat) returns (c: nat)
    requires Run(states, actions) && i < |states| && Checking(states[i])
    ensures c < i && ChecksEpoch(states, actions, c) && CheckingThroughout(states, c, i)
  {
    assert i > 0;
    c := i - 1;
    assert Follows(states, actions, c);
    CheckingBegins(states[c], actions[c]);
    if Checking(states[c]) {
      c := EpochWasChecked(states, actions, i - 1);
    }
  }

  /** And every attempt about to start its request has just seen its capture session. */
  lemma {:induction false} SourceWasChecked(states: seq<State>, actions: seq<Action>, i: nat) returns (c: nat)
    requires Run(states, actions) && i < |states| && ReadyToStart(states[i])
    ensures c < i && ChecksSource(states, actions, c) && CheckingThroughout(states, c, i)
  {
    assert i > 0;
    c := i - 1;
    assert Follows(states, actions, c);
    CheckingBegins(states[c], actions[c]);
    if ReadyToStart(states[c]) {
      c := SourceWasChecked(states, actions, i - 1);
    }
  }

  /** Every request passed an epoch check at some step `c`, and it starts in the epoch of its movie
      exactly when no commit and no stop announces itself from then on. */
  lemma StartedInOwnEpoch(states: seq<State>, actions: seq<Action>, i: nat) returns (c: nat)
    requires Run(states, actions) && i < |actions| && actions[i].StartAttempt?
    ensures c < i && ChecksEpoch(states, actions, c) && Attempts(states[i])
    ensures states[i].transport.upload.item == states[c].transport.upload.item
    ensures states[i].transport.upload.item.epoch == states[i].epoch
       <==> !EpochAnnounced(states, actions, c + 1, i)
  {
    assert Follows(states, actions, i);
    c := EpochWasChecked(states, actions, i);
    SameMovie(states, actions, c, i);
    assert Checking(states[c + 1]);
    assert Follows(states, actions, c) && states[c + 1] == AttemptNext(states[c]);
    EpochCheckPassed(states[c]);
    EpochMovesWhenAnnounced(states, actions, c + 1, i);
  }

  /** Step `f` sets the capture source to something other than `session`, for good up to `j`. */
  ghost predicate LeavesAt(actions: seq<Action>, session: nat, f: int, j: nat)
    requires 0 <= f < j <= |actions|
  {
    && actions[f].CaptureSession? && actions[f].session != Some(session)
    && forall k | f < k < j :: !actions[k].CaptureSession?
  }

  /** Between `i` and `j` the capture source was last set to something other than `session`. */
  ghost predicate SourceLeft(actions: seq<Action>, session: nat, i: nat, j: nat)
    requires j <= |actions|
  {
    exists f :: i <= f < j && LeavesAt(actions, session, f, j)
  }

  lemma StepKeepsSource(s: State, a: Action)
    requires Enabled(s, a)
    ensures Apply(s, a).source == if a.CaptureSession? then a.session else s.source
  {
    match a
    case OfferStep(id) => assert OfferNext(s, id).source == s.source;
    case CommitStep(diskOk) => assert CommitNext(s, diskOk).source == s.source;
    case AttemptStep => assert AttemptNext(s).source == s.source;
    case _ =>
  }

  lemma RunKeepsSource(states: seq<State>, actions: seq<Action>, j: nat)
    requires Run(states, actions) && 0 < j < |states|
    ensures states[j].source ==
            if actions[j - 1].CaptureSession? then actions[j - 1].session else states[j - 1].source
  {
    assert Follows(states, actions, j - 1);
    StepKeepsSource(states[j - 1], actions[j - 1]);
  }

  lemma {:induction false} SourceKeptUnlessLeft(states: seq<State>, actions: seq<Action>, session: nat, i: nat, j: nat)
    requires Run(states, actions) && i <= j < |states| && states[i].source == Some(session)
    ensures states[j].source == Some(session) <==> !SourceLeft(actions, session, i, j)
  {
    if i < j {
      SourceKeptUnlessLeft(states, actions, session, i, j - 1);
      RunKeepsSource(states, actions, j);
      LeftStep(actions, session, i, j);
    }
  }

  lemma LeftStep(actions: seq<Action>, session: nat, i: nat, j: nat)
    requires i < j <= |actions|
    ensures SourceLeft(actions, session, i, j)
       <==> if actions[j - 1].CaptureSession? then actions[j - 1].session != Some(session)
            else SourceLeft(actions, session, i, j - 1)
  {
    if actions[j - 1].CaptureSession? {
      if actions[j - 1].session != Some(session) {
        assert LeavesAt(actions, session, j - 1, j);
      }
    } else if SourceLeft(actions, session, i, j - 1) {
      var f :| i <= f < j - 1 && LeavesAt(actions, session, f, j - 1);
      assert LeavesAt(actions, session, f, j);
    } else if SourceLeft(actions, session, i, j) {
      var f :| i <= f < j && LeavesAt(actions, session, f, j);
      assert LeavesAt(actions, session, f, j - 1);
    }
  }

  lemma SourceCheckPassed(s: State)
    requires Enabled(s, AttemptStep) && s.transport.upload.stage.AgeSeen? && Attempts(AttemptNext(s))
    ensures s.source == Some(s.transport.upload.item.session)
    ensures AttemptNext(s).source == s.source && AttemptNext(s).transport.upload.item == s.transport.upload.item
  {
  }

  /** Every request followed a look at its movie's capture session at some step `c`, and it starts
      while that session runs exactly when the source was not left for another one, or for none, from
      then on. */
  lemma StartedInOwnSession(states: seq<State>, actions: seq<Action>, i: nat) returns (c: nat)
    requires Run(states, actions) && i < |actions| && actions[i].StartAttempt?
    ensures c < i && ChecksSource(states, actions, c) && Attempts(states[i])
    ensures states[i].transport.upload.item == states[c].transport.upload.item
    ensures var item := states[i].transport.upload.item;
            states[i].source == Some(item.session) <==> !SourceLeft(actions, item.session, c + 1, i)
  {
    assert Follows(states, actions, i);
    c := SourceWasChecked(states, actions, i);
    SameMovie(states, actions, c, i);
    assert Checking(states[c + 1]);
    assert Follows(states, actions, c) && states[c + 1] == AttemptNext(states[c]);
    SourceCheckPassed(states[c]);
    SourceKeptUnlessLeft(states, actions, states[i].transport.upload.item.session, c + 1, i);
  }

  // ---------------------------------------------------------------- a request that comes too late

  /** Some run leads from the start `s0` to `s`. */
  ghost predicate Reaches(s0: State, s: State) {
    exists states, actions :: Run(states, actions) && states[0] == s0 && states[|actions|] == s
  }

  lemma Goes(s0: State, s: State, a: Action, t: State)
    requires Reaches(s0, s) && Enabled(s, a) && Apply(s, a) == t
    ensures Reaches(s0, t)
  {
    var states, actions :| Run(states, actions) && states[0] == s0 && states[|actions|] == s;
    var states', actions' := states + [t], actions + [a];
    forall i | 0 <= i < |actions'| ensures Follows(states', actions', i) {
      assert i < |actions| ==> Follows(states, actions, i);
    }
    assert Run(states', actions');
  }

  function Connected(s0: State, upload: Upload): State {
    s0.(transport := Session(0, s0.memory, s0.memory.Rules(), upload))
  }

  /** One offer at work beside a connected session. */
  function Offering(s0: State, pc: OfferPc, session: nat): State {
    Connected(s0, NoUpload).(offers := map[0 := Offer(pc, None, 0, 0, s0.memory, session)],
                             copyOwner := if pc.SessionRead? then None else Some(0),
                             lock := if Offer(pc, None, 0, 0, s0.memory, session).HoldsLock() then ByOffer(0) else Free)
  }

  ghost predicate Ready(s0: State) {
    Init(s0) && s0.memory.SharesTimelapses() && s0.source.Some?
  }

  lemma Connects(s0: State)
    requires Ready(s0)
    ensures Reaches(s0, Connected(s0, NoUpload))
  {
    assert Run([s0], []);
    Goes(s0, s0, ReadEpoch, s0.(transport := Starting(0)));
    Goes(s0, s0.(transport := Starting(0)), CheckRunning, s0.(transport := Permitted(0)));
    Goes(s0, s0.(transport := Permitted(0)), StartSession, Connected(s0, NoUpload));
  }

  function Early(s0: State, pc: OfferPc): State {
    Connected(s0, NoUpload).(offers := map[0 := Offer(pc, None, 0, 0, s0.memory, 0)])
  }

  lemma OfferBegins(s0: State)
    requires Ready(s0)
    ensures Reaches(s0, Early(s0, NotStopped))
  {
    Connects(s0);
    Goes(s0, Connected(s0, NoUpload), BeginOffer(0, None), Early(s0, EpochRead));
    Goes(s0, Early(s0, EpochRead), OfferStep(0), Early(s0, GenerationRead));
    Goes(s0, Early(s0, GenerationRead), OfferStep(0), Early(s0, Consented));
    Goes(s0, Early(s0, Consented), OfferStep(0), Early(s0, NotStopped));
  }

  function After(pc: OfferPc): OfferPc {
    match pc
    case SessionRead => CopyLocked
    case CopyLocked => Copying
    case Copying => CopyEpochSeen
    case CopyEpochSeen => CopyGenerationSeen
    case CopyGenerationSeen => CopyStopSeen
    case CopyStopSeen => CopyAllowed
    case Copied => OfferPc.Locked
    case Locked => EpochRechecked
    case EpochRechecked => StopRechecked
    case StopRechecked => SessionRechecked
    case _ => ConsentRechecked
  }

  lemma OfferMoves(s0: State, pc: OfferPc)
    requires Ready(s0) && Reaches(s0, Offering(s0, pc, s0.source.value))
    requires !pc.EpochRead? && !pc.GenerationRead? && !pc.Consented? && !pc.NotStopped?
    requires !pc.CopyAllowed? && !pc.ConsentRechecked?
    ensures Reaches(s0, Offering(s0, After(pc), s0.source.value))
  {
    var src := s0.source.value;
    assert OfferNext(Offering(s0, pc, src), 0) == Offering(s0, After(pc), src);
    Goes(s0, Offering(s0, pc, src), OfferStep(0), Offering(s0, After(pc), src));
  }

  lemma OfferCopies(s0: State)
    requires Ready(s0)
    ensures Reaches(s0, Offering(s0, Copying, s0.source.value))
  {
    OfferBegins(s0);
    Goes(s0, Early(s0, NotStopped), OfferStep(0), Offering(s0, SessionRead, s0.source.value));
    OfferMoves(s0, SessionRead);
    OfferMoves(s0, CopyLocked);
  }

  lemma OfferCopied(s0: State)
    requires Ready(s0)
    ensures Reaches(s0, Offering(s0, Copied, s0.source.value))
  {
    OfferCopies(s0);
    OfferMoves(s0, Copying);
    OfferMoves(s0, CopyEpochSeen);
    OfferMoves(s0, CopyGenerationSeen);
    OfferMoves(s0, CopyStopSeen);
    var src := s0.source.value;
    assert Apply(Offering(s0, CopyAllowed, src), CopyOutcome(0, true)) == Offering(s0, Copied, src);
    Goes(s0, Offering(s0, CopyAllowed, src), CopyOutcome(0, true), Offering(s0, Copied, src));
  }

  lemma OfferLocks(s0: State)
    requires Ready(s0)
    ensures Reaches(s0, Offering(s0, StopRechecked, s0.source.value))
  {
    OfferCopied(s0);
    OfferMoves(s0, Copied);
    OfferMoves(s0, OfferPc.Locked);
    OfferMoves(s0, EpochRechecked);
  }

  lemma OfferRechecks(s0: State)
    requires Ready(s0)
    ensures Reaches(s0, Offering(s0, ConsentRechecked, s0.source.value))
  {
    OfferLocks(s0);
    OfferMoves(s0, StopRechecked);
    OfferMoves(s0, SessionRechecked);
  }

  function Movie(s0: State): Queued
    requires s0.source.Some?
  {
    Queued(s0.nextId, s0.source.value, 0, s0.clock)
  }

  /** The movie in the transport's hands. */
  function Handling(s0: State, upload: Upload): State {
    Connected(s0, upload).(nextId := s0.nextId + 1)
  }

  lemma MovieQueued(s0: State)
    requires Ready(s0)
    ensures Reaches(s0, Handling(s0, NoUpload).(slot := Some(Movie(s0))))
  {
    OfferRechecks(s0);
    var s := Offering(s0, ConsentRechecked, s0.source.value);
    assert OfferNext(s, 0) == Handling(s0, NoUpload).(slot := Some(Movie(s0)));
    Goes(s0, s, OfferStep(0), Handling(s0, NoUpload).(slot := Some(Movie(s0))));
  }

  /** The first attempt of the movie, at one of its checks. */
  function Trying(s0: State, stage: AttemptStage): State
    requires s0.source.Some?
  {
    Handling(s0, Attempting(Movie(s0), 0, stage, if PastAge(stage) then s0.clock else 0))
  }

  lemma AttemptBegins(s0: State)
    requires Ready(s0)
    ensures Reaches(s0, Trying(s0, StopSeen))
  {
    MovieQueued(s0);
    var item := Movie(s0);
    Goes(s0, Handling(s0, NoUpload).(slot := Some(item)), TakeMovie, Handling(s0, Taken(item)));
    Goes(s0, Handling(s0, Taken(item)), FilterAge, Handling(s0, Aged(item)));
    Goes(s0, Handling(s0, Aged(item)), FilterSource(true), Trying(s0, Waiting));
    Goes(s0, Trying(s0, Waiting), AttemptStep, Trying(s0, StopSeen));
  }

  lemma AttemptChecked(s0: State)
    requires Ready(s0)
    ensures Reaches(s0, Trying(s0, SourceSeenAgain))
  {
    AttemptBegins(s0);
    Goes(s0, Trying(s0, StopSeen), AttemptStep, Trying(s0, EpochSeen));
    Goes(s0, Trying(s0, EpochSeen), AttemptStep, Trying(s0, SourceSeen));
    Goes(s0, Trying(s0, SourceSeen), AttemptStep, Trying(s0, AgeSeen));
    Goes(s0, Trying(s0, AgeSeen), AttemptStep, Trying(s0, SourceSeenAgain));
  }

  function Stopping(s0: State, phase: Phase): State
    requires s0.source.Some?
  {
    var p := s0.memory.preferences.SwitchedOff();
    var next := s0.memory.(preferences := p, remoteRules := None, revision := s0.memory.revision + 1);
    Trying(s0, SourceSeenAgain).(lock := ByCommit(Save, next, phase))
  }

  /** It does happen: from every start with timelapse sharing on there is a run in which the
      operator's stop has cancelled the queue and announced a new epoch, and the request for a movie
      of the earlier epoch starts all the same. */
  lemma RequestAfterStop(s0: State) returns (s: State)
    requires Ready(s0)
    ensures Reaches(s0, s) && !s.memory.preferences.enabled
    ensures Enabled(s, StartAttempt) && Apply(s, StartAttempt).transport.upload.stage.Posting?
    ensures s.transport.upload.item.epoch < s.epoch
  {
    AttemptChecked(s0);
    var save := BeginSave(s0.memory.revision, s0.memory.preferences.SwitchedOff());
    var s1 := Stopping(s0, Begun);
    var s2 := Stopping(s0, SwitchedOff).(memory := s0.memory.SwitchedOff());
    var s3 := Stopping(s0, Cancelled).(memory := s0.memory.SwitchedOff(), generation := 1);
    s := Stopping(s0, Flushed).(memory := s0.memory.SwitchedOff(), generation := 1, epoch := 1);
    Goes(s0, Trying(s0, SourceSeenAgain), save, s1);
    Goes(s0, s1, CommitStep(true), s2);
    Goes(s0, s2, CommitStep(true), s3);
    Goes(s0, s3, CommitStep(true), s);
  }

  /** So does the other: from every such start there is a run in which capture goes over to another
      session, or to none, and the request for a movie of the session it left starts all the same. */
  lemma RequestAfterCapture(s0: State, next: Option<nat>) returns (s: State)
    requires Ready(s0) && next != s0.source
    ensures Reaches(s0, s) && s.source == next
    ensures Enabled(s, StartAttempt) && Apply(s, StartAttempt).transport.upload.stage.Posting?
    ensures s.source != Some(s.transport.upload.item.session)
  {
    AttemptChecked(s0);
    s := Trying(s0, SourceSeenAgain).(source := next);
    Goes(s0, Trying(s0, SourceSeenAgain), CaptureSession(next), s);
  }
}
