/** What the one-slot queue lets in, keeps and gives up, and how far an upload goes (service.rs, and
    the session loop and upload of transport.rs). */
module SharingQueue {

  import opened SharingTypes
  import opened SharingProtocol
  import opened SharingSafety
  import opened SharingCommits

  // ---------------------------------------------------------------- cancelling and emptying

  /** A commit cancels before and after it writes, the final stop and the end of a session once. */
  predicate CancelsMovies(s: State, a: Action) {
    || (a.CommitStep? && s.lock.ByCommit? && (s.lock.phase.SwitchedOff? || s.lock.phase.Written?))
    || (a.StopStep? && s.stop.Stopped?)
    || a.EndSession?
  }

  ghost predicate MoviesCancelled(states: seq<State>, actions: seq<Action>, i: nat, j: nat)
    requires |states| == |actions| + 1
  {
    exists f :: i <= f < j < |states| && CancelsMovies(states[f], actions[f])
  }

  lemma StepCancels(s: State, a: Action)
    requires Enabled(s, a)
    ensures Apply(s, a).generation == s.generation + if CancelsMovies(s, a) then 1 else 0
    ensures CancelsMovies(s, a) ==> Apply(s, a).slot.None?
  {
    match a
    case OfferStep(id) => assert OfferNext(s, id).generation == s.generation;
    case CommitStep(diskOk) => CommitCancels(s, diskOk);
    case AttemptStep => assert AttemptNext(s).generation == s.generation;
    case _ =>
  }

  lemma CommitCancels(s: State, diskOk: bool)
    requires CommitEnabled(s)
    ensures CommitNext(s, diskOk) ==
            if s.lock.phase.SwitchedOff? then Cancel(s).(lock := s.lock.(phase := Cancelled))
            else if s.lock.phase.Written? then Cancel(s).(lock := s.lock.(phase := Recancelled))
            else CommitNext(s, diskOk).(generation := s.generation, slot := s.slot)
  {
  }

  /** The movie generation differs between two moments exactly when something was cancelled in between. */
  lemma {:induction false} GenerationMovesWhenCancelled(states: seq<State>, actions: seq<Action>, i: nat, j: nat)
    requires Run(states, actions) && i <= j < |states|
    ensures states[i].generation <= states[j].generation
    ensures states[i].generation == states[j].generation <==> !MoviesCancelled(states, actions, i, j)
  {
    if i < j {
      GenerationMovesWhenCancelled(states, actions, i, j - 1);
      assert Follows(states, actions, j - 1);
      StepCancels(states[j - 1], actions[j - 1]);
      if CancelsMovies(states[j - 1], actions[j - 1]) {
        assert MoviesCancelled(states, actions, i, j);
      } else if MoviesCancelled(states, actions, i, j) {
        var f :| i <= f < j && CancelsMovies(states[f], actions[f]);
        assert f < j - 1;
        assert MoviesCancelled(states, actions, i, j - 1);
      }
    }
  }

  /** The session finds the queued movie of another epoch, more than 900 seconds old, or of a capture
      session that is no longer running. */
  predicate FindsStale(s: State, a: Action) {
    && a.PruneSlot? && s.transport.Session? && s.slot.Some?
    && var movie := s.slot.value;
       movie.epoch != s.transport.epoch
       || (if a.byAge then s.clock > movie.queuedAt + 900 else s.source.None? || s.source.value != movie.session)
  }

  lemma SlotKept(s: State, a: Action)
    requires Enabled(s, a) && s.slot.Some? && !CancelsMovies(s, a) && !a.TakeMovie? && !a.PruneSlot?
    ensures Apply(s, a).slot == s.slot
  {
    match a
    case OfferStep(id) => assert OfferNext(s, id).slot == s.slot;
    case CommitStep(diskOk) => CommitCancels(s, diskOk);
    case AttemptStep => assert AttemptNext(s).slot == s.slot;
    case _ =>
  }

  /** A queued movie leaves the queue exactly when it is taken to be uploaded, cancelled, or found stale. */
  lemma QueueEmptiedExactly(states: seq<State>, actions: seq<Action>, i: nat)
    requires Run(states, actions) && i < |actions| && states[i].slot.Some?
    ensures var s, a := states[i], actions[i];
            && (states[i + 1].slot.None? <==> a.TakeMovie? || CancelsMovies(s, a) || FindsStale(s, a))
            && (a.TakeMovie? ==> states[i + 1].transport.Session? && states[i + 1].transport.upload == Taken(s.slot.value))
  {
    assert Follows(states, actions, i);
    var s, a := states[i], actions[i];
    StepCancels(s, a);
    if !CancelsMovies(s, a) && !a.TakeMovie? && !a.PruneSlot? {
      SlotKept(s, a);
    }
  }

  // ---------------------------------------------------------------- admission

  /** The offer has read the generation, and found `generation`. */
  predicate HasRead(s: State, id: nat, generation: nat) {
    id in s.offers && !s.offers[id].pc.EpochRead? && s.offers[id].generation == generation
  }

  lemma OfferReads(s: State, id: nat)
    requires OfferEnabled(s, id) && id in OfferNext(s, id).offers
    ensures HasRead(OfferNext(s, id), id, if s.offers[id].pc.EpochRead? then s.generation else s.offers[id].generation)
  {
  }

  lemma ReadStep(s: State, a: Action, id: nat, generation: nat)
    requires Inv(s) && Enabled(s, a) && HasRead(Apply(s, a), id, generation)
    ensures HasRead(s, id, generation) ||
            (a == OfferStep(id) && s.offers[id].pc.EpochRead? && s.generation == generation)
  {
    if a == OfferStep(id) {
      OfferReads(s, id);
    } else if (a.CopyOutcome? || a.BeginOffer?) && a.id == id {
    } else {
      OfferAlone(s, a, id);
    }
  }

  lemma {:induction false} GenerationWasRead(states: seq<State>, actions: seq<Action>, i: nat, id: nat, generation: nat)
    returns (b: nat)
    requires Run(states, actions) && i < |states| && HasRead(states[i], id, generation)
    ensures b < i && actions[b] == OfferStep(id) && states[b].generation == generation
    ensures id in states[b].offers && states[b].offers[id].pc.EpochRead?
    ensures forall k | b < k <= i :: HasRead(states[k], id, generation)
  {
    assert i > 0;
    b := i - 1;
    RunInvariant(states, actions, b);
    assert Follows(states, actions, b);
    ReadStep(states[b], actions[b], id, generation);
    if HasRead(states[b], id, generation) {
      b := GenerationWasRead(states, actions, i - 1, id, generation);
    }
  }

  /** The last step of an offer puts its movie into the queue exactly when the queue is empty and
      nothing was cancelled since the offer began. */
  lemma AdmittedExactly(states: seq<State>, actions: seq<Action>, i: nat, id: nat) returns (b: nat)
    requires Run(states, actions) && i < |actions| && actions[i] == OfferStep(id)
    requires id in states[i].offers && states[i].offers[id].pc.ConsentRechecked?
    ensures b < i && actions[b] == OfferStep(id) && id in states[b].offers && states[b].offers[id].pc.EpochRead?
    ensures forall k | b < k <= i :: id in states[k].offers && !states[k].offers[id].pc.EpochRead?
    ensures states[i + 1].slot.Some? && states[i + 1].slot != states[i].slot <==>
            states[i].slot.None? && !MoviesCancelled(states, actions, b, i)
    ensures id !in states[i + 1].offers && states[i + 1].lock.Free?
  {
    var generation := states[i].offers[id].generation;
    b := GenerationWasRead(states, actions, i, id, generation);
    GenerationMovesWhenCancelled(states, actions, b, i);
    forall k | b < k <= i ensures id in states[k].offers && !states[k].offers[id].pc.EpochRead? {
      assert HasRead(states[k], id, generation);
    }
    RunInvariant(states, actions, i);
    assert Follows(states, actions, i);
  }

  // ---------------------------------------------------------------- copying

  /** How many of the four checks before the next chunk an offer has passed. */
  function ChecksPassed(pc: OfferPc): nat {
    match pc
    case CopyEpochSeen => 1
    case CopyGenerationSeen => 2
    case CopyStopSeen => 3
    case CopyAllowed => 4
    case _ => 0
  }

  /** The offer is in its copy loop and has passed `n` checks. */
  predicate Passed(s: State, id: nat, n: nat) {
    id in s.offers && s.offers[id].Copies() && ChecksPassed(s.offers[id].pc) >= n
  }

  /** What the checks look for: its epoch, its movie generation, no stop, its capture session. */
  predicate Permits(s: State, o: Offer, n: nat) {
    match n
    case 1 => s.epoch == o.epoch
    case 2 => s.generation == o.generation
    case 3 => s.stop.Running?
    case _ => s.source.Some? && s.source.value == o.session
  }

  /** The offer goes by the same epoch, generation and session. */
  predicate SameOffer(o: Offer, p: Offer) {
    o.epoch == p.epoch && o.generation == p.generation && o.session == p.session
  }

  lemma CopyChecks(s: State, id: nat)
    requires OfferEnabled(s, id) && s.offers[id].Copies()
    ensures id in OfferNext(s, id).offers ==>
              var o, o' := s.offers[id], OfferNext(s, id).offers[id];
              && SameOffer(o, o') && ChecksPassed(o'.pc) == ChecksPassed(o.pc) + 1
              && Permits(s, o, ChecksPassed(o.pc) + 1)
  {
  }

  lemma OthersDoNotPass(s: State, id: nat)
    requires OfferEnabled(s, id) && !s.offers[id].Copies()
    ensures id in OfferNext(s, id).offers ==> ChecksPassed(OfferNext(s, id).offers[id].pc) == 0
  {
  }

  lemma OfferPasses(s: State, id: nat, n: nat)
    requires OfferEnabled(s, id) && 1 <= n <= 4 && Passed(OfferNext(s, id), id, n)
    ensures Passed(s, id, n - 1) && SameOffer(s.offers[id], OfferNext(s, id).offers[id])
    ensures Passed(s, id, n) || Permits(s, s.offers[id], n)
  {
    hide OfferNext;
    if s.offers[id].Copies() {
      CopyChecks(s, id);
    } else {
      OthersDoNotPass(s, id);
    }
  }

  lemma PassedStep(s: State, a: Action, id: nat, n: nat)
    requires Inv(s) && Enabled(s, a) && 1 <= n <= 4 && Passed(Apply(s, a), id, n)
    ensures Passed(s, id, n - 1) && SameOffer(s.offers[id], Apply(s, a).offers[id])
    ensures Passed(s, id, n) || (a == OfferStep(id) && Permits(s, s.offers[id], n))
  {
    if a == OfferStep(id) {
      OfferPasses(s, id, n);
    } else if (a.CopyOutcome? || a.BeginOffer?) && a.id == id {
    } else {
      OfferAlone(s, a, id);
    }
  }

  lemma RunPassedStep(states: seq<State>, actions: seq<Action>, i: nat, id: nat, n: nat)
    requires Run(states, actions) && i < |actions| && 1 <= n <= 4 && Passed(states[i + 1], id, n)
    ensures Passed(states[i], id, n - 1) && SameOffer(states[i].offers[id], states[i + 1].offers[id])
    ensures Passed(states[i], id, n) || (actions[i] == OfferStep(id) && Permits(states[i], states[i].offers[id], n))
  {
    RunInvariant(states, actions, i);
    assert Follows(states, actions, i);
    PassedStep(states[i], actions[i], id, n);
  }

  /** The step at which the offer passed check `n` of this round. */
  lemma {:induction false} CheckWasPassed(states: seq<State>, actions: seq<Action>, i: nat, id: nat, n: nat) returns (c: nat)
    requires Run(states, actions) && i < |states| && 1 <= n <= 4 && Passed(states[i], id, n)
    ensures c < i && actions[c] == OfferStep(id) && Passed(states[c], id, n - 1)
    ensures SameOffer(states[c].offers[id], states[i].offers[id]) && Permits(states[c], states[i].offers[id], n)
    ensures forall k | c < k <= i :: Passed(states[k], id, n)
  {
    assert i > 0;
    c := i - 1;
    RunPassedStep(states, actions, c, id, n);
    if Passed(states[c], id, n) {
      c := CheckWasPassed(states, actions, i - 1, id, n);
    }
  }

  /** Every chunk is copied only after four checks of its own, in this order: the epoch the offer
      began in is still current, nothing was cancelled since, there was no stop, and the capture
      session is running. */
  lemma CopiesWhilePermitted(states: seq<State>, actions: seq<Action>, i: nat, id: nat)
    returns (e: nat, g: nat, p: nat, q: nat)
    requires Run(states, actions) && i < |actions| && actions[i].CopyOutcome? && actions[i].id == id
    ensures e < g < p < q < i && id in states[i].offers
    ensures actions[e] == actions[g] == actions[p] == actions[q] == OfferStep(id)
    ensures forall k | e < k < i :: !(actions[k].CopyOutcome? && actions[k].id == id)
    ensures var o := states[i].offers[id];
            && states[e].epoch == o.epoch && states[g].generation == o.generation
            && states[p].stop.Running? && states[q].source == Some(o.session)
  {
    assert Follows(states, actions, i);
    q := CheckWasPassed(states, actions, i, id, 4);
    p := CheckWasPassed(states, actions, q, id, 3);
    g := CheckWasPassed(states, actions, p, id, 2);
    e := CheckWasPassed(states, actions, g, id, 1);
    forall k | e < k < i ensures !(actions[k].CopyOutcome? && actions[k].id == id) {
      assert Follows(states, actions, k);
      assert Passed(states[k + 1], id, 1);
    }
  }

  // ---------------------------------------------------------------- taking and uploading

  /** How far a movie goes, exactly. Once taken it is dropped unless it is of the session's epoch, at
      most 900 seconds old, of the capture session running and not too large; every attempt again
      wants no stop, the current epoch, timelapse sharing in the session's settings, the capture
      session running, at most 900 seconds of age, and the capture session again; and after a request
      that may be repeated there are at most two more attempts. */
  lemma UploadGoesOnExactly(s: State, a: Action)
    requires Enabled(s, a) && (a.FilterAge? || a.FilterSource? || a.AttemptStep? || a.EndAttempt?)
    ensures Apply(s, a).transport.Session?
    ensures var u, v := s.transport.upload, Apply(s, a).transport.upload;
            var movie := u.item;
            var young, captured := s.clock <= movie.queuedAt + 900, s.source.Some? && s.source.value == movie.session;
            && (!v.NoUpload? <==>
                  match u
                  case Taken(_) => movie.epoch == s.transport.epoch && young
                  case Aged(_) => captured && a.fits
                  case Attempting(_, attempt, stage, _) =>
                    (match stage
                     case Waiting => s.stop.Running?
                     case StopSeen =>
                       var settings := s.transport.settings;
                       && s.epoch == movie.epoch && settings.device.Some?
                       && settings.preferences.enabled && settings.preferences.timelapses
                     case SourceSeen => young
                     case Posting => a.retry && attempt <= 1
                     case _ => captured)
                  case NoUpload => false)
            && (!v.NoUpload? ==> v.item == movie)
            && (v.Attempting? && !u.Attempting? ==> v.attempt == 0)
            && (v.Attempting? && u.Attempting? ==> v.attempt == if u.stage.Posting? then u.attempt + 1 else u.attempt)
  {
  }
}
