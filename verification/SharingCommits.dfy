/** What the finished mutations of the agent leave behind, field by field, and on what terms a movie
    is admitted (service.rs and the session start of transport.rs). */
module SharingCommits {

  import opened SharingTypes
  import opened SharingProtocol
  import opened SharingSafety

  // ---------------------------------------------------------------- from a commit's start to its end

  predicate Begins(a: Action) {
    a.BeginSave? || a.BeginPair? || a.HubReply? || a.BeginForget?
  }

  /** The commit begun by step `b` has held the lock up to state `j`. */
  ghost predicate HeldSince(states: seq<State>, b: nat, j: nat)
    requires b < j < |states|
  {
    forall k | b < k <= j :: states[k].lock.ByCommit?
  }

  /** A commit or a rule change that holds the lock still does, and none has taken it. */
  predicate SameMutation(s: State, t: State) {
    if s.lock.ByCommit? || s.lock.ByConfigure? then t.lock == s.lock else !t.lock.ByCommit? && !t.lock.ByConfigure?
  }

  lemma LocksFootprint(s: State, id: nat)
    requires OfferEnabled(s, id) && !ChecksOnly(s.offers[id].pc)
    ensures var t := OfferNext(s, id);
            && t.memory == s.memory && t.disk == s.disk
            && (forall k :: k in t.offers && k != id ==> k in s.offers && t.offers[k] == s.offers[k])
            && (t.lock == s.lock || (s.lock.Free? && t.lock == ByOffer(id)) || (s.offers[id].HoldsLock() && t.lock.Free?))
  {
  }

  /** An offer's step leaves the settings and the other offers alone, and every lock it does not hold. */
  lemma OfferNextFootprint(s: State, id: nat)
    requires Inv(s) && OfferEnabled(s, id)
    ensures var t := OfferNext(s, id);
            && t.memory == s.memory && t.disk == s.disk && SameMutation(s, t)
            && (forall k :: k in t.offers && k != id ==> k in s.offers && t.offers[k] == s.offers[k])
  {
    if ChecksOnly(s.offers[id].pc) {
      CheckEndsOrMoves(s, id);
    } else {
      LocksFootprint(s, id);
    }
  }

  lemma OfferFootprint(s: State, a: Action)
    requires Inv(s) && Enabled(s, a) && Offers(a)
    ensures var t := Apply(s, a); t.memory == s.memory && t.disk == s.disk && SameMutation(s, t)
  {
    match a
    case OfferStep(id) => OfferNextFootprint(s, id);
    case _ =>
  }

  lemma TaskFootprint(s: State, a: Action)
    requires Enabled(s, a) && !Offers(a) && !Mutates(a)
    ensures var t := Apply(s, a); t.memory == s.memory && t.disk == s.disk && t.lock == s.lock
  {
    if a.AttemptStep? {
      assert AttemptNext(s).memory == s.memory && AttemptNext(s).disk == s.disk && AttemptNext(s).lock == s.lock;
    }
  }

  /** Whoever does not hold the `mutation` lock leaves the settings alone, and the lock to who holds it. */
  lemma OthersFootprint(s: State, a: Action)
    requires Inv(s) && Enabled(s, a) && !Mutates(a)
    ensures var t := Apply(s, a); t.memory == s.memory && t.disk == s.disk && SameMutation(s, t)
  {
    if Offers(a) {
      OfferFootprint(s, a);
    } else {
      TaskFootprint(s, a);
    }
  }

  lemma CommitKeepsNext(s: State, diskOk: bool)
    requires CommitEnabled(s) && CommitNext(s, diskOk).lock.ByCommit?
    ensures CommitNext(s, diskOk).lock.next == s.lock.next && CommitNext(s, diskOk).lock.kind == s.lock.kind
  {
  }

  lemma StepKeepsCommit(s: State, a: Action)
    requires Inv(s) && Enabled(s, a) && s.lock.ByCommit? && Apply(s, a).lock.ByCommit?
    ensures Apply(s, a).lock.next == s.lock.next && Apply(s, a).lock.kind == s.lock.kind
  {
    hide Inv, CommitNext;
    if !Mutates(a) {
      OthersFootprint(s, a);
    } else if a.CommitStep? {
      CommitKeepsNext(s, a.diskOk);
    }
  }

  lemma CommitTaken(s: State, a: Action)
    requires Inv(s) && Enabled(s, a) && !s.lock.ByCommit? && Apply(s, a).lock.ByCommit?
    ensures Begins(a) && s.lock.Free? && Apply(s, a).lock.phase.Begun? && Apply(s, a).memory == s.memory
  {
    if !Mutates(a) {
      OthersFootprint(s, a);
    }
  }

  /** Every commit under way was begun by some step `b` and has held the lock since. */
  lemma {:induction false} CommitBegan(states: seq<State>, actions: seq<Action>, j: nat) returns (b: nat)
    requires Run(states, actions) && j < |states| && states[j].lock.ByCommit?
    ensures b < j && Begins(actions[b]) && states[b].lock.Free? && HeldSince(states, b, j)
    ensures states[b + 1].lock.ByCommit? && states[b + 1].lock.phase.Begun? && states[b + 1].memory == states[b].memory
    ensures states[j].lock.next == states[b + 1].lock.next && states[j].lock.kind == states[b + 1].lock.kind
  {
    assert j > 0;
    b := j - 1;
    RunInvariant(states, actions, b);
    assert Follows(states, actions, b);
    if states[b].lock.ByCommit? {
      StepKeepsCommit(states[b], actions[b]);
      b := CommitBegan(states, actions, j - 1);
    } else {
      CommitTaken(states[b], actions[b]);
    }
  }

  /** Step `j` returns from a commit to its caller. */
  predicate Returns(states: seq<State>, actions: seq<Action>, j: nat)
    requires |states| == |actions| + 1
  {
    j < |actions| && actions[j].CommitStep? && states[j].lock.ByCommit? && states[j].lock.phase.Republished?
  }

  lemma ReturnedSettings(states: seq<State>, actions: seq<Action>, j: nat) returns (b: nat)
    requires Run(states, actions) && Returns(states, actions, j)
    ensures b < j && Begins(actions[b]) && states[b].lock.Free? && HeldSince(states, b, j)
    ensures Enabled(states[b], actions[b]) && states[b + 1] == Apply(states[b], actions[b])
    ensures states[b + 1].lock.ByCommit? && states[j].lock.kind == states[b + 1].lock.kind
    ensures states[j + 1].lock.Free?
    ensures states[j + 1].memory == states[j + 1].disk == states[b + 1].lock.next
  {
    b := CommitBegan(states, actions, j);
    RunInvariant(states, actions, j);
    assert Follows(states, actions, j);
    assert Follows(states, actions, b);
  }

  /** A forget that returns has taken every permission back, from memory and from the file: the
      device, the chat rules, the overlays and every source are gone, and of the other choices
      nothing is changed. */
  lemma ForgetForgets(states: seq<State>, actions: seq<Action>, j: nat) returns (b: nat)
    requires Run(states, actions) && Returns(states, actions, j) && states[j].lock.kind.Forget?
    ensures b < j && actions[b] == BeginForget(states[b].memory.revision) && HeldSince(states, b, j)
    ensures states[j + 1].lock.Free? && states[j + 1].disk == states[j + 1].memory
    ensures var before, after := states[b].memory, states[j + 1].memory;
            && after.device == None && after.remoteRules == None
            && after.revision == before.revision + 1 && after.installation == before.installation
    ensures var p := states[j + 1].memory.preferences;
            && !p.enabled && !p.snapshots && !p.sceneChanges && !p.dayNight && !p.telescopeEvents
            && !p.observationContext && !p.timelapses && !p.chatConfiguration && p.intervalMinutes == 0
            && p.overlays.telescopeId == None && !p.overlays.target && !p.overlays.exposureCount
            && p.overlays.temperature == Off
    ensures var before, p := states[b].memory.preferences, states[j + 1].memory.preferences;
            && p.hubOrigin == before.hubOrigin && p.sceneThresholdPercent == before.sceneThresholdPercent
            && p.burstCount == before.burstCount && p.spacingSeconds == before.spacingSeconds
  {
    b := ReturnedSettings(states, actions, j);
  }

  /** A save that returns has put exactly what was sent in force and in the file, under the next
      revision after the one its caller named, and dropped the chat rules; it is accepted only if a
      paired camera keeps its Hub. */
  lemma SaveSaves(states: seq<State>, actions: seq<Action>, j: nat) returns (b: nat)
    requires Run(states, actions) && Returns(states, actions, j) && states[j].lock.kind.Save?
    ensures b < j && actions[b].BeginSave? && actions[b].expectedRevision == states[b].memory.revision
    ensures HeldSince(states, b, j) && states[j + 1].lock.Free? && states[j + 1].disk == states[j + 1].memory
    ensures var before, after := states[b].memory, states[j + 1].memory;
            && after.preferences == actions[b].preferences && after.remoteRules == None
            && after.revision == before.revision + 1 && after.device == before.device
            && after.installation == before.installation
            && (after.device.Some? ==> after.preferences.hubOrigin == before.preferences.hubOrigin)
  {
    b := ReturnedSettings(states, actions, j);
  }

  /** The first commit of pairing switches sharing off, drops the chat rules and changes no other choice. */
  lemma PairFirstSwitchesOff(states: seq<State>, actions: seq<Action>, j: nat) returns (b: nat)
    requires Run(states, actions) && Returns(states, actions, j) && states[j].lock.kind.PairFirst?
    ensures b < j && actions[b] == BeginPair(states[b].memory.revision)
    ensures states[b].memory.device == None && states[b].memory.preferences.hubOrigin != ""
    ensures HeldSince(states, b, j) && states[j + 1].lock.Free? && states[j + 1].disk == states[j + 1].memory
    ensures states[j + 1].memory == states[b].memory.(
              revision := states[b].memory.revision + 1, remoteRules := None,
              preferences := states[b].memory.preferences.(enabled := false))
  {
    b := ReturnedSettings(states, actions, j);
  }

  /** The second one records the device the Hub answered with, and only if nothing was saved since
      the first. */
  lemma PairSecondPairs(states: seq<State>, actions: seq<Action>, j: nat) returns (b: nat)
    requires Run(states, actions) && Returns(states, actions, j) && states[j].lock.kind.PairSecond?
    ensures b < j && actions[b].HubReply? && actions[b].device.Some? && actions[b].stored
    ensures states[b].stop.Running? && states[b].memory.device == None && !states[b].memory.preferences.enabled
    ensures HeldSince(states, b, j) && states[j + 1].lock.Free? && states[j + 1].disk == states[j + 1].memory
    ensures states[j + 1].memory == states[b].memory.(
              revision := states[b].memory.revision + 1, device := actions[b].device)
  {
    b := ReturnedSettings(states, actions, j);
    RunInvariant(states, actions, b);
  }

  /** Whatever happens, the choices in force and on disk are within the operator's ranges. */
  lemma ChoicesInRange(states: seq<State>, actions: seq<Action>, i: nat, p: Preferences)
    requires Run(states, actions) && i < |states|
    requires p == states[i].memory.preferences || p == states[i].disk.preferences
    ensures p.intervalMinutes <= 1440 && 1 <= p.burstCount <= 3 && 60 <= p.spacingSeconds <= 600
    ensures 5 <= p.sceneThresholdPercent <= 80 && (p.enabled ==> p.hubOrigin != "")
    ensures var o := p.overlays;
            && (o.telescopeId.Some? ==> 0 < o.telescopeId.value <= 0x1F_FFFF_FFFF_FFFF)
            && (o.target || o.exposureCount || !o.temperature.Off? ==> o.telescopeId.Some?)
  {
    RunInvariant(states, actions, i);
  }

  // ---------------------------------------------------------------- every request can be met

  /** A request as the operator may make it: for the current revision, of choices in range; a save
      keeps the Hub of a paired camera, a pairing wants a Hub and no device, and its second half an
      answer that is still wanted. */
  predicate Acceptable(s: State, a: Action) {
    match a
    case BeginSave(r, p) =>
      && r == s.memory.revision && (s.memory.device.Some? ==> p.hubOrigin == s.memory.preferences.hubOrigin)
      && p.intervalMinutes <= 1440 && 1 <= p.burstCount <= 3 && 60 <= p.spacingSeconds <= 600
      && 5 <= p.sceneThresholdPercent <= 80 && (p.enabled ==> p.hubOrigin != "")
      && (p.overlays.telescopeId.Some? ==> 0 < p.overlays.telescopeId.value <= 0x1F_FFFF_FFFF_FFFF)
      && (p.overlays.target || p.overlays.exposureCount || !p.overlays.temperature.Off? ==> p.overlays.telescopeId.Some?)
    case BeginPair(r) =>
      && r == s.memory.revision && s.memory.device.None? && |s.memory.preferences.hubOrigin| > 0
      && s.pairing.NotPairing?
    case HubReply(device, stored) =>
      && s.pairing.AwaitingHub? && s.memory.revision == s.pairing.saved.revision && s.stop.Running?
      && device.Some? && device.value > 0 && stored
    case BeginForget(r) => r == s.memory.revision
    case _ => false
  }

  lemma Extends(states: seq<State>, actions: seq<Action>, a: Action)
    requires Run(states, actions) && Enabled(states[|actions|], a)
    ensures Run(states + [Apply(states[|actions|], a)], actions + [a])
  {
    var states', actions' := states + [Apply(states[|actions|], a)], actions + [a];
    forall i | 0 <= i < |actions'| ensures Follows(states', actions', i) {
      assert i < |actions| ==> Follows(states, actions, i);
    }
  }

  function StepsLeft(phase: Phase): nat {
    match phase
    case Begun => 8
    case SwitchedOff => 7
    case Cancelled => 6
    case Flushed => 5
    case Persisted => 4
    case Written => 3
    case Recancelled => 2
    case Republished => 1
  }

  lemma CommitAdvances(s: State)
    requires s.lock.ByCommit? && !s.lock.phase.Republished?
    ensures var t := CommitNext(s, true);
            && t.lock.ByCommit? && t.lock.kind == s.lock.kind
            && StepsLeft(t.lock.phase) == StepsLeft(s.lock.phase) - 1
  {
  }

  lemma {:induction false} CommitCanReturn(states: seq<State>, actions: seq<Action>)
    returns (states': seq<State>, actions': seq<Action>)
    requires Run(states, actions) && states[|actions|].lock.ByCommit?
    ensures Run(states', actions') && states <= states' && actions < actions'
    ensures |actions'| == |actions| + StepsLeft(states[|actions|].lock.phase)
    ensures Returns(states', actions', |actions'| - 1)
    ensures states'[|actions'| - 1].lock.kind == states[|actions|].lock.kind
    decreases StepsLeft(states[|actions|].lock.phase)
  {
    var s := states[|actions|];
    Extends(states, actions, CommitStep(true));
    states', actions' := states + [CommitNext(s, true)], actions + [CommitStep(true)];
    if !s.lock.phase.Republished? {
      CommitAdvances(s);
      states', actions' := CommitCanReturn(states', actions');
    }
  }

  /** Every such request can be met: whatever has happened before, if nobody holds the lock there is a
      way on in which it is accepted and its commit returns. */
  lemma RequestCanBeMet(states: seq<State>, actions: seq<Action>, a: Action)
    returns (states': seq<State>, actions': seq<Action>)
    requires Run(states, actions) && states[|actions|].lock.Free? && Acceptable(states[|actions|], a)
    ensures Run(states', actions') && states <= states' && actions < actions' && actions'[|actions|] == a
    ensures Returns(states', actions', |actions'| - 1)
    ensures states'[|actions'| - 1].lock.kind ==
            match a case BeginSave(_, _) => Save case BeginPair(_) => PairFirst case BeginForget(_) => Forget case _ => PairSecond
  {
    var s := states[|actions|];
    Extends(states, actions, a);
    states', actions' := CommitCanReturn(states + [Apply(s, a)], actions + [a]);
  }

  /** Chat rules that ask for no more than a connected session permits can be published. */
  lemma RulesCanBePublished(states: seq<State>, actions: seq<Action>, r: TriggerRules)
    returns (states': seq<State>, actions': seq<Action>)
    requires Run(states, actions)
    requires var s := states[|actions|]; var p := s.memory.preferences;
             && s.lock.Free? && s.stop.Running? && s.transport.Session? && s.transport.epoch == s.epoch
             && p.enabled && p.chatConfiguration
             && (r.sceneChanges ==> p.sceneChanges) && (r.dayNight ==> p.dayNight)
             && (r.telescopeEvents ==> p.telescopeEvents)
             && (r.intervalMinutes == 0 || 0 < p.intervalMinutes <= r.intervalMinutes <= 1440)
             && 1 <= r.burstCount <= p.burstCount && p.spacingSeconds <= r.spacingSeconds <= 600
    ensures Run(states', actions') && states <= states' && actions < actions' && actions'[|actions|] == BeginConfigure(r)
    ensures var s := states'[|actions'|];
            s.lock.Free? && s.memory.remoteRules == Some(r) && s.transport.Session? && s.transport.rules == r
  {
    var n := |actions|;
    Extends(states, actions, BeginConfigure(r));
    states', actions' := states + [Apply(states[n], BeginConfigure(r))], actions + [BeginConfigure(r)];
    for i := 0 to 3
      invariant Run(states', actions') && |actions'| == n + 1 + i && states <= states' && actions < actions'
      invariant actions'[n] == BeginConfigure(r)
      invariant Configuring(states[n], states'[n + 1 + i], r, i)
    {
      ConfigureAdvances(states[n], states'[n + 1 + i], r, i);
      Extends(states', actions', ConfigureStep(true));
      states', actions' := states' + [Apply(states'[n + 1 + i], ConfigureStep(true))], actions' + [ConfigureStep(true)];
    }
  }

  /** `i` of the three steps of a rule change are done. */
  predicate Configuring(s0: State, s: State, r: TriggerRules, i: nat)
    requires s0.transport.Session?
  {
    && s.transport.Session?
    && (if i < 3
        then && s.lock.ByConfigure? && s.lock.rules == r && s.lock.chosen.remoteRules == Some(r)
             && s.lock.stage == (if i == 0 then Admitting else if i == 1 then Checked else Stored)
             && s.memory == s0.memory && s.epoch == s0.epoch && s.transport.epoch == s0.transport.epoch
        else s.lock.Free? && s.memory.remoteRules == Some(r) && s.transport.rules == r)
  }

  lemma ConfigureAdvances(s0: State, s: State, r: TriggerRules, i: nat)
    requires s0.transport.Session? && s0.transport.epoch == s0.epoch && i < 3 && Configuring(s0, s, r, i)
    requires s0.memory.preferences.enabled && s0.memory.preferences.chatConfiguration && r.AllowedBy(s0.memory.preferences)
    ensures Enabled(s, ConfigureStep(true)) && Configuring(s0, Apply(s, ConfigureStep(true)), r, i + 1)
  {
  }

  // ---------------------------------------------------------------- the device

  /** This step writes the settings of a second pairing commit to the file or to memory. */
  predicate WritesPairing(s: State, a: Action) {
    a.CommitStep? && s.lock.ByCommit? && s.lock.kind.PairSecond? && (s.lock.phase.Flushed? || s.lock.phase.Persisted?)
  }

  predicate Unpaired(s: State) {
    s.memory.device == None && s.disk.device == None
  }

  lemma CommitKeepsUnpaired(s: State, diskOk: bool)
    requires Inv(s) && s.lock.ByCommit? && Unpaired(s) && !WritesPairing(s, CommitStep(diskOk))
    ensures Unpaired(CommitNext(s, diskOk))
  {
  }

  lemma StepKeepsUnpaired(s: State, a: Action)
    requires Inv(s) && Enabled(s, a) && Unpaired(s) && !WritesPairing(s, a)
    ensures Unpaired(Apply(s, a))
  {
    if !Mutates(a) {
      OthersFootprint(s, a);
    } else if a.CommitStep? {
      CommitKeepsUnpaired(s, a.diskOk);
    }
  }

  /** A camera without a device stays without one, in memory and in the file, until a second pairing
      commit writes: nothing brings a forgotten pairing back. */
  lemma {:induction false} NoDeviceUntilPaired(states: seq<State>, actions: seq<Action>, i: nat, j: nat)
    requires Run(states, actions) && i <= j < |states| && Unpaired(states[i])
    requires forall k | i <= k < j :: !WritesPairing(states[k], actions[k])
    ensures states[j].memory.device == None && states[j].disk.device == None
  {
    if i < j {
      NoDeviceUntilPaired(states, actions, i, j - 1);
      RunInvariant(states, actions, j - 1);
      assert Follows(states, actions, j - 1) && !WritesPairing(states[j - 1], actions[j - 1]);
      StepKeepsUnpaired(states[j - 1], actions[j - 1]);
    }
  }

  // ---------------------------------------------------------------- chat rules

  lemma CommitLeavesNoConfigure(s: State, diskOk: bool)
    requires CommitEnabled(s)
    ensures !CommitNext(s, diskOk).lock.ByConfigure?
  {
  }

  lemma StepKeepsConfigure(s: State, a: Action)
    requires Inv(s) && Enabled(s, a) && Apply(s, a).lock.ByConfigure?
    ensures if s.lock.ByConfigure? then Apply(s, a).lock.rules == s.lock.rules && Apply(s, a).memory == s.memory
            else a == BeginConfigure(Apply(s, a).lock.rules) && Apply(s, a).memory == s.memory
  {
    hide Inv, CommitNext;
    if !Mutates(a) {
      OthersFootprint(s, a);
    } else if a.CommitStep? {
      CommitLeavesNoConfigure(s, a.diskOk);
    }
  }

  lemma {:induction false} ConfigureBegan(states: seq<State>, actions: seq<Action>, j: nat) returns (b: nat)
    requires Run(states, actions) && j < |states| && states[j].lock.ByConfigure?
    ensures b < j && actions[b] == BeginConfigure(states[j].lock.rules) && states[b].memory == states[j].memory
  {
    assert j > 0;
    b := j - 1;
    RunInvariant(states, actions, b);
    assert Follows(states, actions, b);
    StepKeepsConfigure(states[b], actions[b]);
    if states[b].lock.ByConfigure? {
      b := ConfigureBegan(states, actions, j - 1);
    }
  }

  /** Chat rules that are published are those that were asked for, they ask for no more than the
      operator permits, and nothing but the rules and the revision changes, in memory as in the file. */
  lemma ChatChangesOnlyRules(states: seq<State>, actions: seq<Action>, j: nat) returns (b: nat)
    requires Run(states, actions) && j < |actions| && actions[j].ConfigureStep?
    requires states[j].lock.ByConfigure? && states[j].lock.stage.Stored?
    ensures b < j && actions[b].BeginConfigure? && states[b].memory == states[j].memory
    ensures states[j + 1].lock.Free? && states[j + 1].disk == states[j + 1].memory
    ensures states[j + 1].memory ==
            states[b].memory.(remoteRules := Some(actions[b].rules), revision := states[b].memory.revision + 1)
    ensures var p, r := states[b].memory.preferences, actions[b].rules;
            && p.enabled && p.chatConfiguration
            && (r.sceneChanges ==> p.sceneChanges) && (r.dayNight ==> p.dayNight)
            && (r.telescopeEvents ==> p.telescopeEvents)
            && (r.intervalMinutes == 0 || 0 < p.intervalMinutes <= r.intervalMinutes <= 1440)
            && 1 <= r.burstCount <= p.burstCount && p.spacingSeconds <= r.spacingSeconds <= 600
  {
    b := ConfigureBegan(states, actions, j);
    RunInvariant(states, actions, j);
    assert Follows(states, actions, j);
  }

  // ---------------------------------------------------------------- sessions and admissions

  /** The transport task has read epoch `epoch`. */
  predicate KnowsEpoch(t: Transport, epoch: nat) {
    !t.Idle? && t.epoch == epoch
  }

  /** And found the agent running since. */
  predicate KnowsRunning(t: Transport, epoch: nat) {
    KnowsEpoch(t, epoch) && !t.Starting?
  }

  predicate Serves(t: Transport, epoch: nat, settings: Settings) {
    t.Session? && t.epoch == epoch && t.settings == settings
  }

  lemma MutationsTransport(s: State, a: Action)
    requires Enabled(s, a) && Mutates(a)
    ensures var t := Apply(s, a).transport;
            if s.transport.Session? then t.Session? && t == s.transport.(rules := t.rules) else t == s.transport
  {
    match a
    case CommitStep(diskOk) => assert CommitNext(s, diskOk).transport == s.transport;
    case _ =>
  }

  lemma TaskKeeps(s: State, a: Action)
    requires Enabled(s, a) && !a.ReadEpoch? && !a.CheckRunning? && !a.StartSession? && !a.EndSession?
    ensures var t := Apply(s, a).transport;
            && (t.Idle? <==> s.transport.Idle?) && (t.Starting? <==> s.transport.Starting?)
            && (t.Session? <==> s.transport.Session?)
            && (!s.transport.Idle? && !t.Idle? ==> t.epoch == s.transport.epoch)
            && (s.transport.Session? && t.Session? ==> t.settings == s.transport.settings)
  {
    if a.OfferStep? {
      assert OfferNext(s, a.id).transport == s.transport;
    } else if Mutates(a) {
      MutationsTransport(s, a);
    } else if a.AttemptStep? {
      assert AttemptNext(s).transport == s.transport.(upload := AttemptNext(s).transport.upload);
    }
  }

  lemma TaskMoves(s: State, a: Action, epoch: nat, settings: Settings)
    requires Enabled(s, a)
    ensures KnowsEpoch(Apply(s, a).transport, epoch) ==>
              KnowsEpoch(s.transport, epoch) || (a.ReadEpoch? && s.epoch == epoch)
    ensures KnowsRunning(Apply(s, a).transport, epoch) ==>
              KnowsRunning(s.transport, epoch) || (a.CheckRunning? && KnowsEpoch(s.transport, epoch) && s.stop.Running?)
    ensures Serves(Apply(s, a).transport, epoch, settings) ==>
              || Serves(s.transport, epoch, settings)
              || (&& a.StartSession? && KnowsRunning(s.transport, epoch)
                  && s.memory == settings && settings.preferences.enabled && settings.device.Some?)
  {
    if !a.ReadEpoch? && !a.CheckRunning? && !a.StartSession? && !a.EndSession? {
      TaskKeeps(s, a);
    }
  }

  lemma {:induction false} EpochWasRead(states: seq<State>, actions: seq<Action>, i: nat, epoch: nat) returns (b: nat)
    requires Run(states, actions) && i < |states| && KnowsEpoch(states[i].transport, epoch)
    ensures b < i && actions[b].ReadEpoch? && states[b].epoch == epoch
  {
    assert i > 0;
    b := i - 1;
    assert Follows(states, actions, b);
    TaskMoves(states[b], actions[b], epoch, states[b].memory);
    if KnowsEpoch(states[b].transport, epoch) {
      b := EpochWasRead(states, actions, i - 1, epoch);
    }
  }

  lemma {:induction false} StopWasChecked(states: seq<State>, actions: seq<Action>, i: nat, epoch: nat) returns (c: nat)
    requires Run(states, actions) && i < |states| && KnowsRunning(states[i].transport, epoch)
    ensures c < i && actions[c].CheckRunning? && states[c].stop.Running? && KnowsEpoch(states[c].transport, epoch)
  {
    assert i > 0;
    c := i - 1;
    assert Follows(states, actions, c);
    TaskMoves(states[c], actions[c], epoch, states[c].memory);
    if KnowsRunning(states[c].transport, epoch) {
      c := StopWasChecked(states, actions, i - 1, epoch);
    }
  }

  lemma {:induction false} SettingsWereRead(states: seq<State>, actions: seq<Action>, i: nat, epoch: nat, settings: Settings)
    returns (d: nat)
    requires Run(states, actions) && i < |states| && Serves(states[i].transport, epoch, settings)
    ensures d < i && actions[d].StartSession? && KnowsRunning(states[d].transport, epoch)
    ensures states[d].memory == settings && settings.preferences.enabled && settings.device.Some?
  {
    assert i > 0;
    d := i - 1;
    assert Follows(states, actions, d);
    TaskMoves(states[d], actions[d], epoch, settings);
    if Serves(states[d].transport, epoch, settings) {
      d := SettingsWereRead(states, actions, i - 1, epoch, settings);
    }
  }

  /** A session works for the epoch that was read first, was allowed only when there was no stop, and
      keeps the settings it read then, with sharing on and a device. */
  lemma SessionBegan(states: seq<State>, actions: seq<Action>, i: nat) returns (b: nat, c: nat, d: nat)
    requires Run(states, actions) && i < |states| && states[i].transport.Session?
    ensures b < c < d < i && actions[b].ReadEpoch? && actions[c].CheckRunning? && actions[d].StartSession?
    ensures var session := states[i].transport;
            && states[b].epoch == session.epoch && states[c].stop.Running? && states[d].memory == session.settings
            && session.settings.preferences.enabled && session.settings.device.Some?
  {
    var epoch := states[i].transport.epoch;
    d := SettingsWereRead(states, actions, i, epoch, states[i].transport.settings);
    c := StopWasChecked(states, actions, d, epoch);
    b := EpochWasRead(states, actions, c, epoch);
  }

  /** The consent an offer named, if it named one, is the one in force. */
  predicate TermsHold(o: Offer, memory: Settings) {
    o.expected.Some? ==>
      && memory.device == Some(o.expected.value.device) && memory.installation == o.expected.value.installation
      && memory.revision == o.expected.value.revision && memory.preferences.hubOrigin == o.expected.value.hubOrigin
  }

  /** Offer `id` has passed its last look at the capture source, which found `session`. */
  predicate SourceFound(s: State, id: nat, session: nat) {
    id in s.offers && (s.offers[id].pc.SessionRechecked? || s.offers[id].pc.ConsentRechecked?) && s.offers[id].session == session
  }

  /** While an offer holds the lock nobody writes settings. */
  lemma LockedOut(s: State, a: Action, id: nat)
    requires Inv(s) && Enabled(s, a) && id in s.offers && s.offers[id].HoldsLock()
    ensures Apply(s, a).memory == s.memory
  {
    if !Mutates(a) {
      OthersFootprint(s, a);
    }
  }

  lemma OtherOffers(s: State, a: Action)
    requires Enabled(s, a) && !Offers(a)
    ensures Apply(s, a).offers == s.offers
  {
    match a
    case CommitStep(diskOk) => assert CommitNext(s, diskOk).offers == s.offers;
    case AttemptStep => assert AttemptNext(s).offers == s.offers;
    case _ =>
  }

  lemma OfferAlone(s: State, a: Action, id: nat)
    requires Inv(s) && Enabled(s, a) && id in Apply(s, a).offers
    requires a != OfferStep(id) && !(a.CopyOutcome? && a.id == id) && !(a.BeginOffer? && a.id == id)
    ensures id in s.offers && Apply(s, a).offers[id] == s.offers[id]
  {
    if a.OfferStep? {
      OfferNextFootprint(s, a.id);
    } else if !Offers(a) {
      OtherOffers(s, a);
    }
  }

  lemma SourceFoundStep(s: State, a: Action, id: nat, session: nat)
    requires Inv(s) && Enabled(s, a) && SourceFound(Apply(s, a), id, session)
    ensures SourceFound(s, id, session) ||
            (a == OfferStep(id) && id in s.offers && s.offers[id].pc.StopRechecked? && s.source == Some(session))
  {
    if a == OfferStep(id) {
      OfferSourceStep(s, id, session);
    } else if (a.CopyOutcome? || a.BeginOffer?) && a.id == id {
    } else {
      OfferAlone(s, a, id);
    }
  }

  lemma NotYetFound(s: State, id: nat)
    requires OfferEnabled(s, id) && !s.offers[id].HoldsLock()
    ensures id in OfferNext(s, id).offers ==>
              var pc := OfferNext(s, id).offers[id].pc; !pc.SessionRechecked? && !pc.ConsentRechecked?
  {
  }

  lemma FoundUnderLock(s: State, id: nat)
    requires OfferEnabled(s, id) && s.offers[id].HoldsLock()
    ensures id in OfferNext(s, id).offers ==>
              var o, o' := s.offers[id], OfferNext(s, id).offers[id];
              && o'.session == o.session
              && (o'.pc.SessionRechecked? ==> o.pc.StopRechecked? && s.source == Some(o.session))
              && (o'.pc.ConsentRechecked? ==> o.pc.SessionRechecked?)
  {
  }

  lemma OfferSourceStep(s: State, id: nat, session: nat)
    requires OfferEnabled(s, id) && SourceFound(OfferNext(s, id), id, session)
    ensures SourceFound(s, id, session) ||
            (s.offers[id].pc.StopRechecked? && s.source == Some(session))
  {
    hide OfferNext;
    if s.offers[id].HoldsLock() {
      FoundUnderLock(s, id);
    } else {
      NotYetFound(s, id);
    }
  }

  lemma RunSourceStep(states: seq<State>, actions: seq<Action>, i: nat, id: nat, session: nat)
    requires Run(states, actions) && i < |actions| && SourceFound(states[i + 1], id, session)
    ensures SourceFound(states[i], id, session) || (actions[i] == OfferStep(id) && states[i].source == Some(session))
  {
    RunInvariant(states, actions, i);
    assert Follows(states, actions, i);
    SourceFoundStep(states[i], actions[i], id, session);
  }

  /** The last look of an offer at the capture source. */
  lemma {:induction false} SourceWasSeen(states: seq<State>, actions: seq<Action>, i: nat, id: nat, session: nat)
    returns (c: nat)
    requires Run(states, actions) && i < |states| && SourceFound(states[i], id, session)
    ensures c < i && actions[c] == OfferStep(id) && states[c].source == Some(session)
    ensures forall k | c < k <= i :: SourceFound(states[k], id, session)
  {
    assert i > 0;
    c := i - 1;
    RunSourceStep(states, actions, c, id, session);
    if SourceFound(states[c], id, session) {
      c := SourceWasSeen(states, actions, i - 1, id, session);
    }
  }

  predicate Rechecked(s: State, id: nat) {
    id in s.offers && s.offers[id].pc.ConsentRechecked?
  }

  lemma ConsentStep(s: State, a: Action, id: nat)
    requires Inv(s) && Enabled(s, a) && Rechecked(Apply(s, a), id)
    requires Rechecked(s, id) ==> TermsHold(s.offers[id], s.memory)
    ensures TermsHold(Apply(s, a).offers[id], Apply(s, a).memory)
  {
    if a == OfferStep(id) {
      OfferConsentStep(s, id);
    } else if (a.CopyOutcome? || a.BeginOffer?) && a.id == id {
    } else {
      OfferAlone(s, a, id);
      LockedOut(s, a, id);
    }
  }

  lemma OfferConsentStep(s: State, id: nat)
    requires OfferEnabled(s, id) && Rechecked(OfferNext(s, id), id)
    ensures TermsHold(OfferNext(s, id).offers[id], OfferNext(s, id).memory)
  {
  }

  lemma RunConsentStep(states: seq<State>, actions: seq<Action>, i: nat, id: nat)
    requires Run(states, actions) && i < |actions| && Rechecked(states[i + 1], id)
    requires Rechecked(states[i], id) ==> TermsHold(states[i].offers[id], states[i].memory)
    ensures TermsHold(states[i + 1].offers[id], states[i + 1].memory)
  {
    RunInvariant(states, actions, i);
    assert Follows(states, actions, i);
    ConsentStep(states[i], actions[i], id);
  }

  lemma {:induction false} TermsStillHold(states: seq<State>, actions: seq<Action>, i: nat, id: nat)
    requires Run(states, actions) && i < |states| && Rechecked(states[i], id)
    ensures TermsHold(states[i].offers[id], states[i].memory)
  {
    assert i > 0;
    if Rechecked(states[i - 1], id) {
      TermsStillHold(states, actions, i - 1, id);
    }
    RunConsentStep(states, actions, i - 1, id);
  }

  lemma SlotFilled(s: State, a: Action)
    requires Enabled(s, a) && s.slot.None? && Apply(s, a).slot.Some?
    ensures a.OfferStep? && a.id in s.offers && s.offers[a.id].pc.ConsentRechecked?
    ensures Apply(s, a).slot.value == Queued(s.nextId, s.offers[a.id].session, s.offers[a.id].epoch, s.clock)
  {
    if a.OfferStep? {
      OfferFills(s, a.id);
    }
  }

  lemma OfferFills(s: State, id: nat)
    requires OfferEnabled(s, id) && s.slot.None? && OfferNext(s, id).slot.Some?
    ensures s.offers[id].pc.ConsentRechecked?
    ensures OfferNext(s, id).slot.value == Queued(s.nextId, s.offers[id].session, s.offers[id].epoch, s.clock)
  {
  }

  /** A movie is admitted in the current epoch, under a new number, at the present time, with timelapse
      sharing on for a paired camera and the very consent its offer named in force; the capture
      session it is filed under was running when the offer last looked, under the lock it still holds. */
  lemma AdmittedOnItsTerms(states: seq<State>, actions: seq<Action>, i: nat) returns (id: nat, c: nat)
    requires Run(states, actions) && i < |actions| && states[i].slot.None? && states[i + 1].slot.Some?
    ensures actions[i] == OfferStep(id) && id in states[i].offers
    ensures var movie := states[i + 1].slot.value;
            && movie.epoch == states[i].epoch && movie.queuedAt == states[i].clock && movie.id == states[i].nextId
            && c < i && actions[c] == OfferStep(id) && states[c].source == Some(movie.session)
            && forall k | c < k <= i :: SourceFound(states[k], id, movie.session)
    ensures var s := states[i].memory;
            s.preferences.enabled && s.preferences.timelapses && s.device.Some? && TermsHold(states[i].offers[id], s)
  {
    assert Follows(states, actions, i);
    SlotFilled(states[i], actions[i]);
    id := actions[i].id;
    TermsStillHold(states, actions, i, id);
    c := SourceWasSeen(states, actions, i, id, states[i].offers[id].session);
    QueuedMovieHasConsent(states, actions, i + 1);
    StepMovesEpoch(states[i], actions[i]);
    RunInvariant(states, actions, i);
    LockedOut(states[i], actions[i], id);
  }
}
