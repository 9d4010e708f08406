/** The viewer's half of the revision protocol (apps/AutoPierCam.Viewer/SharingSetupState.cs). */
module SharingSetup {
  import opened SharingTypes

  datatype Status = Status(revision: nat, device: Option<int>, preferences: Preferences)

  function StatusOf(s: Settings): Status {
    Status(s.revision, s.device, s.preferences)
  }

  /** The state of one settings form, as a value. */
  datatype View = View(status: Status, draft: Preferences, expected: nat, baseline: Preferences)
  {
    predicate Dirty() {
      draft != baseline
    }

    predicate NeedsReview() {
      expected != status.revision
    }

    static function Loaded(status: Status): View {
      View(status, status.preferences, status.revision, status.preferences)
    }

    function Refreshed(latest: Status, preserveDraft: bool): View {
      if !preserveDraft && !Dirty() && !NeedsReview() then Loaded(latest) else this.(status := latest)
    }

    function EditsKept(): View {
      this.(baseline := status.preferences, expected := status.revision)
    }

    function AfterStop(before: Status, latest: Status, preserveDraft: bool): View {
      var keep := Dirty() || preserveDraft;
      View(latest,
           if keep then draft.SwitchedOff() else latest.preferences,
           if keep && before.revision != expected then expected else latest.revision,
           latest.preferences)
    }

    predicate MaySave() {
      !NeedsReview() && (draft.enabled ==> status.device.Some?)
    }
  }

  class SharingSetupState {
    var Status: Status
    var Draft: Preferences
    var ExpectedRevision: nat
    var baseline: Preferences

    ghost function Value(): View
      reads this
    {
      View(Status, Draft, ExpectedRevision, baseline)
    }

    constructor (status: Status)
      ensures Value() == View.Loaded(status)
    {
      Status, Draft, ExpectedRevision, baseline := status, status.preferences, status.revision, status.preferences;
    }

    method Refresh(latest: Status, preserveDraft: bool)
      modifies this
      ensures Value() == old(Value()).Refreshed(latest, preserveDraft)
    {
      if !preserveDraft && Draft == baseline && ExpectedRevision == Status.revision {
        Accept(latest);
      } else {
        Status := latest;
      }
    }

    method Accept(latest: Status)
      modifies this
      ensures Value() == View.Loaded(latest)
    {
      Status := latest;
      baseline := latest.preferences;
      Draft := baseline;
      ExpectedRevision := latest.revision;
    }

    method KeepEdits()
      modifies this
      ensures Value() == old(Value()).EditsKept()
    {
      baseline := Status.preferences;
      ExpectedRevision := Status.revision;
    }

    method Discard()
      modifies this
      ensures Value() == View.Loaded(old(Status))
    {
      Accept(Status);
    }

    method Stopped(before: Status, latest: Status, preserveDraft: bool)
      modifies this
      ensures Value() == old(Value()).AfterStop(before, latest, preserveDraft)
    {
      var keep := Draft != baseline || preserveDraft;
      var previousRevision := ExpectedRevision;
      var pending := if keep then Draft.SwitchedOff() else latest.preferences;
      Accept(latest);
      Draft := pending;
      // If someone else saved before the stop, the edits stay tied to the older revision.
      if keep && before.revision != previousRevision {
        ExpectedRevision := previousRevision;
      }
    }

    /** None stands for either of the two refusals. */
    method ForSave() returns (r: Option<Preferences>)
      ensures r == if Value().MaySave() then Some(Draft) else None
      ensures r == if ExpectedRevision == Status.revision && (Draft.enabled ==> Status.device.Some?) then Some(Draft) else None
    {
      if ExpectedRevision != Status.revision {
        return None;
      }
      if Draft.enabled && Status.device.None? {
        return None;
      }
      return Some(Draft);
    }
  }
}

/** Any number of viewers, chat rule changes and other local clients against one agent. */
module SharingFleet {
  import opened SharingTypes
  import opened SharingSetup
  import Agent = SharingProtocol
  import AgentSafety = SharingSafety

  /** What a viewer waits for; while it waits its form takes no edits and no polled refresh. */
  datatype Pending = Ready | Saving | Stopping(before: Status, preserveDraft: bool)

  datatype Viewer = Viewer(view: View, pending: Pending)

  /** `served` holds every status the agent ever produced, and any of them may arrive at any time. */
  datatype World = World(
    agent: Agent.State,
    viewers: map<nat, Viewer>,
    served: set<Status>,
    committer: Option<nat>)

  ghost predicate Init(w: World) {
    Agent.Init(w.agent) && w.viewers == map[] && w.served == {} && w.committer.None?
  }

  datatype Action =
    | AgentAlone(step: Agent.Action)
    | Serve
    | Open(viewer: nat, status: Status)
    | Edit(viewer: nat, draft: Preferences)
    | Refresh(viewer: nat, status: Status, preserveDraft: bool)
    | Reload(viewer: nat, status: Status)
    | KeepEdits(viewer: nat)
    | Discard(viewer: nat)
    | Save(viewer: nat, forPairing: bool)
    | Stop(viewer: nat, before: Status, preserveDraft: bool)
    | Reply
    | ReplyFailure

  predicate Idle(w: World, v: nat) {
    v in w.viewers && w.viewers[v].pending.Ready?
  }

  /** The preferences a save sends: pairing first saves the draft with sharing off. */
  function Sent(view: View, forPairing: bool): Preferences {
    if forPairing then view.draft.SwitchedOff() else view.draft
  }

  predicate Answers(w: World, step: Agent.Action) {
    && step.CommitStep?
    && w.agent.lock.ByCommit?
    && (w.agent.lock.phase.Republished? || (w.agent.lock.phase.Flushed? && !step.diskOk))
  }

  predicate Enabled(w: World, a: Action) {
    match a
    case AgentAlone(step) => Agent.Enabled(w.agent, step) && (w.committer.Some? ==> !Answers(w, step))
    case Serve => true
    case Open(v, status) => v !in w.viewers && status in w.served
    case Edit(v, _) => Idle(w, v)
    case Refresh(v, status, _) => Idle(w, v) && status in w.served
    case Reload(v, status) => Idle(w, v) && status in w.served
    case KeepEdits(v) => Idle(w, v)
    case Discard(v) => Idle(w, v)
    case Save(v, forPairing) =>
      && Idle(w, v)
      && (!forPairing ==> w.viewers[v].view.MaySave())
      && Agent.Enabled(w.agent, Agent.BeginSave(w.viewers[v].view.expected, Sent(w.viewers[v].view, forPairing)))
    case Stop(v, before, _) =>
      && Idle(w, v) && before in w.served
      && Agent.Enabled(w.agent, Agent.BeginSave(before.revision, before.preferences.SwitchedOff()))
    case Reply =>
      && w.committer.Some? && w.committer.value in w.viewers
      && w.agent.lock.ByCommit? && w.agent.lock.phase.Republished?
    case ReplyFailure =>
      && w.committer.Some? && w.committer.value in w.viewers
      && w.agent.lock.ByCommit? && w.agent.lock.phase.Flushed?
  }

  function With(w: World, v: nat, view: View): World {
    w.(viewers := w.viewers[v := Viewer(view, Ready)])
  }

  function Answered(viewer: Viewer, latest: Status): View {
    match viewer.pending
    case Stopping(before, preserveDraft) => viewer.view.AfterStop(before, latest, preserveDraft)
    case _ => View.Loaded(latest)
  }

  function Apply(w: World, a: Action): World
    requires Enabled(w, a)
  {
    match a
    case AgentAlone(step) => w.(agent := Agent.Apply(w.agent, step))
    case Serve => w.(served := w.served + {StatusOf(w.agent.memory)})
    case Open(v, status) => With(w, v, View.Loaded(status))
    case Edit(v, draft) => With(w, v, w.viewers[v].view.(draft := draft))
    case Refresh(v, status, preserve) => With(w, v, w.viewers[v].view.Refreshed(status, preserve))
    case Reload(v, status) => With(w, v, View.Loaded(status))
    case KeepEdits(v) => With(w, v, w.viewers[v].view.EditsKept())
    case Discard(v) => With(w, v, View.Loaded(w.viewers[v].view.status))
    case Save(v, forPairing) =>
      var view := w.viewers[v].view;
      w.(agent := Agent.Apply(w.agent, Agent.BeginSave(view.expected, Sent(view, forPairing))),
         viewers := w.viewers[v := Viewer(view, Saving)], committer := Some(v))
    case Stop(v, before, preserve) =>
      w.(agent := Agent.Apply(w.agent, Agent.BeginSave(before.revision, before.preferences.SwitchedOff())),
         viewers := w.viewers[v := Viewer(w.viewers[v].view, Stopping(before, preserve))], committer := Some(v))
    case Reply =>
      var v := w.committer.value;
      With(w, v, Answered(w.viewers[v], StatusOf(w.agent.memory)))
        .(agent := Agent.Apply(w.agent, Agent.CommitStep(true)), committer := None)
    case ReplyFailure =>
      var v := w.committer.value;
      With(w, v, w.viewers[v].view)
        .(agent := Agent.Apply(w.agent, Agent.CommitStep(false)), committer := None)
  }

  predicate Follows(worlds: seq<World>, actions: seq<Action>, i: nat)
    requires i < |actions| < |worlds|
  {
    Enabled(worlds[i], actions[i]) && worlds[i + 1] == Apply(worlds[i], actions[i])
  }

  ghost predicate Run(worlds: seq<World>, actions: seq<Action>) {
    && |worlds| == |actions| + 1
    && Init(worlds[0])
    && forall i :: 0 <= i < |actions| ==> Follows(worlds, actions, i)
  }

  /** A disk write fails in this step. */
  predicate DiskFails(w: World, a: Action) {
    || a.ReplyFailure?
    || (a.AgentAlone? && a.step.CommitStep? && !a.step.diskOk && w.agent.lock.ByCommit? && w.agent.lock.phase.Flushed?)
  }

  ghost predicate DiskWorks(worlds: seq<World>, actions: seq<Action>)
    requires |worlds| == |actions| + 1
  {
    forall i :: 0 <= i < |actions| ==> !DiskFails(worlds[i], actions[i])
  }

  // ---------------------------------------------------------------- the invariant

  /** Preferences known at a revision. Revisions only grow; at the current revision they are the
      agent's, except that with slack the agent may have been switched off meanwhile. */
  predicate Agrees(revision: nat, p: Preferences, memory: Settings, slack: bool) {
    && revision <= memory.revision
    && (revision == memory.revision ==>
          p == memory.preferences || (slack && p.SwitchedOff() == memory.preferences))
  }

  /** A commit has switched sharing off and not yet written the new settings. */
  predicate Switching(lock: Agent.Lock) {
    lock.ByCommit? && AgentSafety.BeforeWrite(lock.phase) && !lock.phase.Begun?
  }

  ghost predicate ViewersAgree(viewers: map<nat, Viewer>, memory: Settings, slack: bool) {
    forall v :: v in viewers ==>
      && Agrees(viewers[v].view.expected, viewers[v].view.baseline, memory, slack)
      && Agrees(viewers[v].view.status.revision, viewers[v].view.status.preferences, memory, slack)
  }

  ghost predicate ServedAgree(served: set<Status>, memory: Settings, slack: bool) {
    forall st :: st in served ==> Agrees(st.revision, st.preferences, memory, slack)
  }

  /** The viewer whose commit holds the lock; a stop carries the status it was based on. */
  predicate CommitterSound(w: World) {
    && (w.committer.Some? ==>
          && w.agent.lock.ByCommit? && w.agent.lock.kind.Save?
          && w.committer.value in w.viewers
          && var viewer := w.viewers[w.committer.value];
             (viewer.pending.Stopping? ==>
                && w.agent.lock.next.revision == viewer.pending.before.revision + 1
                && w.agent.lock.next.preferences == viewer.pending.before.preferences.SwitchedOff()
                && viewer.view.expected <= viewer.pending.before.revision
                && (viewer.view.expected == viewer.pending.before.revision ==>
                      viewer.view.baseline.SwitchedOff() == viewer.pending.before.preferences.SwitchedOff())))
  }

  ghost predicate Inv(w: World, reliable: bool) {
    && AgentSafety.Inv(w.agent)
    && ViewersAgree(w.viewers, w.agent.memory, !reliable || Switching(w.agent.lock))
    && ServedAgree(w.served, w.agent.memory, !reliable || Switching(w.agent.lock))
    && CommitterSound(w)
  }

  lemma CommitMemory(s: Agent.State, diskOk: bool)
    requires s.lock.ByCommit?
    requires AgentSafety.BeforeWrite(s.lock.phase) ==> s.lock.next.revision == s.memory.revision + 1
    ensures MemoryMoves(s.memory, s.lock, Agent.CommitNext(s, diskOk), Agent.CommitStep(diskOk))
  {
  }

  lemma OfferMemory(s: Agent.State, id: nat)
    requires AgentSafety.LocksHeld(s.offers, s.lock, s.copyOwner) && id in s.offers
    ensures Agent.Finish(s, id).memory == s.memory
    ensures s.lock.ByCommit? ==> Agent.Finish(s, id).lock == s.lock
    ensures Agent.OfferEnabled(s, id) ==> Agent.OfferNext(s, id).memory == s.memory
    ensures Agent.OfferEnabled(s, id) && s.lock.ByCommit? ==> Agent.OfferNext(s, id).lock == s.lock
  {
  }

  predicate MemoryMoves(memory: Settings, lock: Agent.Lock, t: Agent.State, a: Agent.Action) {
    || t.memory.revision == memory.revision + 1
    || (t.memory == memory
        && (Switching(lock) ==> Switching(t.lock) || (lock.phase.Flushed? && a == Agent.CommitStep(false))))
    || (t.memory == memory.SwitchedOff() && Switching(t.lock))
  }

  lemma OtherMemory(s: Agent.State, a: Agent.Action)
    requires Agent.Enabled(s, a) && !a.OfferStep? && !a.CopyOutcome? && !a.DropOffer? && !a.CommitStep?
    requires s.lock.ByConfigure? ==> s.lock.chosen.revision == s.memory.revision + 1
    ensures MemoryMoves(s.memory, s.lock, Agent.Apply(s, a), a)
  {
  }

  lemma LockFacts(s: Agent.State)
    requires AgentSafety.Inv(s)
    ensures AgentSafety.LocksHeld(s.offers, s.lock, s.copyOwner)
    ensures s.lock.ByCommit? && AgentSafety.BeforeWrite(s.lock.phase) ==> s.lock.next.revision == s.memory.revision + 1
    ensures s.lock.ByCommit? && !AgentSafety.BeforeWrite(s.lock.phase) ==> s.memory == s.lock.next
    ensures s.lock.ByConfigure? ==> s.lock.chosen.revision == s.memory.revision + 1
  {
  }

  /** In-memory settings change in three ways only: a commit switches them off, or a commit or a
      chat rule change replaces them under the next revision. */
  lemma MemoryStep(s: Agent.State, a: Agent.Action)
    requires AgentSafety.Inv(s) && Agent.Enabled(s, a)
    ensures MemoryMoves(s.memory, s.lock, Agent.Apply(s, a), a)
  {
    LockFacts(s);
    if a.OfferStep? {
      OfferMemory(s, a.id);
    } else if a.CopyOutcome? || a.DropOffer? {
      OfferMemory(s, a.id);
    } else if a.CommitStep? {
      CommitMemory(s, a.diskOk);
    } else {
      OtherMemory(s, a);
    }
  }

  // ---------------------------------------------------------------- preservation

  lemma AgreesMoves(memory: Settings, lock: Agent.Lock, t: Agent.State, a: Agent.Action, slack: bool, slack': bool)
    requires MemoryMoves(memory, lock, t, a)
    requires Switching(lock) ==> slack
    requires Switching(t.lock) ==> slack'
    requires slack ==> slack' || (Switching(lock) && !(lock.phase.Flushed? && a == Agent.CommitStep(false)))
    ensures forall r, p {:trigger Agrees(r, p, t.memory, slack')} ::
              Agrees(r, p, memory, slack) ==> Agrees(r, p, t.memory, slack')
  {
  }

  lemma LockStays(s: Agent.State, a: Agent.Action)
    requires AgentSafety.LocksHeld(s.offers, s.lock, s.copyOwner)
    requires Agent.Enabled(s, a) && s.lock.ByCommit?
    requires !(a.CommitStep? && (s.lock.phase.Republished? || (s.lock.phase.Flushed? && !a.diskOk)))
    ensures var t := Agent.Apply(s, a); t.lock.ByCommit? && t.lock.kind == s.lock.kind && t.lock.next == s.lock.next
  {
    if a.OfferStep? {
      OfferMemory(s, a.id);
    } else if a.CopyOutcome? || a.DropOffer? {
      OfferMemory(s, a.id);
    }
  }

  /** What viewers know stays right when the agent takes a step. */
  lemma AgentMoves(w: World, step: Agent.Action, reliable: bool)
    requires Inv(w, reliable) && Agent.Enabled(w.agent, step)
    requires reliable ==>
               !(step.CommitStep? && !step.diskOk && w.agent.lock.ByCommit? && w.agent.lock.phase.Flushed?)
    ensures var t := Agent.Apply(w.agent, step);
            && AgentSafety.Inv(t)
            && ViewersAgree(w.viewers, t.memory, !reliable || Switching(t.lock))
            && ServedAgree(w.served, t.memory, !reliable || Switching(t.lock))
  {
    AgentSafety.StepPreserves(w.agent, step);
    MemoryStep(w.agent, step);
    AgreesMoves(w.agent.memory, w.agent.lock, Agent.Apply(w.agent, step), step,
                !reliable || Switching(w.agent.lock), !reliable || Switching(Agent.Apply(w.agent, step).lock));
  }

  lemma AgentAlonePreserves(w: World, step: Agent.Action, reliable: bool)
    requires Inv(w, reliable) && Enabled(w, AgentAlone(step))
    requires reliable ==> !DiskFails(w, AgentAlone(step))
    ensures Inv(Apply(w, AgentAlone(step)), reliable)
  {
    AgentMoves(w, step, reliable);
    if w.committer.Some? {
      LockFacts(w.agent);
      LockStays(w.agent, step);
    }
  }

  lemma LoadPreserves(w: World, a: Action, reliable: bool)
    requires Inv(w, reliable) && Enabled(w, a) && (a.Serve? || a.Open? || a.Reload? || a.Discard?)
    ensures Inv(Apply(w, a), reliable)
  {
  }

  lemma RefreshPreserves(w: World, a: Action, reliable: bool)
    requires Inv(w, reliable) && Enabled(w, a) && a.Refresh?
    ensures Inv(Apply(w, a), reliable)
  {
  }

  lemma EditPreserves(w: World, a: Action, reliable: bool)
    requires Inv(w, reliable) && Enabled(w, a) && (a.Edit? || a.KeepEdits?)
    ensures Inv(Apply(w, a), reliable)
  {
  }

  lemma SaveBegins(s: Agent.State, revision: nat, p: Preferences)
    requires Agent.Enabled(s, Agent.BeginSave(revision, p))
    ensures var t := Agent.Apply(s, Agent.BeginSave(revision, p));
            && t.memory == s.memory && s.lock.Free? && s.memory.revision == revision
            && t.lock.ByCommit? && t.lock.kind.Save? && t.lock.phase.Begun?
            && t.lock.next.revision == revision + 1 && t.lock.next.preferences == p
  {
  }

  lemma SavePreserves(w: World, v: nat, forPairing: bool, reliable: bool)
    requires Inv(w, reliable) && Enabled(w, Save(v, forPairing))
    ensures Inv(Apply(w, Save(v, forPairing)), reliable)
  {
    var view := w.viewers[v].view;
    AgentSafety.StepPreserves(w.agent, Agent.BeginSave(view.expected, Sent(view, forPairing)));
    SaveBegins(w.agent, view.expected, Sent(view, forPairing));
  }

  lemma StopBasis(revision: nat, baseline: Preferences, before: Status, memory: Settings, slack: bool)
    requires Agrees(revision, baseline, memory, slack)
    requires Agrees(before.revision, before.preferences, memory, slack) && before.revision == memory.revision
    ensures revision <= before.revision
    ensures revision == before.revision ==> baseline.SwitchedOff() == before.preferences.SwitchedOff()
  {
  }

  lemma StopPreserves(w: World, v: nat, before: Status, preserve: bool, reliable: bool)
    requires Inv(w, reliable) && Enabled(w, Stop(v, before, preserve))
    ensures Inv(Apply(w, Stop(v, before, preserve)), reliable)
  {
    var off := before.preferences.SwitchedOff();
    var step := Agent.BeginSave(before.revision, off);
    var slack := !reliable || Switching(w.agent.lock);
    AgentSafety.StepPreserves(w.agent, step);
    SaveBegins(w.agent, before.revision, off);
    var view := w.viewers[v].view;
    StopBasis(view.expected, view.baseline, before, w.agent.memory, slack);
    var u := Apply(w, Stop(v, before, preserve));
    assert u == World(Agent.Apply(w.agent, step), w.viewers[v := Viewer(view, Stopping(before, preserve))], w.served, Some(v));
    assert CommitterSound(u);
  }

  lemma ReplyPreserves(w: World, reliable: bool)
    requires Inv(w, reliable) && Enabled(w, Reply)
    requires reliable ==> !DiskFails(w, Reply)
    ensures Inv(Apply(w, Reply), reliable)
  {
    AgentMoves(w, Agent.CommitStep(true), reliable);
    LockFacts(w.agent);
  }

  lemma FailurePreserves(w: World, reliable: bool)
    requires Inv(w, reliable) && Enabled(w, ReplyFailure)
    requires reliable ==> !DiskFails(w, ReplyFailure)
    ensures Inv(Apply(w, ReplyFailure), reliable)
  {
    AgentMoves(w, Agent.CommitStep(false), reliable);
    LockFacts(w.agent);
  }

  lemma StepPreserves(w: World, a: Action, reliable: bool)
    requires Inv(w, reliable) && Enabled(w, a)
    requires reliable ==> !DiskFails(w, a)
    ensures Inv(Apply(w, a), reliable)
  {
    match a
    case AgentAlone(step) => AgentAlonePreserves(w, step, reliable);
    case Save(v, forPairing) => SavePreserves(w, v, forPairing, reliable);
    case Stop(v, before, preserve) => StopPreserves(w, v, before, preserve, reliable);
    case Reply => ReplyPreserves(w, reliable);
    case ReplyFailure => FailurePreserves(w, reliable);
    case Refresh(_, _, _) => RefreshPreserves(w, a, reliable);
    case Edit(_, _) => EditPreserves(w, a, reliable);
    case KeepEdits(_) => EditPreserves(w, a, reliable);
    case _ => LoadPreserves(w, a, reliable);
  }

  lemma {:induction false} RunInvariant(worlds: seq<World>, actions: seq<Action>, reliable: bool, i: nat)
    requires Run(worlds, actions) && i < |worlds|
    requires reliable ==> DiskWorks(worlds, actions)
    ensures Inv(worlds[i], reliable)
  {
    if i > 0 {
      RunInvariant(worlds, actions, reliable, i - 1);
      assert Follows(worlds, actions, i - 1);
      StepPreserves(worlds[i - 1], actions[i - 1], reliable);
    }
  }

  // ---------------------------------------------------------------- no silent overwriting

  /** While disk writes succeed, every save the agent accepts from a viewer replaces exactly the
      preferences that viewer last loaded, accepted or chose to keep its edits over. */
  lemma SaveReplacesBaseline(worlds: seq<World>, actions: seq<Action>, i: nat)
    requires Run(worlds, actions) && DiskWorks(worlds, actions)
    requires i < |actions| && actions[i].Save?
    ensures actions[i].viewer in worlds[i].viewers
    ensures var view := worlds[i].viewers[actions[i].viewer].view;
            worlds[i].agent.memory.preferences == view.baseline && worlds[i].agent.memory.revision == view.expected
  {
    RunInvariant(worlds, actions, true, i);
    assert Follows(worlds, actions, i);
  }

  /** A stop replaces exactly the preferences it read, changing only the master switch. */
  lemma StopOnlySwitchesOff(worlds: seq<World>, actions: seq<Action>, i: nat)
    requires Run(worlds, actions) && DiskWorks(worlds, actions)
    requires i < |actions| && actions[i].Stop?
    ensures worlds[i + 1].agent.lock.ByCommit?
    ensures worlds[i + 1].agent.lock.next.preferences == worlds[i].agent.memory.preferences.SwitchedOff()
  {
    RunInvariant(worlds, actions, true, i);
    assert Follows(worlds, actions, i);
  }

  /** After a stop with unsaved edits, the form may save without review only if nobody but the
      stop itself touched the settings: its new baseline is its old one with sharing off. */
  lemma StopNeverApprovesOthers(worlds: seq<World>, actions: seq<Action>, i: nat)
    requires Run(worlds, actions)
    requires i < |actions| && actions[i].Reply?
    requires worlds[i].committer.Some? && worlds[i].committer.value in worlds[i].viewers
    requires var viewer := worlds[i].viewers[worlds[i].committer.value];
             viewer.pending.Stopping? && (viewer.view.Dirty() || viewer.pending.preserveDraft)
    ensures worlds[i].committer.value in worlds[i + 1].viewers
    ensures var before := worlds[i].viewers[worlds[i].committer.value];
            var after := worlds[i + 1].viewers[worlds[i].committer.value].view;
            && after.draft == before.view.draft.SwitchedOff()
            && (after.NeedsReview() <==> before.pending.before.revision != before.view.expected)
            && (!after.NeedsReview() ==> after.baseline == before.view.baseline.SwitchedOff())
  {
    RunInvariant(worlds, actions, false, i);
    LockFacts(worlds[i].agent);
    assert Follows(worlds, actions, i);
  }

  /** After the answer to a stop no form is ready to switch sharing on again: its draft is off. A form
      with edits keeps them otherwise; one without shows exactly what is in force, unedited and in no
      need of review. */
  lemma StopLeavesNoDraftOn(worlds: seq<World>, actions: seq<Action>, i: nat)
    requires Run(worlds, actions) && i < |actions| && actions[i].Reply?
    requires worlds[i].committer.Some? && worlds[i].committer.value in worlds[i].viewers
    requires worlds[i].viewers[worlds[i].committer.value].pending.Stopping?
    ensures worlds[i].committer.value in worlds[i + 1].viewers
    ensures var viewer := worlds[i].viewers[worlds[i].committer.value];
            var before, after := viewer.view, worlds[i + 1].viewers[worlds[i].committer.value].view;
            var memory := worlds[i + 1].agent.memory;
            && !after.draft.enabled && !memory.preferences.enabled
            && after.baseline == memory.preferences && after.status == Status(memory.revision, memory.device, memory.preferences)
            && (if before.draft != before.baseline || viewer.pending.preserveDraft
                then after.draft == before.draft.(enabled := false)
                else after.draft == after.baseline && after.expected == memory.revision == after.status.revision)
  {
    RunInvariant(worlds, actions, false, i);
    LockFacts(worlds[i].agent);
    assert Follows(worlds, actions, i);
  }

  /** The answer to a save, and a reload, show exactly what is in force or was served, ready for new
      edits; a refused or failed one leaves the form as it was. */
  lemma AnswersShowTheAgent(worlds: seq<World>, actions: seq<Action>, i: nat)
    requires Run(worlds, actions) && i < |actions| && (actions[i].Reply? || actions[i].ReplyFailure?)
    requires worlds[i].committer.Some? && worlds[i].committer.value in worlds[i].viewers
    requires worlds[i].viewers[worlds[i].committer.value].pending.Saving? || actions[i].ReplyFailure?
    ensures worlds[i].committer.value in worlds[i + 1].viewers
    ensures var before, after := worlds[i].viewers[worlds[i].committer.value], worlds[i + 1].viewers[worlds[i].committer.value];
            var memory := worlds[i + 1].agent.memory;
            && after.pending.Ready?
            && (if actions[i].ReplyFailure? then after.view == before.view
                else && after.view.draft == after.view.baseline == after.view.status.preferences == memory.preferences
                     && after.view.expected == after.view.status.revision == memory.revision
                     && after.view.status.device == memory.device)
  {
    assert Follows(worlds, actions, i);
  }

  /** A polled status never touches edits: unless the form is unedited, in no need of review and not
      told to keep its draft, it changes nothing but the status shown; otherwise the form is that of
      the new status. */
  lemma RefreshKeepsEdits(worlds: seq<World>, actions: seq<Action>, i: nat)
    requires Run(worlds, actions) && i < |actions| && actions[i].Refresh?
    ensures actions[i].viewer in worlds[i].viewers && actions[i].viewer in worlds[i + 1].viewers
    ensures var before, after := worlds[i].viewers[actions[i].viewer].view, worlds[i + 1].viewers[actions[i].viewer].view;
            var latest := actions[i].status;
            && after.status == latest && latest in worlds[i].served
            && (if before.draft == before.baseline && before.expected == before.status.revision && !actions[i].preserveDraft
                then after.draft == after.baseline == latest.preferences && after.expected == latest.revision
                else after.draft == before.draft && after.baseline == before.baseline && after.expected == before.expected)
  {
    assert Follows(worlds, actions, i);
  }

  /** What the operator does to a form without the agent: keeping the edits takes over what the status
      shows as their basis and leaves them alone, discarding them shows the status again, an edit
      changes the draft only, and opening or reloading a form shows the status that arrived. */
  lemma FormChoices(worlds: seq<World>, actions: seq<Action>, i: nat)
    requires Run(worlds, actions) && i < |actions|
    requires actions[i].KeepEdits? || actions[i].Discard? || actions[i].Edit? || actions[i].Open? || actions[i].Reload?
    ensures actions[i].viewer in worlds[i + 1].viewers && (!actions[i].Open? ==> actions[i].viewer in worlds[i].viewers)
    ensures var after := worlds[i + 1].viewers[actions[i].viewer].view;
            if actions[i].Open? || actions[i].Reload? then
              && after.status == actions[i].status && after.draft == after.baseline == actions[i].status.preferences
              && after.expected == actions[i].status.revision
            else
              var before := worlds[i].viewers[actions[i].viewer].view;
              && after.status == before.status
              && after.draft == (match actions[i]
                                 case Edit(_, draft) => draft
                                 case Discard(_) => before.status.preferences
                                 case _ => before.draft)
              && after.baseline == (if actions[i].Edit? then before.baseline else before.status.preferences)
              && after.expected == (if actions[i].Edit? then before.expected else before.status.revision)
    ensures worlds[i + 1].agent == worlds[i].agent
  {
    assert Follows(worlds, actions, i);
  }

  /** What is sent is the viewer's draft, only when the revision it last loaded is the one shown, and,
      if it switches sharing on, only for a paired camera; before pairing it is sent switched off. */
  lemma SaveSendsDraft(worlds: seq<World>, actions: seq<Action>, i: nat)
    requires Run(worlds, actions) && i < |actions| && actions[i].Save?
    ensures actions[i].viewer in worlds[i].viewers
    ensures var view := worlds[i].viewers[actions[i].viewer].view;
            && worlds[i + 1].agent.lock.ByCommit?
            && worlds[i + 1].agent.lock.next.preferences ==
               view.draft.(enabled := view.draft.enabled && !actions[i].forPairing)
            && (!actions[i].forPairing ==>
                  view.expected == view.status.revision && (view.draft.enabled ==> view.status.device.Some?))
  {
    assert Follows(worlds, actions, i);
  }

  /** With failing disk writes an accepted save may also replace a switched-off copy of the
      baseline: it replaces the baseline itself exactly when the master switches agree. */
  lemma SaveAfterFailedWrites(worlds: seq<World>, actions: seq<Action>, i: nat)
    requires Run(worlds, actions) && i < |actions| && actions[i].Save?
    ensures actions[i].viewer in worlds[i].viewers
    ensures var memory := worlds[i].agent.memory.preferences;
            var baseline := worlds[i].viewers[actions[i].viewer].view.baseline;
            && (memory == baseline || memory == baseline.SwitchedOff())
            && (memory == baseline <==> memory.enabled == baseline.enabled)
  {
    RunInvariant(worlds, actions, false, i);
    assert Follows(worlds, actions, i);
  }

  /** One viewer has loaded the settings of `w0`, and another client's stop has failed to reach the disk. */
  lemma StopFailsUnseen(w0: World) returns (worlds: seq<World>, actions: seq<Action>)
    requires Init(w0) && w0.agent.memory.preferences.enabled
    ensures Run(worlds, actions) && worlds[0] == w0 && |actions| == 7
    ensures var m := w0.agent.memory;
            && worlds[7].viewers == map[0 := Viewer(View.Loaded(StatusOf(m)), Ready)]
            && worlds[7].agent.lock.Free? && worlds[7].agent.memory == m.SwitchedOff()
            && worlds[7].committer.None?
  {
    var m := w0.agent.memory;
    var agents, steps := AgentSafety.FailedStop(w0.agent);
    var w1 := w0.(served := {StatusOf(m)});
    var w2 := w1.(viewers := map[0 := Viewer(View.Loaded(StatusOf(m)), Ready)]);
    worlds := [w0, w1, w2] + seq(5, i requires 0 <= i < 5 => w2.(agent := agents[i + 1]));
    actions := [Serve, Open(0, StatusOf(m))] + seq(5, i requires 0 <= i < 5 => AgentAlone(steps[i]));
    forall i | 0 <= i < |actions| ensures Follows(worlds, actions, i) {
      if 2 <= i {
        assert worlds[i] == w2.(agent := agents[i - 2]);
        assert Agent.Follows(agents, steps, i - 2);
      }
    }
  }

  /** Such a run exists from every enabled, paired start: another client's stop fails to reach the
      disk, and the viewer's save silently replaces the switched-off settings. */
  lemma FailedWriteHidesStop(w0: World) returns (worlds: seq<World>, actions: seq<Action>)
    requires Init(w0) && w0.agent.memory.preferences.enabled && w0.agent.memory.device.Some?
    ensures Run(worlds, actions) && worlds[0] == w0 && |actions| > 0
    ensures actions[|actions| - 1] == Save(0, false)
    ensures 0 in worlds[|actions| - 1].viewers
    ensures worlds[|actions| - 1].agent.memory.preferences != worlds[|actions| - 1].viewers[0].view.baseline
  {
    var before, steps := StopFailsUnseen(w0);
    assert Enabled(before[7], Save(0, false));
    worlds, actions := before + [Apply(before[7], Save(0, false))], steps + [Save(0, false)];
    forall i | 0 <= i < |actions| ensures Follows(worlds, actions, i) {
      assert i < 7 ==> Follows(before, steps, i);
    }
  }
}
