/** What becomes of an image once it is in an outbox: which checks each send has passed, when it is
    sent again, and when it is never sent (crates/autopiercam-chatstronomy/src/transport.rs). */
module OutboxDelivery {

  import opened SharingTypes
  import opened Snapshot
  import opened Outbox

  // ---------------------------------------------------------------- the checks behind every send

  predicate PastFresh(s: State) {
    s.place.InSession? && (s.place.work.FreshSeen? || s.place.work.FenceSeen? || s.place.work.Cleared?)
  }

  /** What a session would send. */
  function Held(s: State): (Option<Outbound>, Option<Outbound>, bool)
    requires s.place.InSession?
  {
    (s.place.snapshot, s.outbox, s.place.uploading)
  }

  /** The image to be sent was captured in the session just looked up, at most five minutes before the
      wall clock and at most half a minute after it, and no movie is being uploaded. */
  predicate FoundFresh(s: State, a: Action) {
    && s.place.InSession? && s.place.work.EpochSeen? && a.Serves? && a.x.CheckStep? && Next(s).Some?
    && !s.place.uploading && s.place.work.current == Some(Next(s).value.session)
    && a.x.wall - 300000 <= Next(s).value.capturedAt <= a.x.wall + 30000
  }

  lemma CheckKeepsHeld(s: State, wall: nat)
    requires s.place.InSession? && Checks(s.place.work) && PastFresh(CheckNext(s, wall))
    ensures Held(CheckNext(s, wall)) == Held(s)
    ensures PastFresh(s) || FoundFresh(s, Serves(CheckStep(wall)))
  {
  }

  lemma FreshStep(s: State, a: Action)
    requires Enabled(s, a) && PastFresh(Apply(s, a))
    ensures s.place.InSession? && Held(Apply(s, a)) == Held(s)
    ensures PastFresh(s) || FoundFresh(s, a)
  {
    match a
    case Wait(_) =>
    case Commits(c) => CommitSource(s, c);
    case Loops(_) =>
    case Serves(x) =>
      OnlyCheckStepsCheck(s, x);
      CheckKeepsHeld(s, x.wall);
  }

  /** The step that found the image fresh which is now on its way. */
  lemma {:induction false} WasFoundFresh(states: seq<State>, actions: seq<Action>, i: nat) returns (c: nat)
    requires Run(states, actions) && i < |states| && PastFresh(states[i])
    ensures c < i && FoundFresh(states[c], actions[c]) && Held(states[c]) == Held(states[i])
  {
    assert i > 0;
    c := i - 1;
    assert Follows(states, actions, c);
    FreshStep(states[c], actions[c]);
    if PastFresh(states[c]) {
      c := WasFoundFresh(states, actions, i - 1);
    }
  }

  /** The checks that carry the capture session looked up first. */
  predicate Looking(s: State, current: Option<nat>) {
    s.place.InSession? && s.place.work in {Looked(current), Running(current), EpochSeen(current)}
  }

  lemma SessionLooking(s: State, x: SessionAction, current: Option<nat>)
    requires s.place.InSession? && SessionEnabled(s, x) && !x.CheckStep? && Looking(SessionNext(s, x), current)
    ensures x == LookAtSource(current)
  {
  }

  lemma CheckLooking(s: State, wall: nat, current: Option<nat>)
    requires s.place.InSession? && Checks(s.place.work) && Looking(CheckNext(s, wall), current)
    ensures Looking(s, current)
  {
  }

  lemma LookingStep(s: State, a: Action, current: Option<nat>)
    requires Enabled(s, a) && Looking(Apply(s, a), current)
    ensures Looking(s, current) || a == Serves(LookAtSource(current))
  {
    match a
    case Wait(_) =>
    case Commits(c) => CommitSource(s, c);
    case Loops(_) =>
    case Serves(x) =>
      if x.CheckStep? {
        CheckLooking(s, x.wall, current);
      } else {
        SessionLooking(s, x, current);
      }
  }

  lemma {:induction false} WasLookedUp(states: seq<State>, actions: seq<Action>, i: nat, current: Option<nat>) returns (c: nat)
    requires Run(states, actions) && i < |states| && Looking(states[i], current)
    ensures c < i && actions[c] == Serves(LookAtSource(current))
  {
    assert i > 0;
    c := i - 1;
    assert Follows(states, actions, c);
    LookingStep(states[c], actions[c], current);
    if Looking(states[c], current) {
      c := WasLookedUp(states, actions, i - 1, current);
    }
  }

  /** Whatever is sent was found fresh on the way, with nothing else in its place since: captured in the
      session that a look at the camera had just found running, at most 300 seconds before the wall
      clock and at most 30 after it, while no movie was being uploaded; a snapshot goes first, and
      nothing is sent before its retry time. */
  lemma SentImagesFresh(states: seq<State>, actions: seq<Action>, i: nat) returns (look: nat, check: nat)
    requires Run(states, actions) && i < |actions| && actions[i] == Serves(StartSend)
    ensures states[i].place.InSession? && !states[i].place.uploading
    ensures states[i].place.snapshot.Some? || states[i].outbox.Some?
    ensures var item := if states[i].place.snapshot.Some? then states[i].place.snapshot.value else states[i].outbox.value;
            && look < check < i && actions[look] == Serves(LookAtSource(Some(item.session)))
            && actions[check].Serves? && actions[check].x.CheckStep?
            && actions[check].x.wall - 300000 <= item.capturedAt <= actions[check].x.wall + 30000
            && states[check].place.InSession? && Held(states[check]) == Held(states[i])
  {
    assert Follows(states, actions, i);
    check := WasFoundFresh(states, actions, i);
    look := WasLookedUp(states, actions, check, states[check].place.work.current);
  }

  /** What each check decides. */
  lemma ChecksDecide(s: State, wall: nat)
    requires s.place.InSession? && Checks(s.place.work)
    ensures var t := CheckNext(s, wall);
            var item := if s.place.snapshot.Some? then s.place.snapshot else s.outbox;
            match s.place.work
            case Looked(_) => t.place.Backoff? <==> s.stopped
            case Running(_) => t.place.Backoff? <==> s.epoch != s.seen
            case EpochSeen(current) =>
              var recent := item.Some? && current == Some(item.value.session)
                           && wall - 300000 <= item.value.capturedAt <= wall + 30000;
              && t.place.InSession?
              && (t.place.work.FreshSeen? <==> !s.place.uploading && recent)
              // A stale image is dropped, unless a movie is being uploaded.
              && (t.place.snapshot == if !s.place.uploading && s.place.snapshot.Some? && !recent then None else s.place.snapshot)
              && (t.outbox == if !s.place.uploading && s.place.snapshot.None? && !recent then None else s.outbox)
            case FreshSeen(current) =>
              && t.place.InSession? && t.outbox == s.outbox && t.place.snapshot == s.place.snapshot
              && (t.place.work.FenceSeen? <==>
                    && item.Some?
                    && (s.place.request.Some? ==>
                          Admitted(s, View(current, wall), item.value.session, item.value.capturedAt)))
            case FenceSeen =>
              && t.place.InSession? && t.outbox == s.outbox && t.place.snapshot == s.place.snapshot
              && (t.place.work.Cleared? <==> item.Some? && s.now >= item.value.retryAt)
  {
  }

  // ---------------------------------------------------------------- images that are never sent again

  /** Image `id` has been made and is in neither outbox. */
  predicate Gone(s: State, id: nat) {
    id < |s.created| && !Names(s.outbox, id) && (s.place.InSession? ==> !Names(s.place.snapshot, id))
  }

  /** The record grows by at most one send, of another image. */
  predicate SendsOther(s: State, t: State, id: nat) {
    t.log == s.log || (|t.log| == |s.log| + 1 && s.log <= t.log && t.log[|s.log|].id != id)
  }

  lemma LoopKeepsGone(s: State, l: LoopAction, id: nat)
    requires LoopEnabled(s, l) && Gone(s, id)
    ensures Gone(LoopNext(s, l), id) && LoopNext(s, l).log == s.log
  {
  }

  lemma CheckKeepsGone(s: State, wall: nat, id: nat)
    requires s.place.InSession? && Checks(s.place.work) && Gone(s, id)
    ensures Gone(CheckNext(s, wall), id) && CheckNext(s, wall).log == s.log
  {
  }

  lemma SessionKeepsGone(s: State, x: SessionAction, id: nat)
    requires s.place.InSession? && SessionEnabled(s, x) && Gone(s, id) && !x.CheckStep?
    ensures Gone(SessionNext(s, x), id) && SendsOther(s, SessionNext(s, x), id)
  {
  }

  lemma StepKeepsGone(s: State, a: Action, id: nat)
    requires Enabled(s, a) && Gone(s, id)
    ensures Gone(Apply(s, a), id) && SendsOther(s, Apply(s, a), id)
  {
    match a
    case Wait(_) =>
    case Commits(c) => CommitSource(s, c);
    case Loops(l) => LoopKeepsGone(s, l, id);
    case Serves(x) =>
      if x.CheckStep? {
        CheckKeepsGone(s, x.wall, id);
      } else {
        SessionKeepsGone(s, x, id);
      }
  }

  lemma RunKeepsGone(states: seq<State>, actions: seq<Action>, i: nat, id: nat)
    requires Run(states, actions) && i < |actions| && Gone(states[i], id)
    ensures Gone(states[i + 1], id) && SendsOther(states[i], states[i + 1], id)
  {
    assert Follows(states, actions, i);
    StepKeepsGone(states[i], actions[i], id);
  }

  lemma {:induction false} GoneForever(states: seq<State>, actions: seq<Action>, i: nat, j: nat, id: nat)
    requires Run(states, actions) && i <= j < |states| && Gone(states[i], id)
    ensures Gone(states[j], id) && |states[i].log| <= |states[j].log|
    ensures forall k :: |states[i].log| <= k < |states[j].log| ==> states[j].log[k].id != id
  {
    if i < j {
      GoneForever(states, actions, i, j - 1, id);
      RunKeepsGone(states, actions, j - 1, id);
    }
  }

  /** An image the Hub has answered for good, delivered or not, is never sent again. */
  lemma AnsweredNeverSentAgain(states: seq<State>, actions: seq<Action>, i: nat, j: nat, id: nat, k: nat)
    requires Run(states, actions) && i < j < |states| && i < |actions|
    requires actions[i] == Serves(Acknowledged(id, Delivered)) || actions[i] == Serves(Acknowledged(id, Declined))
    requires states[i].place.InSession? && (Names(states[i].outbox, id) || Names(states[i].place.snapshot, id))
    requires |states[i].log| <= k < |states[j].log|
    ensures states[j].log[k].id != id
  {
    RunInvariant(states, actions, i);
    assert Follows(states, actions, i);
    assert Gone(states[i + 1], id) && states[i + 1].log == states[i].log;
    GoneForever(states, actions, i + 1, j, id);
  }

  /** A step after which no image may survive: an accepted rule change, sharing found switched off, a
      cancelled session, one the Hub ended for good, a change of consent during the back-off. */
  predicate Forgets(s: State, a: Action) {
    || a == Serves(Configured) || a == Loops(Choose(Disabled)) || a == Loops(SessionCancelled)
    || a == Loops(SessionEnds(true)) || (a == Loops(ConsentChanged) && s.place.Backoff?)
  }

  lemma ForgetsAll(s: State, a: Action, id: nat)
    requires Enabled(s, a) && Forgets(s, a) && id < |s.created|
    ensures Gone(Apply(s, a), id) && Apply(s, a).log == s.log && Apply(s, a).created == s.created
  {
  }

  /** What is sent after such a step was made after it. */
  lemma NothingOldSentAfterwards(states: seq<State>, actions: seq<Action>, i: nat, j: nat, k: nat)
    requires Run(states, actions) && i < |actions| && i < j < |states| && Forgets(states[i], actions[i])
    requires |states[i].log| <= k < |states[j].log|
    ensures states[j].log[k].id >= |states[i].created|
  {
    assert Follows(states, actions, i);
    var id := states[j].log[k].id;
    if id < |states[i].created| {
      ForgetsAll(states[i], actions[i], id);
      GoneForever(states, actions, i + 1, j, id);
    }
  }

  /** No snapshot in an outbox or on its way is image `id`. */
  predicate NoSnapshot(s: State, id: nat) {
    id < |s.created| && (s.place.InSession? ==> !Names(s.place.snapshot, id))
  }

  predicate SendsNoSnapshot(s: State, t: State, id: nat) {
    t.log == s.log || (|t.log| == |s.log| + 1 && s.log <= t.log && (t.log[|s.log|].automatic || t.log[|s.log|].id != id))
  }

  lemma SessionKeepsNoSnapshot(s: State, x: SessionAction, id: nat)
    requires Exclusive(s.place, s.outbox) && s.place.InSession? && SessionEnabled(s, x) && NoSnapshot(s, id)
    requires !x.CheckStep?
    ensures NoSnapshot(SessionNext(s, x), id) && SendsNoSnapshot(s, SessionNext(s, x), id)
  {
  }

  lemma CheckKeepsNoSnapshot(s: State, wall: nat, id: nat)
    requires s.place.InSession? && Checks(s.place.work) && NoSnapshot(s, id)
    ensures NoSnapshot(CheckNext(s, wall), id) && CheckNext(s, wall).log == s.log
  {
  }

  lemma StepKeepsNoSnapshot(s: State, a: Action, id: nat)
    requires Inv(s) && Enabled(s, a) && NoSnapshot(s, id)
    ensures NoSnapshot(Apply(s, a), id) && SendsNoSnapshot(s, Apply(s, a), id)
  {
    match a
    case Wait(_) =>
    case Commits(c) => CommitSource(s, c);
    case Loops(l) =>
    case Serves(x) =>
      if x.CheckStep? {
        CheckKeepsNoSnapshot(s, x.wall, id);
      } else {
        SessionKeepsNoSnapshot(s, x, id);
      }
  }

  lemma RunKeepsNoSnapshot(states: seq<State>, actions: seq<Action>, i: nat, id: nat)
    requires Run(states, actions) && i < |actions| && NoSnapshot(states[i], id)
    ensures NoSnapshot(states[i + 1], id) && SendsNoSnapshot(states[i], states[i + 1], id)
  {
    RunInvariant(states, actions, i);
    assert Follows(states, actions, i);
    StepKeepsNoSnapshot(states[i], actions[i], id);
  }

  lemma {:induction false} NoSnapshotEver(states: seq<State>, actions: seq<Action>, i: nat, j: nat, id: nat)
    requires Run(states, actions) && i <= j < |states| && NoSnapshot(states[i], id)
    ensures NoSnapshot(states[j], id) && |states[i].log| <= |states[j].log|
    ensures forall k :: |states[i].log| <= k < |states[j].log| ==> states[j].log[k].automatic || states[j].log[k].id != id
  {
    if i < j {
      NoSnapshotEver(states, actions, i, j - 1, id);
      RunKeepsNoSnapshot(states, actions, j - 1, id);
    }
  }

  /** A snapshot lives only inside its own connection: one made before the loop was last outside a
      session is never sent. */
  lemma SnapshotsEndWithConnection(states: seq<State>, actions: seq<Action>, i: nat, j: nat, k: nat)
    requires Run(states, actions) && i <= j < |states| && !states[i].place.InSession?
    requires |states[i].log| <= k < |states[j].log| && !states[j].log[k].automatic
    ensures states[j].log[k].id >= |states[i].created|
  {
    if states[j].log[k].id < |states[i].created| {
      NoSnapshotEver(states, actions, i, j, states[j].log[k].id);
    }
  }

  // ---------------------------------------------------------------- pauses

  predicate Sending(s: State) {
    s.place.InSession? && (s.place.work.Cleared? || s.place.work.SendingEvent? || s.place.work.SendingSnapshot?)
  }

  /** Up to `until`, image `id` waits wherever it is held, and is not on its way. */
  predicate Waits(s: State, id: nat, until: nat) {
    s.now < until ==>
      && (Names(s.outbox, id) ==> s.outbox.value.retryAt >= until)
      && (s.place.InSession? && Names(s.place.snapshot, id) ==> s.place.snapshot.value.retryAt >= until)
      && (Sending(s) ==> !Names(Next(s), id))
  }

  lemma LoopKeepsWaiting(s: State, l: LoopAction, id: nat, until: nat)
    requires LoopEnabled(s, l) && Waits(s, id, until)
    ensures Waits(LoopNext(s, l), id, until)
  {
  }

  lemma CheckKeepsWaiting(s: State, wall: nat, id: nat, until: nat)
    requires s.place.InSession? && Checks(s.place.work) && Waits(s, id, until)
    ensures Waits(CheckNext(s, wall), id, until)
  {
  }

  lemma SessionKeepsWaiting(s: State, x: SessionAction, id: nat, until: nat)
    requires s.place.InSession? && SessionEnabled(s, x) && Waits(s, id, until) && id < |s.created|
    requires !x.CheckStep? && !(x.Acknowledged? && x.id == id)
    ensures Waits(SessionNext(s, x), id, until) && id < |SessionNext(s, x).created|
  {
  }

  lemma StepKeepsWaiting(s: State, a: Action, id: nat, until: nat)
    requires Enabled(s, a) && Waits(s, id, until) && id < |s.created|
    requires !(a.Serves? && a.x.Acknowledged? && a.x.id == id)
    ensures Waits(Apply(s, a), id, until) && id < |Apply(s, a).created|
  {
    match a
    case Wait(_) =>
    case Commits(c) => CommitSource(s, c);
    case Loops(l) => LoopKeepsWaiting(s, l, id, until);
    case Serves(x) =>
      if x.CheckStep? {
        CheckKeepsWaiting(s, x.wall, id, until);
      } else {
        SessionKeepsWaiting(s, x, id, until);
      }
  }

  lemma {:induction false} WaitsOn(states: seq<State>, actions: seq<Action>, i: nat, j: nat, id: nat, until: nat)
    requires Run(states, actions) && i <= j < |states| && Waits(states[i], id, until) && id < |states[i].created|
    requires forall k | i <= k < j :: !(actions[k].Serves? && actions[k].x.Acknowledged? && actions[k].x.id == id)
    ensures Waits(states[j], id, until) && id < |states[j].created|
  {
    if i < j {
      WaitsOn(states, actions, i, j - 1, id, until);
      assert Follows(states, actions, j - 1);
      assert !(actions[j - 1].Serves? && actions[j - 1].x.Acknowledged? && actions[j - 1].x.id == id);
      StepKeepsWaiting(states[j - 1], actions[j - 1], id, until);
    }
  }

  /** The pause a retry asks for, in milliseconds: what the Hub says, but at least a minute and at most
      an hour. */
  predicate Pause(seconds: nat, ms: nat) {
    if seconds <= 60 then ms == 60000 else if seconds >= 3600 then ms == 3600000 else ms == seconds * 1000
  }

  /** After the Hub asks for an image again, that image does not start on its way before the pause is
      over, across sessions and however often it is looked at, unless the Hub answers for it again. */
  lemma RetryWaits(states: seq<State>, actions: seq<Action>, i: nat, j: nat, id: nat, seconds: nat, ms: nat)
    requires Run(states, actions) && i < j < |actions| && actions[i] == Serves(Acknowledged(id, Retry(seconds)))
    requires states[i].place.InSession? && (Names(states[i].outbox, id) || Names(states[i].place.snapshot, id))
    requires forall k | i < k < j :: !(actions[k].Serves? && actions[k].x.Acknowledged? && actions[k].x.id == id)
    requires actions[j] == Serves(StartSend) && states[j].place.InSession? && Names(Next(states[j]), id)
    requires Pause(seconds, ms)
    ensures states[j].now >= states[i].now + ms
  {
    RunInvariant(states, actions, i);
    assert Follows(states, actions, i);
    RetryBegins(states[i], id, seconds, ms);
    WaitsOn(states, actions, i + 1, j, id, states[i].now + ms);
    assert Follows(states, actions, j);
  }

  lemma RetryBegins(s: State, id: nat, seconds: nat, ms: nat)
    requires Inv(s) && Quiet(s) && (Names(s.outbox, id) || Names(s.place.snapshot, id)) && Pause(seconds, ms)
    ensures var t := SessionNext(s, Acknowledged(id, Retry(seconds)));
            Waits(t, id, s.now + ms) && id < |t.created|
  {
  }

  /** All sends of an image so far ended a minute or more before `t`. */
  ghost predicate PausedBefore(log: seq<Sent>, id: nat, t: int) {
    forall k :: 0 <= k < |log| && log[k].id == id ==> log[k].at + 60000 <= t
  }

  ghost predicate ResendsPaced(log: seq<Sent>) {
    forall k, l :: 0 <= k < l < |log| && log[k].id == log[l].id ==> log[k].at + 60000 <= log[l].startedAt
  }

  ghost predicate EndedBy(log: seq<Sent>, now: nat) {
    forall k :: 0 <= k < |log| ==> log[k].at <= now
  }

  ghost predicate ItemPaced(log: seq<Sent>, item: Option<Outbound>) {
    item.Some? ==> PausedBefore(log, item.value.id, item.value.retryAt)
  }

  ghost predicate Paced(s: State) {
    && ResendsPaced(s.log) && EndedBy(s.log, s.now)
    && (forall k :: 0 <= k < |s.log| ==> s.log[k].id < |s.created|)
    && ItemPaced(s.log, s.outbox)
    && (s.place.InSession? ==> ItemPaced(s.log, s.place.snapshot))
    && (Sending(s) && Next(s).Some? ==>
          if s.place.work.Cleared? then Next(s).value.retryAt <= s.now
          else PausedBefore(s.log, Next(s).value.id, s.startedAt))
  }

  /** What is held after a step without a send: what was held, possibly put off by a minute or more, or
      a new image. */
  predicate HeldFrom(s: State, before: Option<Outbound>, after: Option<Outbound>) {
    || after.None? || after == before || after.value.id >= |s.created|
    || (before.Some? && after.value.id == before.value.id && after.value.retryAt >= s.now + 60000)
  }

  /** What is on its way after such a step was on its way before, starts now, or may start. */
  predicate OnItsWayFrom(s: State, t: State) {
    Sending(t) && Next(t).Some? ==>
      if t.place.work.Cleared?
      then Next(t).value.retryAt <= t.now || (Sending(s) && s.place.work.Cleared? && Next(s) == Next(t))
      else Sending(s) && Next(s) == Next(t) && t.startedAt == if s.place.work.Cleared? then s.now else s.startedAt
  }

  predicate NoSend(s: State, t: State) {
    && t.log == s.log && |t.created| >= |s.created| && t.now >= s.now
    && HeldFrom(s, s.outbox, t.outbox)
    && (t.place.InSession? ==> HeldFrom(s, if s.place.InSession? then s.place.snapshot else None, t.place.snapshot))
    && OnItsWayFrom(s, t)
  }

  lemma HeldKeepsPace(s: State, before: Option<Outbound>, after: Option<Outbound>)
    requires EndedBy(s.log, s.now) && forall k :: 0 <= k < |s.log| ==> s.log[k].id < |s.created|
    requires ItemPaced(s.log, before) && HeldFrom(s, before, after)
    ensures ItemPaced(s.log, after)
  {
  }

  lemma NoSendKeepsPace(s: State, t: State)
    requires Paced(s) && NoSend(s, t)
    ensures Paced(t)
  {
    HeldKeepsPace(s, s.outbox, t.outbox);
    if t.place.InSession? {
      HeldKeepsPace(s, if s.place.InSession? then s.place.snapshot else None, t.place.snapshot);
    }
  }

  lemma LoopSendsNothing(s: State, l: LoopAction)
    requires LoopEnabled(s, l)
    ensures NoSend(s, LoopNext(s, l))
  {
  }

  lemma CheckSendsNothing(s: State, wall: nat)
    requires s.place.InSession? && Checks(s.place.work)
    ensures NoSend(s, CheckNext(s, wall))
  {
  }

  lemma AcknowledgedSendsNothing(s: State, id: nat, ack: Ack)
    requires Quiet(s)
    ensures NoSend(s, SessionNext(s, Acknowledged(id, ack)))
  {
  }

  lemma OthersSendNothing(s: State, x: SessionAction)
    requires s.place.InSession? && SessionEnabled(s, x) && !x.CheckStep? && !x.Acknowledged? && !x.EndSend?
    ensures NoSend(s, SessionNext(s, x))
  {
  }

  lemma CommitSendsNothing(s: State, c: CommitAction)
    requires CommitEnabled(s, c)
    ensures NoSend(s, CommitNext(s, c))
  {
  }

  lemma StepSendsNothing(s: State, a: Action)
    requires Enabled(s, a) && a != Serves(EndSend)
    ensures NoSend(s, Apply(s, a))
  {
    match a
    case Wait(_) =>
    case Commits(c) => CommitSendsNothing(s, c);
    case Loops(l) => LoopSendsNothing(s, l);
    case Serves(x) =>
      match x
      case CheckStep(wall) => CheckSendsNothing(s, wall);
      case Acknowledged(id, ack) => AcknowledgedSendsNothing(s, id, ack);
      case _ => OthersSendNothing(s, x);
  }

  lemma SendKeepsPace(s: State)
    requires Inv(s) && s.place.InSession? && SessionEnabled(s, EndSend) && Paced(s)
    ensures Paced(SessionNext(s, EndSend))
  {
    var t := SessionNext(s, EndSend);
    assert |t.log| == |s.log| + 1 && forall k :: 0 <= k < |s.log| ==> t.log[k] == s.log[k];
  }

  lemma StepKeepsPace(s: State, a: Action)
    requires Inv(s) && Enabled(s, a) && Paced(s)
    ensures Paced(Apply(s, a))
  {
    if a == Serves(EndSend) {
      SendKeepsPace(s);
    } else {
      StepSendsNothing(s, a);
      NoSendKeepsPace(s, Apply(s, a));
    }
  }

  lemma RunKeepsPace(states: seq<State>, actions: seq<Action>, i: nat)
    requires Run(states, actions) && i < |actions| && Paced(states[i])
    ensures Paced(states[i + 1])
  {
    RunInvariant(states, actions, i);
    assert Follows(states, actions, i);
    StepKeepsPace(states[i], actions[i]);
  }

  lemma {:induction false} RunPaced(states: seq<State>, actions: seq<Action>, i: nat)
    requires Run(states, actions) && i < |states|
    ensures Paced(states[i])
  {
    if i > 0 {
      RunPaced(states, actions, i - 1);
      RunKeepsPace(states, actions, i - 1);
    }
  }

  /** Between two sends of one image, automatic or not, lies at least a minute. */
  lemma ResendsSpaced(states: seq<State>, actions: seq<Action>, n: nat, k: nat, l: nat)
    requires Run(states, actions) && n < |states| && k < l < |states[n].log|
    requires states[n].log[k].id == states[n].log[l].id
    ensures states[n].log[k].at + 60000 <= states[n].log[l].startedAt
  {
    RunPaced(states, actions, n);
  }

  // ---------------------------------------------------------------- what waits, and how long

  /** The session has just seen the camera, as `source`, and finds the automatic image too old, too
      early or of another capture session; while a movie is uploaded it looks only for old ones at the tick. */
  predicate FindsStale(s: State, a: Action) {
    && s.place.InSession? && s.outbox.Some? && a.Serves?
    && (a.x.DropStale? || (a.x.CheckStep? && s.place.work.EpochSeen? && !s.place.uploading && s.place.snapshot.None?))
    && var source := if a.x.DropStale? then a.x.v.session else s.place.work.current;
       var wall := if a.x.DropStale? then a.x.v.wall else a.x.wall;
       var item := s.outbox.value;
       source.None? || source.value != item.session || item.capturedAt + 300000 < wall || item.capturedAt > wall + 30000
  }

  predicate AnswersFor(a: Action, id: nat) {
    a.Serves? && a.x.Acknowledged? && a.x.id == id && !a.x.ack.Retry?
  }

  predicate SameImage(item: Outbound, item': Outbound) {
    item' == item.(retryAt := item'.retryAt)
  }

  predicate Waiting(before: Option<Outbound>, after: Option<Outbound>, dropped: bool) {
    before.Some? ==> if dropped then after.None? else after.Some? && SameImage(before.value, after.value)
  }

  lemma LoopWaits(s: State, l: LoopAction)
    requires LoopEnabled(s, l)
    ensures Waiting(s.outbox, LoopNext(s, l).outbox, Forgets(s, Loops(l)))
  {
  }

  lemma CheckWaits(s: State, wall: nat)
    requires s.place.InSession? && Checks(s.place.work)
    ensures Waiting(s.outbox, CheckNext(s, wall).outbox, FindsStale(s, Serves(CheckStep(wall))))
  {
  }

  lemma SessionWaits(s: State, x: SessionAction)
    requires s.place.InSession? && SessionEnabled(s, x) && Exclusive(s.place, s.outbox)
    ensures var a := Serves(x);
            s.outbox.Some? ==>
              Waiting(s.outbox, SessionNext(s, x).outbox, Forgets(s, a) || FindsStale(s, a) || AnswersFor(a, s.outbox.value.id))
  {
    if x.CheckStep? {
      CheckWaits(s, x.wall);
    }
  }

  /** An automatic image waits, unchanged but for its retry time, until the Hub answers for it, it is
      found stale, or everything is dropped; exactly then it goes. */
  lemma ImageWaitsUntil(states: seq<State>, actions: seq<Action>, i: nat)
    requires Run(states, actions) && i < |actions| && states[i].outbox.Some?
    ensures var item, a := states[i].outbox.value, actions[i];
            && (states[i + 1].outbox.None? <==>
                  Forgets(states[i], a) || FindsStale(states[i], a) || (states[i].place.InSession? && AnswersFor(a, item.id)))
            && (states[i + 1].outbox.Some? ==>
                  var item' := states[i + 1].outbox.value;
                  item'.id == item.id && item'.bytes == item.bytes && item'.session == item.session
                  && item'.capturedAt == item.capturedAt)
  {
    RunInvariant(states, actions, i);
    assert Follows(states, actions, i);
    match actions[i]
    case Wait(_) =>
    case Commits(c) => CommitSource(states[i], c);
    case Loops(l) => LoopWaits(states[i], l);
    case Serves(x) => SessionWaits(states[i], x);
  }

  /** The session is left: cancelled, ended by the Hub, or by a check that finds a stop or another epoch. */
  predicate LeavesSession(s: State, a: Action) {
    || a.Loops?
    || (&& s.place.InSession? && a.Serves? && a.x.CheckStep?
        && ((s.place.work.Looked? && s.stopped) || (s.place.work.Running? && s.epoch != s.seen)))
  }

  /** The open request is done with: the rules change, its image is answered for or cannot be encoded,
      or a frame is found that it does not admit, or none. */
  predicate ClosesRequest(s: State, a: Action)
    requires s.place.InSession?
  {
    && a.Serves?
    && (|| a.x.Configured? || a.x.SnapshotInvalid? || a == Serves(SnapshotEncoded(None))
        || (s.place.snapshot.Some? && AnswersFor(a, s.place.snapshot.value.id)))
  }

  lemma CheckKeepsRequest(s: State, wall: nat)
    requires s.place.InSession? && Checks(s.place.work)
    ensures var t := CheckNext(s, wall).place;
            if LeavesSession(s, Serves(CheckStep(wall))) then t.Backoff? else t.InSession? && t.request == s.place.request
  {
  }

  lemma SessionKeepsRequest(s: State, x: SessionAction)
    requires s.place.InSession? && SessionEnabled(s, x) && Exclusive(s.place, s.outbox) && s.place.request.Some?
    ensures var t, a := SessionNext(s, x).place, Serves(x);
            if LeavesSession(s, a) then !t.InSession?
            else t.InSession? && t.request == if ClosesRequest(s, a) then None else s.place.request
  {
    if x.CheckStep? {
      CheckKeepsRequest(s, x.wall);
    }
  }

  /** An open request stays as it is until the session is left or the request is done with; exactly then
      it goes, and a frame that closes it is one it does not admit. */
  lemma RequestStaysUntil(states: seq<State>, actions: seq<Action>, i: nat)
    requires Run(states, actions) && i < |actions| && states[i].place.InSession? && states[i].place.request.Some?
    ensures var s, t, a := states[i].place, states[i + 1].place, actions[i];
            && (t.InSession? <==> !LeavesSession(states[i], a))
            && (t.InSession? ==> t.request == if ClosesRequest(states[i], a) then None else s.request)
            && (t.InSession? && t.request.None? ==> t.snapshot.None?)
    ensures actions[i].Serves? && actions[i].x.SnapshotInvalid? ==>
              var v := actions[i].x.v;
              v.session.Some? ==> !Admitted(states[i], v, v.session.value, actions[i].x.capturedAt)
  {
    RunInvariant(states, actions, i);
    RunInvariant(states, actions, i + 1);
    assert Follows(states, actions, i);
    match actions[i]
    case Wait(_) =>
    case Commits(c) => CommitSource(states[i], c);
    case Loops(_) =>
    case Serves(x) => SessionKeepsRequest(states[i], x);
  }

  // ---------------------------------------------------------------- snapshots

  /** A request is taken exactly when none is open, no automatic image waits, no movie is being uploaded
      and it can be served at all; otherwise nothing changes. */
  lemma RequestTaken(s: State, r: Request, allowed: bool, v: View)
    requires Quiet(s)
    ensures var t := SessionNext(s, SnapshotAsked(r, allowed, v));
            if && s.place.request.None? && s.outbox.None? && !s.place.uploading
               && allowed && v.session.Some? && v.session.value > 0
               && r.expiresAtSeconds * 1000 > v.wall && r.maxJpegBytes > 0 && r.maxFrameAgeSeconds > 0
            then t.place.request.Some? && t == s.(place := s.place.(request := t.place.request, asked := s.now))
            else t == s
  {
    RequestTakenExactly(r, LocalState(allowed, s.epoch, v.session), v.wall, s.now);
  }

  /** The agent in a session that has met one request, with the given work done. */
  function Serving(snapshot: Option<Outbound>, work: Work, created: seq<Created>): State {
    var fence := Fence(LocalState(true, 0, Some(1)), 60000, 60000, 60000, 1000);
    State(0, 0, true, 0, NoCommit, false, 0, 0, InSession(Some(fence), 0, snapshot, false, work), None, 0, 0, created, [])
  }

  lemma RequestMet(bytes: seq<int>) returns (states: seq<State>, actions: seq<Action>)
    ensures Run(states, actions)
    ensures states[|actions|] == Serving(Some(Outbound(0, bytes, 1, 1, 0)), Resting, [Created(bytes, 1, 0, 0, false)])
  {
    states, actions := [State(0, 0, true, 0, NoCommit, false, 0, 0, AtTop, None, 0, 0, [], [])], [];
    states, actions := Continue(states, actions, Loops(ReadEpoch));
    states, actions := Continue(states, actions, Loops(CheckStopped));
    states, actions := Continue(states, actions, Loops(Choose(Connects)));
    states, actions := Continue(states, actions, Serves(SnapshotAsked(Request(60, 1000, 60), true, View(Some(1), 0))));
    states, actions := Continue(states, actions, Serves(SnapshotChecked(1, View(Some(1), 0))));
    states, actions := Continue(states, actions, Serves(SnapshotEncoded(Some(bytes))));
  }

  lemma SnapshotChecks(bytes: seq<int>) returns (states: seq<State>, actions: seq<Action>)
    ensures Run(states, actions)
    ensures states[|actions|] == Serving(Some(Outbound(0, bytes, 1, 1, 0)), FreshSeen(Some(1)), [Created(bytes, 1, 0, 0, false)])
  {
    states, actions := RequestMet(bytes);
    states, actions := Continue(states, actions, Serves(LookAtSource(Some(1))));
    states, actions := Continue(states, actions, Serves(CheckStep(0)));
    states, actions := Continue(states, actions, Serves(CheckStep(0)));
    states, actions := Continue(states, actions, Serves(CheckStep(0)));
  }

  /** A request can be answered: for any image there is a history in which it is encoded for a request
      and sent. */
  lemma SnapshotSent(bytes: seq<int>) returns (states: seq<State>, actions: seq<Action>)
    ensures Run(states, actions)
    ensures var last := states[|actions|];
            |last.log| == 1 && last.log[0].bytes == bytes && !last.log[0].automatic && last.log[0].session == 1
  {
    states, actions := SnapshotChecks(bytes);
    states, actions := Continue(states, actions, Serves(CheckStep(0)));
    states, actions := Continue(states, actions, Serves(CheckStep(0)));
    states, actions := Continue(states, actions, Serves(StartSend));
    states, actions := Continue(states, actions, Serves(EndSend));
  }
}
