/** The agent's side of one preview connection (crates/autopiercam/src/preview.rs 30-157 and
    crates/autopiercam-tray/src/preview.rs 208-236) as interleaved atomic steps: camera sessions
    begin and end on the worker's thread, each session's encoder publishes frames, and the
    connection polls the hub. Counters do not wrap. */
module PreviewHub {

  import opened SharingTypes
  import opened PreviewFraming
  import opened ImageBuffers

  datatype State = State(
    nextSession: nat,
    nextSequence: nat,
    // The number drawn by a session that is beginning but not yet installed.
    beginning: Option<nat>,
    // Zero while no session is current.
    current: nat,
    change: nat,
    frame: Option<Frame>,
    // History: the frame published last, kept when the hub clears it.
    published: Option<Metadata>,
    // The sequence number each session's encoder has drawn for the frame it is publishing.
    drawn: map<nat, nat>,
    // The connection: the last change it has seen, what it has sent, and whether it has ended.
    observed: nat,
    sent: seq<Frame>,
    ended: bool)

  datatype Action =
    | DrawSession
    | InstallSession
    | EndSession(session: nat)
    | DrawSequence(session: nat)
    | Publish(session: nat, details: seq<byte>, jpeg: seq<byte>)
    | GiveUp(session: nat)
    | Poll

  predicate Begun(s: State, session: nat) {
    1 <= session <= s.nextSession && s.beginning != Some(session)
  }

  predicate Enabled(s: State, a: Action) {
    match a
    case DrawSession => s.beginning.None?
    case InstallSession => s.beginning.Some?
    case EndSession(session) => Begun(s, session)
    case DrawSequence(session) => Begun(s, session) && session !in s.drawn
    case Publish(session, _, _) => session in s.drawn
    case GiveUp(session) => session in s.drawn
    case Poll => !s.ended
  }

  function Polled(codec: Codec, s: State): State {
    if s.change == s.observed then s
    else
      match s.frame
      case Some(frame) =>
        if Writable(codec, frame) then s.(observed := s.change, sent := s.sent + [frame])
        else s.(observed := s.change, ended := true)
      case None => s.(observed := s.change, ended := s.sent != [])
  }

  function Apply(codec: Codec, s: State, a: Action): State
    requires Enabled(s, a)
  {
    match a
    case DrawSession => s.(nextSession := s.nextSession + 1, beginning := Some(s.nextSession + 1))
    case InstallSession =>
      s.(beginning := None, current := s.beginning.value, change := s.change + 1, frame := None)
    case EndSession(session) =>
      if s.current == session then s.(current := 0, change := s.change + 1, frame := None) else s
    case DrawSequence(session) =>
      s.(nextSequence := s.nextSequence + 1, drawn := s.drawn[session := s.nextSequence + 1])
    case Publish(session, details, jpeg) =>
      var frame := Frame(Metadata(session, s.drawn[session], details), jpeg);
      var rest := s.(drawn := s.drawn - {session});
      if s.current == session then rest.(change := s.change + 1, frame := Some(frame), published := Some(frame.metadata))
      else rest
    case GiveUp(session) => s.(drawn := s.drawn - {session})
    case Poll => Polled(codec, s)
  }

  predicate Init(s: State) {
    s == State(0, 0, None, 0, 0, None, None, map[], 0, [], false)
  }

  predicate Follows(codec: Codec, states: seq<State>, actions: seq<Action>, i: nat)
    requires i < |actions| < |states|
  {
    Enabled(states[i], actions[i]) && states[i + 1] == Apply(codec, states[i], actions[i])
  }

  ghost predicate Run(codec: Codec, states: seq<State>, actions: seq<Action>) {
    && |states| == |actions| + 1
    && Init(states[0])
    && forall i :: 0 <= i < |actions| ==> Follows(codec, states, actions, i)
  }

  // ---------------------------------------------------------------- the invariant

  predicate Numbered(s: State) {
    && s.current <= s.nextSession
    && (s.beginning.Some? ==> s.beginning.value == s.nextSession && s.current < s.nextSession)
    && forall session <- s.drawn :: Begun(s, session) && s.drawn[session] <= s.nextSequence
  }

  /** The frame published last is numbered below everything still to come. */
  predicate LatestBehind(s: State) {
    s.published.Some? ==>
      && s.published.value.sequence <= s.nextSequence
      && s.published.value.session <= s.nextSession
      && (s.beginning.Some? ==> s.published.value.session < s.nextSession)
      && (s.current != 0 ==> s.published.value.session <= s.current)
      && (s.current in s.drawn ==> s.published.value.sequence < s.drawn[s.current])
  }

  predicate FrameIsLatest(s: State) {
    s.frame.Some? ==> s.published == Some(s.frame.value.metadata)
  }

  function Last(frames: seq<Frame>): Metadata
    requires frames != []
  {
    frames[|frames| - 1].metadata
  }

  predicate SentBehind(s: State) {
    && s.observed <= s.change
    && (s.sent != [] ==>
          && s.published.Some?
          && Last(s.sent).sequence <= s.published.value.sequence
          && Last(s.sent).session <= s.published.value.session
          && (s.frame.Some? && s.observed != s.change ==> Last(s.sent).sequence < s.frame.value.metadata.sequence))
  }

  ghost predicate Inv(codec: Codec, s: State) {
    && Numbered(s) && LatestBehind(s) && FrameIsLatest(s) && SentBehind(s)
    && AllWritable(codec, s.sent) && Ordered(s.sent)
  }

  lemma OrderedExtends(frames: seq<Frame>, next: Frame)
    requires Ordered(frames)
    requires frames != [] ==> Last(frames).sequence < next.metadata.sequence && Last(frames).session <= next.metadata.session
    ensures Ordered(frames + [next])
  {
  }

  lemma PollPreserves(codec: Codec, s: State)
    requires Inv(codec, s) && !s.ended
    ensures Inv(codec, Polled(codec, s))
  {
    if s.change != s.observed && s.frame.Some? && Writable(codec, s.frame.value) {
      OrderedExtends(s.sent, s.frame.value);
    }
  }

  lemma PublishPreserves(codec: Codec, s: State, session: nat, details: seq<byte>, jpeg: seq<byte>)
    requires Inv(codec, s) && Enabled(s, Publish(session, details, jpeg))
    ensures Inv(codec, Apply(codec, s, Publish(session, details, jpeg)))
  {
  }

  lemma StepPreserves(codec: Codec, s: State, a: Action)
    requires Inv(codec, s) && Enabled(s, a)
    ensures Inv(codec, Apply(codec, s, a))
  {
    match a
    case Publish(session, details, jpeg) => PublishPreserves(codec, s, session, details, jpeg);
    case Poll => PollPreserves(codec, s);
    case _ =>
  }

  lemma {:induction false} RunInvariant(codec: Codec, states: seq<State>, actions: seq<Action>, i: nat)
    requires Run(codec, states, actions) && i < |states|
    ensures Inv(codec, states[i])
  {
    if i > 0 {
      RunInvariant(codec, states, actions, i - 1);
      assert Follows(codec, states, actions, i - 1);
      StepPreserves(codec, states[i - 1], actions[i - 1]);
    }
  }

  // ---------------------------------------------------------------- results

  /** In every run, and wherever the connection breaks, the viewer delivers exactly the frames that
      arrived whole: its order check never refuses a frame this agent sent. */
  lemma ViewerDeliversWhatWasSent(codec: Codec, states: seq<State>, actions: seq<Action>, i: nat, k: nat)
    requires Faithful(codec) && Run(codec, states, actions) && i < |states|
    ensures AllWritable(codec, states[i].sent)
    ensures var sent, bytes := states[i].sent, EncodedAll(codec, states[i].sent);
            k <= |bytes| ==> Stream(codec, bytes[..k], None) == sent[..WholeWithin(codec, sent, k)]
  {
    RunInvariant(codec, states, actions, i);
    if k <= |EncodedAll(codec, states[i].sent)| {
      CutStreamDeliversWholeFrames(codec, states[i].sent, k, None);
    }
  }

  predicate OffersOwnFrame(s: State) {
    s.frame.Some? ==> s.frame.value.metadata.session == s.current > 0
  }

  lemma FrameStep(codec: Codec, s: State, a: Action)
    requires Numbered(s) && Enabled(s, a) && OffersOwnFrame(s)
    ensures OffersOwnFrame(Apply(codec, s, a))
  {
  }

  /** Only the current session's frames are ever on offer: one that was replaced or ended cannot
      bring its frames back, however late its encoder publishes. */
  lemma {:induction false} FrameOfCurrentSession(codec: Codec, states: seq<State>, actions: seq<Action>, i: nat)
    requires Run(codec, states, actions) && i < |states|
    ensures states[i].frame.Some? ==> states[i].frame.value.metadata.session == states[i].current > 0
  {
    if i > 0 {
      FrameOfCurrentSession(codec, states, actions, i - 1);
      RunInvariant(codec, states, actions, i - 1);
      assert Follows(codec, states, actions, i - 1);
      FrameStep(codec, states[i - 1], actions[i - 1]);
    }
  }

  /** From encoder to viewer: a frame published by the current session is the one the next poll sends;
      one published by any other session changes nothing that is offered. */
  lemma PublishedFrameSent(codec: Codec, s: State, session: nat, details: seq<byte>, jpeg: seq<byte>)
    requires Inv(codec, s) && Enabled(s, Publish(session, details, jpeg)) && !s.ended
    ensures var t, frame := Apply(codec, s, Publish(session, details, jpeg)), Frame(Metadata(session, s.drawn[session], details), jpeg);
            if s.current != session then t.frame == s.frame && t.change == s.change
            else if Writable(codec, frame) then Polled(codec, t).sent == s.sent + [frame] && !Polled(codec, t).ended
            else Polled(codec, t).sent == s.sent && Polled(codec, t).ended
  {
  }

  /** A connection that has sent frames ends with the poll after its session ended; one that has not
      waits for the next session; and nothing is sent twice. */
  lemma SessionEndEndsConnection(codec: Codec, s: State)
    requires Inv(codec, s) && s.current != 0 && !s.ended
    ensures var t := Polled(codec, Apply(codec, s, EndSession(s.current)));
            && t.sent == s.sent && (t.ended <==> s.sent != [])
            && Polled(codec, t) == t
  {
  }
}
