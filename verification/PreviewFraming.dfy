/** The preview stream between the agent and a viewer: the writer of
    crates/autopiercam-tray/src/preview.rs against the reader of
    apps/AutoPierCam.Viewer/PreviewPipeClient.cs. The metadata document is opaque: a codec turns it
    into bytes and back. */
module PreviewFraming {

  import opened ImageBuffers
  import opened SharingTypes

  const METADATA_LIMIT := 4096
  const JPEG_LIMIT := 4194304

  datatype Metadata = Metadata(session: nat, sequence: nat, details: seq<byte>)

  /** `acceptable` is the validation both sides share; `decode` includes it. */
  datatype Codec = Codec(
    acceptable: Metadata -> bool,
    encode: Metadata -> seq<byte>,
    decode: seq<byte> -> Option<Metadata>)

  ghost predicate Faithful(codec: Codec) {
    forall m | codec.acceptable(m) :: codec.decode(codec.encode(m)) == Some(m)
  }

  datatype Frame = Frame(metadata: Metadata, jpeg: seq<byte>)

  // ---------------------------------------------------------------- lengths

  function LittleEndian(n: u32): (prefix: seq<byte>)
    ensures |prefix| == 4
  {
    [n % 256, n / 256 % 256, n / 65536 % 256, n / 16777216]
  }

  function LengthOf(prefix: seq<byte>): u32
    requires |prefix| == 4
  {
    var a: nat, b: nat, c: nat, d: nat := prefix[0], prefix[1], prefix[2], prefix[3];
    a + 256 * b + 65536 * c + 16777216 * d
  }

  lemma LengthRoundTrip(n: u32)
    ensures LengthOf(LittleEndian(n)) == n
  {
    var a, b, c := n / 256, n / 65536, n / 16777216;
    assert b == a / 256 && c == b / 256;
    assert n == 256 * a + n % 256 && a == 256 * b + a % 256 && b == 256 * c + b % 256;
  }

  // ---------------------------------------------------------------- the wire

  /** A payload behind its length. */
  function Section(payload: seq<byte>): seq<byte>
    requires |payload| < 0x1_0000_0000
  {
    LittleEndian(|payload|) + payload
  }

  /** The writer's test of a JPEG: its length, how it starts and how it ends. */
  predicate WritableJpeg(jpeg: seq<byte>) {
    && 1 <= |jpeg| <= JPEG_LIMIT
    && [0xff, 0xd8] <= jpeg
    && |jpeg| >= 2 && jpeg[|jpeg| - 2..] == [0xff, 0xd9]
  }

  /** The reader's test, of single bytes. */
  predicate ReadableJpeg(jpeg: seq<byte>) {
    && |jpeg| >= 4
    && jpeg[0] == 0xff && jpeg[1] == 0xd8
    && jpeg[|jpeg| - 2] == 0xff && jpeg[|jpeg| - 1] == 0xd9
  }

  /** Both sides accept the same JPEGs, although only the reader asks for four bytes. */
  lemma JpegTestsAgree(jpeg: seq<byte>)
    requires |jpeg| <= JPEG_LIMIT
    ensures WritableJpeg(jpeg) <==> ReadableJpeg(jpeg)
  {
    if WritableJpeg(jpeg) {
      assert jpeg[|jpeg| - 2..][0] == 0xff && jpeg[|jpeg| - 2..][1] == 0xd9;
    }
    if ReadableJpeg(jpeg) {
      assert jpeg[..2] == [0xff, 0xd8];
    }
  }

  predicate Writable(codec: Codec, frame: Frame) {
    && codec.acceptable(frame.metadata)
    && 1 <= |codec.encode(frame.metadata)| <= METADATA_LIMIT
    && WritableJpeg(frame.jpeg)
  }

  function Encoded(codec: Codec, frame: Frame): seq<byte>
    requires Writable(codec, frame)
  {
    Section(codec.encode(frame.metadata)) + Section(frame.jpeg)
  }

  predicate AllWritable(codec: Codec, frames: seq<Frame>) {
    forall f <- frames :: Writable(codec, f)
  }

  function EncodedAll(codec: Codec, frames: seq<Frame>): seq<byte>
    requires AllWritable(codec, frames)
  {
    if frames == [] then [] else Encoded(codec, frames[0]) + EncodedAll(codec, frames[1..])
  }

  // ---------------------------------------------------------------- parsing, declaratively

  /** A length within `limit`, its payload, and the bytes behind it; or nothing where the data end
      early or the length is not allowed. */
  function TakeSection(data: seq<byte>, limit: nat): Option<(seq<byte>, seq<byte>)> {
    if |data| < 4 then None
    else
      var n := LengthOf(data[..4]);
      if n == 0 || n > limit || |data| < 4 + n then None
      else Some((data[4..4 + n], data[4 + n..]))
  }

  datatype Parsed =
    | Delivered(frame: Frame, rest: seq<byte>)
    | Closed
    | Refused

  function ParseFrame(codec: Codec, data: seq<byte>): (parsed: Parsed)
    ensures parsed.Delivered? ==> |parsed.rest| < |data|
  {
    if data == [] then Closed
    else
      match TakeSection(data, METADATA_LIMIT)
      case None => Refused
      case Some((document, rest)) =>
        match codec.decode(document)
        case None => Refused
        case Some(metadata) =>
          match TakeSection(rest, JPEG_LIMIT)
          case None => Refused
          case Some((jpeg, tail)) =>
            if ReadableJpeg(jpeg) then Delivered(Frame(metadata, jpeg), tail) else Refused
  }

  /** Whether a frame may follow another one on the same connection. */
  predicate Follows(previous: Option<Metadata>, next: Metadata) {
    previous.Some? ==> previous.value.sequence < next.sequence && previous.value.session <= next.session
  }

  /** The frames a viewer delivers from the bytes of one connection. */
  function Stream(codec: Codec, data: seq<byte>, previous: Option<Metadata>): seq<Frame>
    decreases |data|
  {
    match ParseFrame(codec, data)
    case Closed => []
    case Refused => []
    case Delivered(frame, rest) =>
      if Follows(previous, frame.metadata) then [frame] + Stream(codec, rest, Some(frame.metadata)) else []
  }

  // ---------------------------------------------------------------- round trips

  lemma SectionRoundTrip(payload: seq<byte>, rest: seq<byte>, limit: nat)
    requires 1 <= |payload| <= limit < 0x1_0000_0000
    ensures TakeSection(Section(payload) + rest, limit) == Some((payload, rest))
  {
    LengthRoundTrip(|payload|);
    var data := Section(payload) + rest;
    assert data[..4] == LittleEndian(|payload|);
    assert data[4..4 + |payload|] == payload;
    assert data[4 + |payload|..] == rest;
  }

  lemma SectionCut(payload: seq<byte>, k: nat, limit: nat)
    requires |payload| <= limit < 0x1_0000_0000 && k < |Section(payload)|
    ensures TakeSection(Section(payload)[..k], limit) == None
  {
    if k >= 4 {
      LengthRoundTrip(|payload|);
      assert Section(payload)[..k][..4] == LittleEndian(|payload|);
    }
  }

  lemma FrameRoundTrip(codec: Codec, frame: Frame, rest: seq<byte>)
    requires Faithful(codec) && Writable(codec, frame)
    ensures ParseFrame(codec, Encoded(codec, frame) + rest) == Delivered(frame, rest)
  {
    var document := codec.encode(frame.metadata);
    assert Encoded(codec, frame) + rest == Section(document) + (Section(frame.jpeg) + rest);
    SectionRoundTrip(document, Section(frame.jpeg) + rest, METADATA_LIMIT);
    SectionRoundTrip(frame.jpeg, rest, JPEG_LIMIT);
    JpegTestsAgree(frame.jpeg);
  }

  /** A frame that is cut short is never delivered, wherever the cut is. */
  lemma CutFrameNotDelivered(codec: Codec, frame: Frame, k: nat)
    requires Faithful(codec) && Writable(codec, frame) && k < |Encoded(codec, frame)|
    ensures !ParseFrame(codec, Encoded(codec, frame)[..k]).Delivered?
  {
    var document := codec.encode(frame.metadata);
    var data := Encoded(codec, frame)[..k];
    var n := |Section(document)|;
    if k < n {
      assert data == Section(document)[..k];
      SectionCut(document, k, METADATA_LIMIT);
    } else {
      assert data == Section(document) + Section(frame.jpeg)[..k - n];
      SectionRoundTrip(document, Section(frame.jpeg)[..k - n], METADATA_LIMIT);
      SectionCut(frame.jpeg, k - n, JPEG_LIMIT);
    }
  }

  /** The number that four bytes stand for, the low one first. */
  predicate LowByteFirst(data: seq<byte>, at: nat, n: nat) {
    && at + 4 <= |data|
    && n == data[at] as int + 256 * data[at + 1] as int + 65536 * data[at + 2] as int + 16777216 * data[at + 3] as int
  }

  lemma LengthAt(data: seq<byte>, at: nat)
    requires at + 4 <= |data|
    ensures LowByteFirst(data, at, LengthOf(data[at..at + 4]))
  {
  }

  /** `data` begins with a document of `n` bytes and a JPEG of `m`, each behind its length. */
  predicate FramedAt(data: seq<byte>, n: nat, m: nat) {
    && LowByteFirst(data, 0, n) && 1 <= n <= 4096
    && LowByteFirst(data, 4 + n, m) && 1 <= m <= 4194304
    && 8 + n + m <= |data|
  }

  /** A written frame is its document and its JPEG, each behind its length. */
  lemma WireLayout(codec: Codec, frame: Frame)
    requires Writable(codec, frame)
    ensures var document, data := codec.encode(frame.metadata), Encoded(codec, frame);
            && FramedAt(data, |document|, |frame.jpeg|) && |data| == 8 + |document| + |frame.jpeg|
            && data[4..4 + |document|] == document && data[8 + |document|..] == frame.jpeg
  {
    var document, data := codec.encode(frame.metadata), Encoded(codec, frame);
    LengthRoundTrip(|document|);
    LengthRoundTrip(|frame.jpeg|);
    assert data[0..4] == LittleEndian(|document|);
    assert data[4 + |document|..4 + |document| + 4] == LittleEndian(|frame.jpeg|);
    LengthAt(data, 0);
    LengthAt(data, 4 + |document|);
  }

  lemma SectionAt(data: seq<byte>, at: nat, n: nat, limit: nat)
    requires LowByteFirst(data, at, n) && 1 <= n <= limit && at + 4 + n <= |data|
    ensures TakeSection(data[at..], limit) == Some((data[at + 4..at + 4 + n], data[at + 4 + n..]))
  {
    LengthAt(data, at);
    var rest := data[at..];
    assert rest[..4] == data[at..at + 4];
    assert rest[4..4 + n] == data[at + 4..at + 4 + n] && rest[4 + n..] == data[at + 4 + n..];
  }

  /** Exactly the data that begin with a framed document the viewer can decode, and a JPEG marked at
      both ends, deliver a frame; what is behind them is left over. */
  lemma DeliveredExactly(codec: Codec, data: seq<byte>, n: nat, m: nat)
    requires FramedAt(data, n, m)
    ensures var metadata, jpeg := codec.decode(data[4..4 + n]), data[8 + n..8 + n + m];
            if && metadata.Some? && m >= 4 && jpeg[0] == 0xff && jpeg[1] == 0xd8
               && jpeg[m - 2] == 0xff && jpeg[m - 1] == 0xd9
            then ParseFrame(codec, data) == Delivered(Frame(metadata.value, jpeg), data[8 + n + m..])
            else ParseFrame(codec, data) == Refused
  {
    hide TakeSection, LowByteFirst;
    assert data[0..] == data;
    SectionAt(data, 0, n, METADATA_LIMIT);
    SectionAt(data, 4 + n, m, JPEG_LIMIT);
  }

  /** Whatever is delivered was framed so: empty and oversized documents and JPEGs are refused. */
  lemma DeliveredWasFramed(codec: Codec, data: seq<byte>) returns (n: nat, m: nat)
    requires ParseFrame(codec, data).Delivered?
    ensures FramedAt(data, n, m)
  {
    n := LengthOf(data[..4]);
    assert data[..4] == data[0..4];
    LengthAt(data, 0);
    var rest := data[4 + n..];
    m := LengthOf(rest[..4]);
    assert rest[..4] == data[4 + n..4 + n + 4];
    LengthAt(data, 4 + n);
  }

  ghost predicate Ordered(frames: seq<Frame>) {
    forall i, j | 0 <= i < j < |frames| ::
      && frames[i].metadata.sequence < frames[j].metadata.sequence
      && frames[i].metadata.session <= frames[j].metadata.session
  }

  /** How many of the frames are complete within the first `k` bytes of their encoding. */
  function WholeWithin(codec: Codec, frames: seq<Frame>, k: nat): (whole: nat)
    requires AllWritable(codec, frames)
    ensures whole <= |frames|
  {
    if frames == [] || k < |Encoded(codec, frames[0])| then 0
    else 1 + WholeWithin(codec, frames[1..], k - |Encoded(codec, frames[0])|)
  }

  lemma NothingArrives(codec: Codec, previous: Option<Metadata>)
    ensures Stream(codec, [], previous) == []
  {
  }

  /** Whatever part of an ordered sequence of frames arrives, the viewer delivers exactly the frames
      that arrived whole, in order and unchanged. */
  lemma {:induction false} CutStreamDeliversWholeFrames(codec: Codec, frames: seq<Frame>, k: nat,
                                                        previous: Option<Metadata>)
    requires Faithful(codec) && AllWritable(codec, frames) && Ordered(frames)
    requires frames != [] ==> Follows(previous, frames[0].metadata)
    requires k <= |EncodedAll(codec, frames)|
    ensures Stream(codec, EncodedAll(codec, frames)[..k], previous) == frames[..WholeWithin(codec, frames, k)]
    decreases |frames|
  {
    hide Stream, ParseFrame, Encoded, Writable, Follows, Ordered;
    if frames == [] {
      assert EncodedAll(codec, frames)[..k] == [];
      NothingArrives(codec, previous);
    } else if k < |Encoded(codec, frames[0])| {
      CutInside(codec, frames[0], EncodedAll(codec, frames[1..]), k, previous);
    } else {
      var m := k - |Encoded(codec, frames[0])|;
      OrderedTail(frames);
      CutStreamDeliversWholeFrames(codec, frames[1..], m, Some(frames[0].metadata));
      CutBehind(codec, frames[0], EncodedAll(codec, frames[1..]), k, previous,
                frames[1..][..WholeWithin(codec, frames[1..], m)]);
      OneMore(frames, WholeWithin(codec, frames[1..], m));
    }
  }

  lemma OneMore(frames: seq<Frame>, n: nat)
    requires n < |frames|
    ensures frames[..n + 1] == [frames[0]] + frames[1..][..n]
  {
  }

  lemma CutInside(codec: Codec, frame: Frame, tail: seq<byte>, k: nat, previous: Option<Metadata>)
    requires Faithful(codec) && Writable(codec, frame) && k < |Encoded(codec, frame)|
    ensures Stream(codec, (Encoded(codec, frame) + tail)[..k], previous) == []
  {
    assert (Encoded(codec, frame) + tail)[..k] == Encoded(codec, frame)[..k];
    CutFrameNotDelivered(codec, frame, k);
  }

  lemma CutBehind(codec: Codec, frame: Frame, tail: seq<byte>, k: nat, previous: Option<Metadata>, later: seq<Frame>)
    requires Faithful(codec) && Writable(codec, frame) && Follows(previous, frame.metadata)
    requires |Encoded(codec, frame)| <= k <= |Encoded(codec, frame) + tail|
    requires Stream(codec, tail[..k - |Encoded(codec, frame)|], Some(frame.metadata)) == later
    ensures Stream(codec, (Encoded(codec, frame) + tail)[..k], previous) == [frame] + later
  {
    var rest := tail[..k - |Encoded(codec, frame)|];
    assert (Encoded(codec, frame) + tail)[..k] == Encoded(codec, frame) + rest;
    FrameRoundTrip(codec, frame, rest);
  }

  lemma OrderedTail(frames: seq<Frame>)
    requires frames != [] && Ordered(frames)
    ensures Ordered(frames[1..])
    ensures |frames| > 1 ==> Follows(Some(frames[0].metadata), frames[1..][0].metadata)
  {
  }

  lemma {:induction false} AllWhole(codec: Codec, frames: seq<Frame>)
    requires AllWritable(codec, frames)
    ensures WholeWithin(codec, frames, |EncodedAll(codec, frames)|) == |frames|
  {
    if frames != [] {
      AllWhole(codec, frames[1..]);
    }
  }

  /** What follows is not a frame, or one whose sequence does not rise or whose session falls. */
  predicate Unwelcome(codec: Codec, rest: seq<byte>, last: Option<Metadata>) {
    ParseFrame(codec, rest).Delivered? ==>
      var next := ParseFrame(codec, rest).frame.metadata;
      last.Some? && (next.sequence <= last.value.sequence || next.session < last.value.session)
  }

  function Last(frames: seq<Frame>, previous: Option<Metadata>): Option<Metadata> {
    if frames == [] then previous else Some(frames[|frames| - 1].metadata)
  }

  lemma UnwelcomeEnds(codec: Codec, rest: seq<byte>, previous: Option<Metadata>)
    requires Unwelcome(codec, rest, previous)
    ensures Stream(codec, rest, previous) == []
  {
  }

  lemma StreamGoesOn(codec: Codec, frame: Frame, tail: seq<byte>, previous: Option<Metadata>)
    requires Faithful(codec) && Writable(codec, frame) && Follows(previous, frame.metadata)
    ensures Stream(codec, Encoded(codec, frame) + tail, previous) == [frame] + Stream(codec, tail, Some(frame.metadata))
  {
    FrameRoundTrip(codec, frame, tail);
  }

  /** A frame out of order, or bytes that are none, end the connection: what came before is delivered,
      and nothing of what comes behind. */
  lemma {:induction false} BadFrameEndsConnection(codec: Codec, frames: seq<Frame>, rest: seq<byte>, previous: Option<Metadata>)
    requires Faithful(codec) && AllWritable(codec, frames) && Ordered(frames)
    requires frames != [] ==> Follows(previous, frames[0].metadata)
    requires Unwelcome(codec, rest, Last(frames, previous))
    ensures Stream(codec, EncodedAll(codec, frames) + rest, previous) == frames
    decreases |frames|
  {
    hide Stream, ParseFrame, Encoded, Writable, Follows, Ordered, Unwelcome;
    if frames == [] {
      assert EncodedAll(codec, frames) + rest == rest;
      UnwelcomeEnds(codec, rest, previous);
    } else {
      var tail := EncodedAll(codec, frames[1..]) + rest;
      OrderedTail(frames);
      BadFrameEndsConnection(codec, frames[1..], rest, Some(frames[0].metadata));
      assert EncodedAll(codec, frames) + rest == Encoded(codec, frames[0]) + tail;
      StreamGoesOn(codec, frames[0], tail, previous);
    }
  }

  /** Every ordered sequence of writable frames is read back as it was written. */
  lemma StreamRoundTrip(codec: Codec, frames: seq<Frame>)
    requires Faithful(codec) && AllWritable(codec, frames) && Ordered(frames)
    ensures Stream(codec, EncodedAll(codec, frames), None) == frames
  {
    var data := EncodedAll(codec, frames);
    CutStreamDeliversWholeFrames(codec, frames, |data|, None);
    AllWhole(codec, frames);
    assert data[..|data|] == data && frames[..|frames|] == frames;
  }

  /** Whatever bytes arrive, the frames a viewer delivers on one connection are ordered, follow
      `previous`, and each passed both validations. */
  lemma {:induction false} DeliveredInOrder(codec: Codec, data: seq<byte>, previous: Option<Metadata>)
    ensures Ordered(Stream(codec, data, previous))
    ensures forall f <- Stream(codec, data, previous) :: Follows(previous, f.metadata) && ReadableJpeg(f.jpeg)
    decreases |data|
  {
    var parsed := ParseFrame(codec, data);
    if parsed.Delivered? && Follows(previous, parsed.frame.metadata) {
      DeliveredInOrder(codec, parsed.rest, Some(parsed.frame.metadata));
      var later := Stream(codec, parsed.rest, Some(parsed.frame.metadata));
      assert forall i | 0 <= i < |later| :: later[i] in later;
    }
  }
}
