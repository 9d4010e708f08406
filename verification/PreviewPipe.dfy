/** The two ends of the preview pipe at work: a writer whose pipe may break after any byte, and a
    reader that is handed the bytes in pieces of any size. */
module PreviewPipe {

  import opened Arithmetic
  import opened ImageBuffers
  import opened SharingTypes
  import opened PreviewFraming

  // ---------------------------------------------------------------- the writing end

  class PipeWriter {
    /** Everything the pipe has accepted. */
    var written: seq<byte>
    /** How many more bytes it accepts before it breaks or the write times out. */
    var budget: nat

    constructor (budget: nat)
      ensures written == [] && this.budget == budget
    {
      written := [];
      this.budget := budget;
    }

    method WriteAll(bytes: seq<byte>) returns (ok: bool)
      modifies this
      ensures ok <==> |bytes| <= old(budget)
      ensures ok ==> written == old(written) + bytes && budget == old(budget) - |bytes|
      ensures !ok ==> written == old(written) + bytes[..old(budget)] && budget == 0
    {
      ok := |bytes| <= budget;
      var n := if ok then |bytes| else budget;
      written := written + bytes[..n];
      budget := budget - n;
    }

    /** The parts of a frame in their order, until one fails. */
    method WriteParts(parts: seq<seq<byte>>) returns (ok: bool)
      modifies this
      ensures ok <==> |Joined(parts)| <= old(budget)
      ensures ok ==> written == old(written) + Joined(parts) && budget == old(budget) - |Joined(parts)|
      ensures !ok ==> written == old(written) + Joined(parts)[..old(budget)] && budget == 0
    {
      var i := 0;
      ok := true;
      while i < |parts|
        invariant 0 <= i <= |parts|
        invariant |Joined(parts[..i])| <= old(budget) && budget == old(budget) - |Joined(parts[..i])|
        invariant written == old(written) + Joined(parts[..i])
      {
        JoinedSplit(parts, i);
        ok := WriteAll(parts[i]);
        if !ok {
          return;
        }
        i := i + 1;
      }
      assert parts[..i] == parts;
    }

    /** Nothing is written of a frame the reader would refuse; of any other, as much as the pipe takes. */
    method WriteFrame(codec: Codec, frame: Frame) returns (ok: bool)
      modifies this
      ensures !Writable(codec, frame) ==> !ok && written == old(written) && budget == old(budget)
      ensures Writable(codec, frame) ==>
        var bytes := Encoded(codec, frame);
        && (ok <==> |bytes| <= old(budget))
        && written == old(written) + (if ok then bytes else bytes[..old(budget)])
        && budget == (if ok then old(budget) - |bytes| else 0)
    {
      if !codec.acceptable(frame.metadata) || !WritableJpeg(frame.jpeg) {
        return false;
      }
      var document := codec.encode(frame.metadata);
      if document == [] || |document| > METADATA_LIMIT {
        return false;
      }
      var parts := [LittleEndian(|document|), document, LittleEndian(|frame.jpeg|), frame.jpeg];
      JoinedFour(parts);
      assert Joined(parts) == Encoded(codec, frame);
      ok := WriteParts(parts);
    }
  }

  function Joined(parts: seq<seq<byte>>): seq<byte> {
    if parts == [] then [] else Joined(parts[..|parts| - 1]) + parts[|parts| - 1]
  }

  lemma JoinedFour(parts: seq<seq<byte>>)
    requires |parts| == 4
    ensures Joined(parts) == parts[0] + parts[1] + parts[2] + parts[3]
  {
    assert parts[..3][..2] == parts[..2] && parts[..2][..1] == parts[..1] && parts[..1][..0] == [];
    assert Joined(parts[..1]) == [] + parts[0];
    assert Joined(parts[..2]) == Joined(parts[..1]) + parts[1];
    assert Joined(parts[..3]) == Joined(parts[..2]) + parts[2];
  }

  /** The first `i` parts, the next one, and the rest. */
  lemma {:induction false} JoinedSplit(parts: seq<seq<byte>>, i: nat)
    requires i < |parts|
    ensures Joined(parts[..i + 1]) == Joined(parts[..i]) + parts[i]
    ensures Joined(parts[..i]) + parts[i] <= Joined(parts)
    decreases |parts|
  {
    assert parts[..i + 1][..i] == parts[..i];
    if i + 1 < |parts| {
      var shorter := parts[..|parts| - 1];
      JoinedSplit(shorter, i);
      assert shorter[..i] == parts[..i];
    } else {
      assert parts[..i + 1] == parts;
    }
  }

  // ---------------------------------------------------------------- the reading end

  class PipeReader {
    /** Every byte that arrives before the stream ends. */
    const data: seq<byte>
    var position: nat

    constructor (data: seq<byte>)
      ensures this.data == data && position == 0
    {
      this.data := data;
      position := 0;
    }

    ghost predicate Valid()
      reads this
    {
      position <= |data|
    }

    ghost function Rest(): seq<byte>
      requires Valid()
      reads this
    {
      data[position..]
    }

    /** One read: at least one byte and at most as many as fit, unless the stream has ended. */
    method Read(destination: array<byte>, offset: nat) returns (count: nat)
      requires Valid() && offset < destination.Length
      modifies this`position, destination
      ensures Valid() && count <= destination.Length - offset
      ensures count == 0 <==> old(Rest()) == []
      ensures position == old(position) + count
      ensures destination[..offset + count] == old(destination[..offset]) + data[old(position)..position]
    {
      if position == |data| {
        return 0;
      }
      var available := |data| - position;
      var room := destination.Length - offset;
      count :| 1 <= count <= available && count <= room;
      var i := 0;
      while i < count
        invariant 0 <= i <= count && position == old(position)
        invariant destination[..offset] == old(destination[..offset])
        invariant destination[offset..offset + i] == data[position..position + i]
      {
        destination[offset + i] := data[position + i];
        assert destination[offset..offset + i + 1] == destination[offset..offset + i] + [data[position + i]];
        i := i + 1;
      }
      assert destination[..offset + count] == destination[..offset] + destination[offset..offset + count];
      position := position + count;
    }

    /** Fills the rest of `destination` from place `start` on, in as many reads as it takes. */
    method ReadExactly(destination: array<byte>, start: nat) returns (ok: bool)
      requires Valid() && start <= destination.Length
      modifies this`position, destination
      ensures Valid()
      ensures ok <==> |old(Rest())| >= destination.Length - start
      ensures ok ==> destination[..] == old(destination[..start]) + old(Rest())[..destination.Length - start]
      ensures ok ==> Rest() == old(Rest())[destination.Length - start..]
    {
      var offset := start;
      while offset < destination.Length
        invariant start <= offset <= destination.Length
        invariant Valid() && position == old(position) + (offset - start)
        invariant destination[..offset] == old(destination[..start]) + data[old(position)..position]
      {
        ghost var had := position;
        var count := Read(destination, offset);
        if count == 0 {
          return false;
        }
        assert data[old(position)..had] + data[had..position] == data[old(position)..position];
        offset := offset + count;
      }
      ok := true;
    }

    /** A length, already read, and its payload. */
    method ReadPayload(prefix: array<byte>, limit: nat) returns (payload: Option<seq<byte>>)
      requires Valid() && prefix.Length == 4 && limit < 0x1_0000_0000
      modifies this`position
      ensures Valid()
      ensures match TakeSection(prefix[..] + old(Rest()), limit)
              case None => payload == None
              case Some((expected, rest)) => payload == Some(expected) && Rest() == rest
    {
      SectionBehind(prefix[..], Rest(), limit);
      var n := LengthOf(prefix[..]);
      if n == 0 || n > limit {
        return None;
      }
      var buffer := new byte[n];
      var ok := ReadExactly(buffer, 0);
      if !ok {
        return None;
      }
      payload := Some(buffer[..]);
    }

    /** One frame, exactly as `ParseFrame` says it is, however the reads were split. */
    method ReadFrame(codec: Codec) returns (frame: Option<Frame>)
      requires Valid()
      modifies this`position
      ensures Valid()
      ensures match ParseFrame(codec, old(Rest()))
              case Delivered(expected, rest) => frame == Some(expected) && Rest() == rest
              case Closed => frame == None
              case Refused => frame == None
    {
      var prefix := new byte[4];
      var first := new byte[1];
      var count := Read(first, 0);
      if count == 0 {
        return None;
      }
      prefix[0] := first[0];
      var ok := ReadExactly(prefix, 1);
      if !ok {
        return None;
      }
      assert prefix[..] + Rest() == old(Rest());
      var document := ReadPayload(prefix, METADATA_LIMIT);
      if document.None? {
        return None;
      }
      var metadata := codec.decode(document.value);
      if metadata.None? {
        return None;
      }
      frame := ReadJpeg(prefix, metadata.value);
    }

    method ReadJpeg(prefix: array<byte>, metadata: Metadata) returns (frame: Option<Frame>)
      requires Valid() && prefix.Length == 4
      modifies this`position, prefix
      ensures Valid()
      ensures match TakeSection(old(Rest()), JPEG_LIMIT)
              case None => frame == None
              case Some((jpeg, rest)) =>
                if ReadableJpeg(jpeg) then frame == Some(Frame(metadata, jpeg)) && Rest() == rest else frame == None
    {
      var ok := ReadExactly(prefix, 0);
      if !ok {
        return None;
      }
      assert prefix[..] + Rest() == old(Rest());
      var jpeg := ReadPayload(prefix, JPEG_LIMIT);
      if jpeg.None? || !ReadableJpeg(jpeg.value) {
        return None;
      }
      frame := Some(Frame(metadata, jpeg.value));
    }

    /** The next frame to hand on, if one arrives whole, valid and in order. */
    method ReadNext(codec: Codec, previous: Option<Metadata>) returns (frame: Option<Frame>)
      requires Valid()
      modifies this`position
      ensures Valid()
      ensures frame.None? ==> Stream(codec, old(Rest()), previous) == []
      ensures frame.Some? ==>
        && |Rest()| < |old(Rest())|
        && Stream(codec, old(Rest()), previous) == [frame.value] + Stream(codec, Rest(), Some(frame.value.metadata))
    {
      frame := ReadFrame(codec);
      if frame.Some? && !Follows(previous, frame.value.metadata) {
        frame := None;
      }
    }

    /** The frames handed on during one connection: what `Stream` says, for every way of splitting
        the bytes into reads. */
    method ReadConnection(codec: Codec) returns (delivered: seq<Frame>)
      requires Valid() && position == 0
      modifies this`position
      ensures delivered == Stream(codec, data, None)
    {
      delivered := [];
      var previous: Option<Metadata> := None;
      assert Rest() == data;
      ghost var all := Stream(codec, data, None);
      ghost var remaining := all;
      while true
        invariant Valid() && remaining == Stream(codec, Rest(), previous)
        invariant delivered + remaining == all
        decreases |Rest()|
      {
        var frame := ReadNext(codec, previous);
        if frame.None? {
          break;
        }
        previous := Some(frame.value.metadata);
        MoveOn(delivered, frame.value, Stream(codec, Rest(), previous));
        remaining := Stream(codec, Rest(), previous);
        delivered := delivered + [frame.value];
      }
    }
  }

  lemma MoveOn(front: seq<Frame>, next: Frame, back: seq<Frame>)
    ensures front + ([next] + back) == front + [next] + back
  {
  }

  lemma SectionBehind(prefix: seq<byte>, rest: seq<byte>, limit: nat)
    requires |prefix| == 4
    ensures var n := LengthOf(prefix);
            TakeSection(prefix + rest, limit) ==
            if n == 0 || n > limit || |rest| < n then None else Some((rest[..n], rest[n..]))
  {
    var n := LengthOf(prefix);
    assert (prefix + rest)[..4] == prefix;
    if n <= |rest| {
      assert (prefix + rest)[4..4 + n] == rest[..n] && (prefix + rest)[4 + n..] == rest[n..];
    }
  }

  // ---------------------------------------------------------------- both together

  /** A viewer at the other end of a pipe that took `budget` bytes delivers the frames that were
      written whole, and is handed every frame of an unbroken pipe. */
  method Transfer(codec: Codec, frames: seq<Frame>, budget: nat) returns (delivered: seq<Frame>)
    requires Faithful(codec) && AllWritable(codec, frames) && Ordered(frames)
    ensures delivered == frames[..WholeWithin(codec, frames, Min(budget, |EncodedAll(codec, frames)|))]
  {
    var writer := new PipeWriter(budget);
    var i := 0;
    var ok := true;
    assert EncodedAll(codec, frames)[..0] == [];
    while i < |frames| && ok
      invariant 0 <= i <= |frames|
      invariant ok ==> |EncodedAll(codec, frames[..i])| <= budget
      invariant ok ==> writer.written == EncodedAll(codec, frames[..i])
      invariant ok ==> writer.budget == budget - |EncodedAll(codec, frames[..i])|
      invariant !ok ==> |EncodedAll(codec, frames)| > budget
      invariant !ok ==> writer.written == EncodedAll(codec, frames)[..budget]
    {
      EncodedSplit(codec, frames, i);
      ok := writer.WriteFrame(codec, frames[i]);
      i := i + 1;
    }
    ghost var k := Min(budget, |EncodedAll(codec, frames)|);
    assert frames[..|frames|] == frames;
    assert writer.written == EncodedAll(codec, frames)[..k];
    var reader := new PipeReader(writer.written);
    delivered := reader.ReadConnection(codec);
    CutStreamDeliversWholeFrames(codec, frames, k, None);
  }

  lemma Associates(x: seq<byte>, y: seq<byte>, z: seq<byte>)
    ensures x + (y + z) == x + y + z
  {
  }

  lemma {:induction false} EncodedConcat(codec: Codec, a: seq<Frame>, b: seq<Frame>)
    requires AllWritable(codec, a) && AllWritable(codec, b)
    ensures EncodedAll(codec, a + b) == EncodedAll(codec, a) + EncodedAll(codec, b)
  {
    if a == [] {
      assert a + b == b;
    } else {
      EncodedConcat(codec, a[1..], b);
      assert (a + b)[0] == a[0] && (a + b)[1..] == a[1..] + b;
      Associates(Encoded(codec, a[0]), EncodedAll(codec, a[1..]), EncodedAll(codec, b));
    }
  }

  lemma EncodedSplit(codec: Codec, frames: seq<Frame>, i: nat)
    requires AllWritable(codec, frames) && i < |frames|
    ensures EncodedAll(codec, frames[..i + 1]) == EncodedAll(codec, frames[..i]) + Encoded(codec, frames[i])
    ensures EncodedAll(codec, frames[..i + 1]) <= EncodedAll(codec, frames)
  {
    EncodedConcat(codec, frames[..i], [frames[i]]);
    assert frames[..i] + [frames[i]] == frames[..i + 1];
    EncodedOne(codec, frames[i]);
    EncodedConcat(codec, frames[..i + 1], frames[i + 1..]);
    assert frames[..i + 1] + frames[i + 1..] == frames;
  }

  lemma EncodedOne(codec: Codec, frame: Frame)
    requires Writable(codec, frame)
    ensures EncodedAll(codec, [frame]) == Encoded(codec, frame)
  {
    assert EncodedAll(codec, [frame][1..]) == [];
  }
}
