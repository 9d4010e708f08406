/** Raw camera buffers and the errors their consumers return
    (crates/autopiercam-core/src/image.rs). A 16-bit sample is stored low byte first. */
module ImageBuffers {

  type byte = b: nat | b < 0x100
  type u32 = n: nat | n < 0x1_0000_0000

  /** One past the largest buffer length a 64-bit machine can express. */
  const USIZE_LIMIT := 0x1_0000_0000_0000_0000

  datatype ImageError =
    | DimensionsOverflow
    | EmptyImage
    | InvalidPreviewBounds(maxWidth: nat, maxHeight: nat)
    | BufferLength(expected: nat, actual: nat)

  datatype Result<T> = Ok(value: T) | Err(error: ImageError)

  function Word(low: byte, high: byte): nat {
    low + 256 * high
  }

  function Words(raw: seq<byte>): (words: seq<nat>)
    requires |raw| % 2 == 0
    ensures |words| == |raw| / 2
  {
    seq(|raw| / 2, (i: nat) requires i < |raw| / 2 => Word(raw[2 * i], raw[2 * i + 1]))
  }

  function HighBytes(raw: seq<byte>): (bytes: seq<byte>)
    requires |raw| % 2 == 0
    ensures |bytes| == |raw| / 2
    ensures forall i :: 0 <= i < |bytes| ==> bytes[i] == Words(raw)[i] / 256
  {
    seq(|raw| / 2, (i: nat) requires i < |raw| / 2 => raw[2 * i + 1])
  }

  function Raw16ToRaw8(raw: seq<byte>): Result<seq<byte>> {
    if |raw| % 2 != 0 then Err(BufferLength(|raw| / 2 * 2, |raw|))
    else Ok(HighBytes(raw))
  }
}
