/** The fence around one snapshot request (crates/autopiercam-chatstronomy/src/snapshot.rs). */
module Snapshot {
  import opened Arithmetic
  import opened SharingTypes

  const MAX_JPEG_BYTES := 512 * 1024

  /** Consent and capture state supplied by the agent, never by the Hub. */
  datatype LocalState = LocalState(allowed: bool, generation: nat, session: Option<nat>)

  datatype Request = Request(expiresAtSeconds: int, maxJpegBytes: nat, maxFrameAgeSeconds: nat)

  datatype Fence = Fence(
    state: LocalState,
    deadline: nat,
    expiresAtMs: nat,
    maxFrameAgeMs: nat,
    maxJpegBytes: nat)
  {
    /** Checked after encoding and again right before the bytes are sent. */
    predicate Admits(current: LocalState, frameSession: nat, capturedAt: nat, wall: nat, now: nat) {
      && current == state && current.allowed
      && current.session == Some(frameSession)
      && now < deadline
      && wall < expiresAtMs
      && 0 < capturedAt <= wall + 30000
      && wall - capturedAt <= maxFrameAgeMs
    }

    /** A snapshot is at least a start and an end marker, and within the agreed size. */
    predicate AdmitsJpeg(jpeg: seq<int>) {
      && 4 <= |jpeg| <= maxJpegBytes
      && jpeg[..2] == [0xff, 0xd8] && jpeg[|jpeg| - 2..] == [0xff, 0xd9]
    }
  }

  function New(r: Request, state: LocalState, wall: nat, now: nat): Option<Fence> {
    if r.expiresAtSeconds < 0 || !state.allowed || state.session.None? || state.session.value == 0
       || r.expiresAtSeconds * 1000 <= wall || r.maxJpegBytes == 0 || r.maxFrameAgeSeconds == 0
    then None
    else Some(Fence(state, now + Min(r.expiresAtSeconds * 1000 - wall, 90000), r.expiresAtSeconds * 1000,
                    Min(r.maxFrameAgeSeconds, 120) * 1000, Min(r.maxJpegBytes, MAX_JPEG_BYTES)))
  }

  /** The Hub can tighten the limits of a request but never widen them: whatever it asks for, an
      admitted frame is at most two minutes old, of the capture session and consent the request
      met, and admitted within 90 seconds of it, and an admitted image is at most 512 KiB. */
  lemma RemoteLimitsOnlyTighten(r: Request, state: LocalState, wall0: nat, now0: nat,
                                current: LocalState, session: nat, capturedAt: nat, wall: nat, now: nat,
                                jpeg: seq<int>)
    requires New(r, state, wall0, now0).Some?
    requires New(r, state, wall0, now0).value.Admits(current, session, capturedAt, wall, now)
    ensures current == state && state.allowed && state.session == Some(session) && session != 0
    ensures now < now0 + 90000 && wall < r.expiresAtSeconds * 1000
    ensures wall - capturedAt <= 120000 && wall - capturedAt <= r.maxFrameAgeSeconds * 1000
    ensures New(r, state, wall0, now0).value.AdmitsJpeg(jpeg) ==> |jpeg| <= MAX_JPEG_BYTES && |jpeg| <= r.maxJpegBytes
  {
  }

  /** A request is taken exactly when snapshots are permitted, capture is running, and it is neither
      expired nor asks for an empty image or one of no age. */
  lemma RequestTakenExactly(r: Request, state: LocalState, wall: nat, now: nat)
    ensures New(r, state, wall, now).Some? <==>
            && state.allowed && state.session.Some? && state.session.value > 0
            && r.expiresAtSeconds * 1000 > wall && r.maxJpegBytes > 0 && r.maxFrameAgeSeconds > 0
  {
  }

  /** Exactly which frames and images serve a request that was taken at `wall0` and `now0`: those of
      the same consent and capture session, until the request expires on either clock or 90 seconds
      have passed, no older than asked for and than two minutes, no larger than asked for and than
      512 KiB, and marked as JPEG at both ends. */
  lemma ServedExactly(r: Request, state: LocalState, wall0: nat, now0: nat,
                      current: LocalState, session: nat, capturedAt: nat, wall: nat, now: nat, jpeg: seq<int>)
    requires New(r, state, wall0, now0).Some?
    ensures New(r, state, wall0, now0).value.Admits(current, session, capturedAt, wall, now) <==>
            && current.allowed && current.generation == state.generation
            && current.session == state.session && state.session == Some(session)
            && now < now0 + 90000 && now < now0 + (r.expiresAtSeconds * 1000 - wall0) && wall < r.expiresAtSeconds * 1000
            && 0 < capturedAt <= wall + 30000
            && wall - capturedAt <= 120000 && wall - capturedAt <= r.maxFrameAgeSeconds * 1000
    ensures New(r, state, wall0, now0).value.AdmitsJpeg(jpeg) <==>
            && 4 <= |jpeg| <= r.maxJpegBytes && |jpeg| <= 524288
            && jpeg[0] == 0xff && jpeg[1] == 0xd8 && jpeg[|jpeg| - 2] == 0xff && jpeg[|jpeg| - 1] == 0xd9
  {
    if 4 <= |jpeg| {
      assert jpeg[..2] == [jpeg[0], jpeg[1]] && jpeg[|jpeg| - 2..] == [jpeg[|jpeg| - 2], jpeg[|jpeg| - 1]];
    }
  }
}
