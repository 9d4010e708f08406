# AutoPierCam: a verified model

AutoPierCam is a Windows agent that drives a pier camera, shares images with a Hub when the operator
consents, and streams previews to a local viewer. This project models its hardest parts in Dafny and
proves what they promise.

## What is modelled

**Sharing protocol** (`SharingTypes`, `SharingProtocol`, `SharingSafety`, `SharingCommits`,
`SharingQueue`, `SharingUploads`). The agent's settings, its privacy epoch, the movie generation and the one-slot timelapse
queue, as a transition system. One action is one atomic load or store, one critical section, or one outcome
of a disk or network call; each check of an offer, of its copy loop and of an upload attempt is an action of
its own. Offers of a movie, settings commits, two-step pairing, forgetting, chat rule changes, the transport
task, capture and the final stop interleave freely. `SharingProtocol.Apply` follows
`crates/autopiercam-chatstronomy/src/service.rs` and the upload part of `transport.rs` branch by branch;
`SharingCommits` says, field by field, what every finished mutation leaves behind, `SharingQueue` what the
queue lets in, keeps and gives up.

**Settings form** (`SharingSetup`, `SharingFleet`). The viewer's `SharingSetupState` as a class, and any
number of such viewers against the agent above, with polled statuses that may be stale.

**Image scheduler** (`Triggers`, `TriggerOffers`, `TriggerRuns`). The classes `PeriodicSchedule` and
`Scheduler`, each method proved equal to a function on values, exactly which images they offer when, and
properties of all their histories. The monotonic clock and the wall clock are separate inputs.

**Outbox** (`Snapshot`, `Outbox`, `OutboxDelivery`). The reconnect loop and the session loop of
`transport.rs` as a step machine: outbox, snapshot request, acknowledgements, and sends that are checked,
started and completed, each check one load. Beside it settings are committed in the phases of `service.rs`:
switched off, announced, written, announced again. `OutboxDelivery` says what is sent, and what never is.

**Observation history** (`Observation`, `ObservationMeaning`). The bounded history that labels frames, as a
class, and exactly what a message does to it and a frame shows of it.

**Scene detector** (`Medians`, `SceneDetector`, `SceneRecovery`, `SceneWatch`). The median-slope fit and the
neighbour filter, with their loops, and the stateful detector around them, over the reals.

**Timelapse windows** (`TimelapseSchedule`, `TimelapsePlans`). The planner over an abstract time zone and an
abstract solar altitude, with its search loops.

**Imaging** (`ImageBuffers`, `PreviewGeometry`, `Demosaic`, `DemosaicMeaning`, `ImageStats`,
`AdaptiveExposure`, `ExposureResponse`). Bayer interpolation at 8 and 16 bits, the direct preview, integer
fitting and sampling, histogram percentiles, and the exposure controller. `Arithmetic` holds the integer and
real facts these share.

**Preview stream** (`PreviewFraming`, `PreviewPipe`, `PreviewHub`). The wire format, a writer whose pipe may
break after any byte, a reader that receives pieces of any size, and the hub that numbers frames.

## Where the code and its description part

Each of these is a lemma about the code as it is; where a condition decides whether the described
behaviour holds, a second lemma gives it as an equivalence.

- An automatic image is said never to survive a privacy change (`transport.rs`, lines 89-90). The waits
  at lines 163-181 keep the outbox, so an image made under one consent can be sent under the next:
  `Outbox.SentUnderLaterConsent`. It starts in its own epoch exactly when no read of the epoch found the
  epoch moved and the image still waiting, and the epoch does not move between its check and the start:
  `Outbox.StartedInOwnEpoch`; such reads come about in exactly two ways: `Outbox.CarriedInTwoWays`. For
  other settings to be in use over it as well, the loop must also read them after a commit wrote them with
  sharing on, since every commit first switches sharing off and a choice made then drops the image:
  `Outbox.CheckedUnderOwnSettings`, `Outbox.AdoptedOnceWritten`.
- A failed save leaves sharing off (`service.rs`, line 531), but only until a restart:
  `SharingSafety.FailedStopUndoneByRestart`. A restart turns it on exactly when the file before the failed
  commit had it on: `SharingSafety.RestartAfterFailedCommit`.
- After such a failed save a viewer's accepted save can overwrite the switched-off state without review:
  `SharingFleet.FailedWriteHidesStop`; exact condition `SharingFleet.SaveAfterFailedWrites`.
- The checks before an upload request and its start are separate loads, so a request can start after a stop
  has announced a new epoch, or after capture has gone over to another session (the task drops it when it
  next polls): `SharingUploads.RequestAfterStop`, `SharingUploads.RequestAfterCapture`; exact conditions
  `SharingUploads.StartedInOwnEpoch`, `SharingUploads.StartedInOwnSession`.
- The newest observation is kept as a watermark against replays (`observation.rs`, lines 437-439), but a
  message that is itself refused can empty the history and let a replay back in:
  `Observation.OutdatedMessageLetsReplayIn`. Exactly which messages do is
  `Observation.EmptiedExactlyWhenDropped`, and exactly when a refused replay becomes the newest sample is
  `Observation.ReplayReturnsExactlyWhenDropped`.
- A dusk-to-dawn window does not depend on the display time zone, yet planning needs local noons in it; a
  restart near a skipped local date is refused: `TimelapseSchedule.RestartRefused`; exact condition in
  `TimelapseSchedule.RestartResumesWindow`.
- With a brightness target of 1 the controller takes a black frame for a good one:
  `AdaptiveExposure.TargetOneSticks` shows that a target of at least 2 is exactly what convergence needs.

## Model

| member | source | states |
|---|---|---|
| `SharingTypes.ActiveRulesWithinConsent` | crates/autopiercam-chatstronomy/src/service.rs:113-121 | Whatever rules are stored, the rules in force stay within every local choice and limit, and are the stored chat rules exactly when chat configuration is permitted and they ask for no more than the local choices; otherwise they are the local ones. |
| `SharingSafety.StepPreserves` | crates/autopiercam-chatstronomy/src/service.rs:162-194 | Every atomic step of every thread keeps the joint invariant of locks, counters, queue, settings and uploads. |
| `SharingSafety.RunInvariant` | crates/autopiercam-chatstronomy/src/service.rs:312-393 | The invariant holds at every moment of every interleaving from a service start. |
| `SharingSafety.QueuedMovieHasConsent` | crates/autopiercam-chatstronomy/src/service.rs:441-507 | A queued movie always belongs to the current epoch, under live consent or in the middle of the commit that cancels it, and never outlives the final stop. |
| `SharingSafety.CommitFencesSlot` | crates/autopiercam-chatstronomy/src/service.rs:427-433 | Once a commit or stop has announced itself no movie admitted under an earlier epoch is ever in the slot again, whatever offers were copying. |
| `SharingSafety.EpochMovesWhenAnnounced` | crates/autopiercam-chatstronomy/src/service.rs:427-433 | The epoch differs between two moments exactly when a commit or stop announced one in between, and never falls. |
| `SharingSafety.SlotNeverReplaced` | crates/autopiercam-chatstronomy/src/service.rs:490-505 | A queued movie is taken or cancelled, never replaced by another. |
| `SharingSafety.OneOfferCopies` | crates/autopiercam-chatstronomy/src/service.rs:462-488 | At most one offer is past the copy lock, and only it can hold the settings lock for an admission. |
| `SharingSafety.UploadsBounded` | crates/autopiercam-chatstronomy/src/transport.rs:588-603 | Every request on record is for a movie at most 900 seconds old when its attempt checked it; a movie has at most three requests, in order. |
| `SharingSafety.AttemptCheckedUnderConsent` | crates/autopiercam-chatstronomy/src/transport.rs:588-596 | An attempt passes its epoch check only in the movie's own epoch, with consent in force or being taken away by a commit not yet announced. |
| `SharingSafety.AttemptStartedUnderConsent` | crates/autopiercam-chatstronomy/src/transport.rs:588-603 | When a request starts its movie is of the session's epoch, and if that epoch is still current consent is in force or being taken away. |
| `SharingSafety.EnabledMeansStored` | crates/autopiercam-chatstronomy/src/service.rs:530-547 | While sharing is on in memory, memory equals the stored file except exactly while accepted chat rules are stored and about to be published. |
| `SharingSafety.RulesWithinConsent` | crates/autopiercam-chatstronomy/src/service.rs:171-194 | The rules in force are always within local consent, and a session of the current epoch acts on exactly these, except while a commit has changed the settings and not yet announced it. |
| `SharingSafety.PairingOnlyAddsDevice` | crates/autopiercam-chatstronomy/src/service.rs:550-611 | The second commit of pairing changes the device and the revision of the settings in memory and nothing else, and sharing stays off. |
| `SharingSafety.EveryStoredFileReloads` | crates/autopiercam-chatstronomy/src/service.rs:312-393 | What is on disk at any moment, a crash included, is a valid start. |
| `SharingSafety.FailedCommitSwitchesOff` | crates/autopiercam-chatstronomy/src/service.rs:530-547 | A commit whose write fails leaves sharing off in memory, the queue empty, the lock free and the file as it was. |
| `SharingSafety.RestartAfterFailedCommit` | crates/autopiercam-chatstronomy/src/service.rs:530-547 | After any commit whose write failed sharing is off, and a restart turns it on exactly when the file before that commit had it on. |
| `SharingSafety.FailedStopUndoneByRestart` | crates/autopiercam-chatstronomy/src/service.rs:530-547 | From every enabled start there is a history in which a stop fails to reach the disk and the file it leaves has sharing on. |
| `SharingCommits.ForgetForgets` | crates/autopiercam-chatstronomy/src/service.rs:613-638 | When a forget returns, device, chat rules, overlays and every source are gone from memory and from the file, under the next revision; hub, threshold, burst and spacing are as before. |
| `SharingCommits.NoDeviceUntilPaired` | crates/autopiercam-chatstronomy/src/service.rs:549-638 | A camera without a device stays without one, in memory and in the file, until a second pairing commit writes. |
| `SharingCommits.SaveSaves` | crates/autopiercam-chatstronomy/src/service.rs:509-528 | When a save returns, exactly the preferences sent for the current revision are in force and in the file, chat rules are dropped, and a paired camera has kept its Hub. |
| `SharingCommits.PairFirstSwitchesOff` | crates/autopiercam-chatstronomy/src/service.rs:566-587 | The first pairing commit happens only to an unpaired camera with a Hub, switches sharing off, drops chat rules and changes no other choice. |
| `SharingCommits.PairSecondPairs` | crates/autopiercam-chatstronomy/src/service.rs:597-611 | The second one records the device the Hub answered with, only after the credential is stored, before any stop, and if sharing is still off. |
| `SharingCommits.ChatChangesOnlyRules` | crates/autopiercam-chatstronomy/src/service.rs:171-194 | Published chat rules are the ones asked for, ask for no more than each local choice and limit, and change nothing else in memory or file. |
| `SharingCommits.SessionBegan` | crates/autopiercam-chatstronomy/src/transport.rs:131-187 | A session works for the epoch that was read first, begins only after the agent was found running, and keeps the settings it then read, with sharing on and a device. |
| `SharingCommits.ChoicesInRange` | crates/autopiercam-chatstronomy/src/service.rs:312-393 | Whatever happens, the choices in memory and on disk are within the operator's ranges. |
| `SharingCommits.RequestCanBeMet` | crates/autopiercam-chatstronomy/src/service.rs:509-638 | From every reachable state in which nobody holds the lock, each save, pairing step or forget for the current revision with choices in range can run to its return. |
| `SharingCommits.RulesCanBePublished` | crates/autopiercam-chatstronomy/src/service.rs:171-194 | From every such state chat rules within the local choices can be stored and put in force by a connected session. |
| `SharingCommits.AdmittedOnItsTerms` | crates/autopiercam-chatstronomy/src/service.rs:448-507 | A movie is admitted in the current epoch with timelapse sharing on for a paired camera and exactly the consent its offer named in force, under the session that a look since the lock was taken found running. |
| `SharingQueue.AdmittedExactly` | crates/autopiercam-chatstronomy/src/service.rs:448-506 | The last step of an offer fills the queue exactly when it is empty and no commit, stop or session end has cancelled movies since the offer began. |
| `SharingQueue.GenerationMovesWhenCancelled` | crates/autopiercam-chatstronomy/src/service.rs:162-168 | The movie generation differs between two moments exactly when a commit, the stop or the end of a session cancelled movies in between. |
| `SharingQueue.CopiesWhilePermitted` | crates/autopiercam-chatstronomy/src/service.rs:471-480 | Every chunk is copied only after four checks of its own found the offer's epoch and generation current, no stop, and its capture session running. |
| `SharingQueue.QueueEmptiedExactly` | crates/autopiercam-chatstronomy/src/transport.rs:464-477 | A queued movie leaves the queue exactly when it is taken to be uploaded, cancelled, or found of another epoch, over 900 seconds old or of another capture session. |
| `SharingQueue.UploadGoesOnExactly` | crates/autopiercam-chatstronomy/src/transport.rs:473-612 | After every check and every request exactly when an upload goes on, on clock, source, epoch, stop and settings, with at most two repeats. |
| `SharingUploads.StartedInOwnEpoch` | crates/autopiercam-chatstronomy/src/transport.rs:588-603 | Every request has passed an epoch check of its attempt, and starts in its movie's epoch exactly when no commit and no stop announces itself after that check. |
| `SharingUploads.StartedInOwnSession` | crates/autopiercam-chatstronomy/src/transport.rs:560-603 | Every request follows a last look at its movie's capture session, and starts while that session runs exactly when the source was not left for another session or none since then. |
| `SharingUploads.RequestAfterCapture` | crates/autopiercam-chatstronomy/src/transport.rs:560-603 | From every start with timelapse sharing on and for every other session, some interleaving starts a request after capture has gone over to it. |
| `SharingUploads.RequestAfterStop` | crates/autopiercam-chatstronomy/src/transport.rs:588-603 | From every start with timelapse sharing on, some interleaving starts a request for a movie of an epoch a stop has already ended. |
| `SharingSetup.SharingSetupState.constructor` | apps/AutoPierCam.Viewer/SharingSetupState.cs:7-12 | A new form shows the loaded status, unedited. |
| `SharingSetup.SharingSetupState.Refresh` | apps/AutoPierCam.Viewer/SharingSetupState.cs:24-28 | A poll replaces the whole form only when nothing is edited, kept or awaiting review; otherwise only the status shown. |
| `SharingSetup.SharingSetupState.Accept` | apps/AutoPierCam.Viewer/SharingSetupState.cs:30-35 | Accepting a status resets draft, baseline and expected revision to it. |
| `SharingSetup.SharingSetupState.KeepEdits` | apps/AutoPierCam.Viewer/SharingSetupState.cs:37-41 | Keeping edits moves baseline and expected revision to the shown status and leaves the draft. |
| `SharingSetup.SharingSetupState.Discard` | apps/AutoPierCam.Viewer/SharingSetupState.cs:43 | Discarding reloads the shown status. |
| `SharingSetup.SharingSetupState.Stopped` | apps/AutoPierCam.Viewer/SharingSetupState.cs:45-54 | After a stop unsaved edits are kept switched off, and the old revision stays expected if another writer was there. |
| `SharingSetup.SharingSetupState.ForSave` | apps/AutoPierCam.Viewer/SharingSetupState.cs:56-63 | A draft is handed out for saving exactly when no review is pending and enabling has a paired device. |
| `SharingFleet.MemoryStep` | crates/autopiercam-chatstronomy/src/service.rs:171-194 | Every agent step leaves the settings in memory alone, switches them off within a commit, or replaces them under the next revision. |
| `SharingFleet.StepPreserves` | apps/AutoPierCam.Viewer/SharingSetupState.cs:24-63 | Every step of viewers and agent keeps each baseline and each served status in agreement with the agent at equal revisions. |
| `SharingFleet.SaveReplacesBaseline` | crates/autopiercam-chatstronomy/src/service.rs:509-528 | While disk writes succeed, every accepted save replaces exactly the preferences its viewer loaded, accepted or kept its edits over. |
| `SharingFleet.StopOnlySwitchesOff` | crates/autopiercam-chatstronomy/src/service.rs:509-528 | While disk writes succeed, an accepted stop changes only the master switch of the preferences then in force. |
| `SharingFleet.StopNeverApprovesOthers` | apps/AutoPierCam.Viewer/SharingSetupState.cs:45-54 | After a stop with edits the form needs review exactly when another writer had changed the settings before it; otherwise its baseline is the old one switched off. |
| `SharingFleet.StopLeavesNoDraftOn` | apps/AutoPierCam.Viewer/SharingSetupState.cs:45-54 | After any reply to a stop the draft is off; a form with edits, or told to preserve its draft, keeps that draft switched off; any other shows the agent's preferences, unedited and under the agent's revision. |
| `SharingFleet.AnswersShowTheAgent` | apps/AutoPierCam.Viewer/SharingSetupState.cs:30-43 | An accepted save leaves draft, baseline, status and expected revision those of the agent; a failure leaves the form as it was. |
| `SharingFleet.RefreshKeepsEdits` | apps/AutoPierCam.Viewer/SharingSetupState.cs:24-28 | A poll replaces the form by the polled status exactly when it is unedited, not in review and not kept; otherwise draft, baseline and expected revision stay. |
| `SharingFleet.SaveSendsDraft` | apps/AutoPierCam.Viewer/SharingSetupState.cs:56-63 | What a save sends is the draft under the revision the form expects; for pairing it is the draft switched off. |
| `SharingFleet.FormChoices` | apps/AutoPierCam.Viewer/SharingSetupState.cs:30-43 | Keeping edits, discarding them, editing, opening and reloading change exactly the stated parts of a form and nothing of the agent. |
| `SharingFleet.SaveAfterFailedWrites` | crates/autopiercam-chatstronomy/src/service.rs:530-547 | Whatever writes fail, an accepted save replaces its baseline or the switched-off baseline, and the baseline itself exactly when the master switches agree. |
| `SharingFleet.FailedWriteHidesStop` | crates/autopiercam-chatstronomy/src/service.rs:530-547 | From every enabled, paired start there is a history in which a save overwrites the effect of another client's failed stop. |
| `Triggers.PeriodicSchedule.Configure` | crates/autopiercam-chatstronomy/src/triggers.rs:149-155 | Reconfiguring to the same interval keeps the next slot; another interval takes the next boundary. |
| `Triggers.PeriodicSchedule.Due` | crates/autopiercam-chatstronomy/src/triggers.rs:166-172 | A poll fires exactly at or past the next boundary and moves the boundary past the wall clock. |
| `Triggers.BoundaryAfter` | crates/autopiercam-chatstronomy/src/triggers.rs:157-164 | The next boundary is later than the wall clock by at most one interval, and a multiple of the interval unless held at the last 64-bit millisecond. |
| `Triggers.Scheduler.constructor` | crates/autopiercam-chatstronomy/src/triggers.rs:201-210 | A new scheduler has nothing pending. |
| `Triggers.Scheduler.Trigger` | crates/autopiercam-chatstronomy/src/triggers.rs:212-243 | A trigger begins a burst unless one is running, with its quota, deadline and first usable frame. |
| `Triggers.Scheduler.TelescopeTrigger` | crates/autopiercam-chatstronomy/src/triggers.rs:251-335 | A telescope event takes the completion slot, supersedes, relabels or begins a burst, as specified for every state. |
| `Triggers.Scheduler.Poll` | crates/autopiercam-chatstronomy/src/triggers.rs:337-420 | A poll expires requests, prefers the post-slew image, and offers at most one image with its caption. |
| `Triggers.Scheduler.MarkQueued` | crates/autopiercam-chatstronomy/src/triggers.rs:422-451 | Queueing uses up the completion or one image of the burst, without underflow. |
| `TriggerOffers.PollOffers` | crates/autopiercam-chatstronomy/src/triggers.rs:337-420 | Exactly which image a poll offers, on frame, clock and request fields alone: post-slew first, else the burst's next, else the periodic one; images are of frames at most 120 seconds old. |
| `TriggerOffers.PollDrops` | crates/autopiercam-chatstronomy/src/triggers.rs:344-360 | Without a frame a poll drops everything pending; a completion of another session or past its deadline is dropped. |
| `TriggerOffers.PollLeaves` | crates/autopiercam-chatstronomy/src/triggers.rs:380-394 | A running burst stays; one of another session or past its deadline ends; in its place a due slot begins one of a single image. |
| `TriggerOffers.DetectedBurstOffers` | crates/autopiercam-chatstronomy/src/triggers.rs:212-420 | From a detection to its first image: exactly for fresh frames of that session, from the triggering one on or after it, until 180 seconds and the spacings have passed. |
| `TriggerOffers.EventBurstOffers` | crates/autopiercam-chatstronomy/src/triggers.rs:320-420 | The same for telescope events, whose image always follows the event and is captioned with it. |
| `TriggerOffers.CompletionOffers` | crates/autopiercam-chatstronomy/src/triggers.rs:266-378 | From a slew completion to its image: exactly for later frames of the session exposed after it, for four exposures and three minutes, at least five minutes and at most an hour. |
| `TriggerOffers.EventOutcome` | crates/autopiercam-chatstronomy/src/triggers.rs:304-335 | What any event but a completion does to a pending completion and to the burst: takes over, begins, or is ignored. |
| `TriggerOffers.CompletionOutcome` | crates/autopiercam-chatstronomy/src/triggers.rs:266-302 | A completion takes the slot exactly when it is free, out of time, or held by the same telescope for another session. |
| `TriggerOffers.QueuedOutcome` | crates/autopiercam-chatstronomy/src/triggers.rs:422-451 | A post-slew image uses up the completion and ends the burst of its slew; any other image uses up one of its burst and holds the next one back. |
| `TriggerRuns.StepPreserves` | crates/autopiercam-chatstronomy/src/triggers.rs:212-452 | Every call keeps the invariant relating the scheduler to all images queued so far. |
| `TriggerRuns.OneImagePerCompletion` | crates/autopiercam-chatstronomy/src/triggers.rs:266-302 | Each accepted slew completion is answered at most once: same session, later frame, exposed after the completion, within an hour. |
| `TriggerRuns.PendingCompletionHeld` | crates/autopiercam-chatstronomy/src/triggers.rs:266-313 | Before its deadline no single event changes a pending completion except its own telescope, and no duplicate moves its deadline. |
| `TriggerRuns.SlotFreedBeforeNext` | crates/autopiercam-chatstronomy/src/triggers.rs:266-378 | Over every history, between two accepted completions there is a step at which the first was answered, had expired, was superseded by its own telescope or lost its capture session. |
| `TriggerRuns.BurstsBounded` | crates/autopiercam-chatstronomy/src/triggers.rs:380-451 | Every burst queues at most its quota, one image if periodic and the configured number otherwise, of one session, in increasing sequence and spacing, with captions 1..n about frames newer than the event. |
| `TriggerRuns.QueuedImagesFresh` | crates/autopiercam-chatstronomy/src/triggers.rs:361-399 | In every history a queued image is of a frame captured at most 120 seconds before the wall clock of its poll, and at most 30 after it; a post-slew image never after it. |
| `TriggerRuns.FiringsUseFreshSlots` | crates/autopiercam-chatstronomy/src/triggers.rs:139-173 | However the wall clock jumps, firings use strictly increasing UTC slots, missed slots collapse, and a poll fires exactly when it lies in a later slot than the last firing. |
| `TriggerRuns.FirstFiring` | crates/autopiercam-chatstronomy/src/triggers.rs:149-173 | After another interval is configured nothing fires in the running slot: the first poll to fire is the first that lies in a later one. |
| `Snapshot.RemoteLimitsOnlyTighten` | crates/autopiercam-chatstronomy/src/snapshot.rs:33-117 | Whatever the Hub asks, an admitted frame is of the requesting consent and session, at most two minutes old and within 90 seconds of the request, and an admitted image is at most 512 KiB. |
| `Snapshot.RequestTakenExactly` | crates/autopiercam-chatstronomy/src/snapshot.rs:48-72 | Exactly which requests are taken: snapshots allowed, a running session, an expiry in the future that fits, and positive limits. |
| `Snapshot.ServedExactly` | crates/autopiercam-chatstronomy/src/snapshot.rs:84-104 | Exactly which frames serve a request, on its terms, the two clocks and the consent now in force. |
| `Outbox.StepPreserves` | crates/autopiercam-chatstronomy/src/transport.rs:119-223 | Every step of the reconnect loop and of a session keeps the invariant on outbox, request and record of sends. |
| `Outbox.AutomaticSendsSpaced` | crates/autopiercam-chatstronomy/src/transport.rs:518-553 | Across acknowledgements, retries and reconnects an automatic send never starts within 60 seconds of the end of an earlier one. |
| `OutboxDelivery.SentImagesFresh` | crates/autopiercam-chatstronomy/src/transport.rs:462-551 | Whatever is sent was found fresh on the way, with nothing put in its place since: of the session a look had just found, at most 300 seconds old and 30 early, with no upload under way, snapshots first, not before its retry time. |
| `OutboxDelivery.ChecksDecide` | crates/autopiercam-chatstronomy/src/transport.rs:528-545 | What each check before a send drops, refuses or lets pass. |
| `OutboxDelivery.AnsweredNeverSentAgain` | crates/autopiercam-chatstronomy/src/transport.rs:436-457 | An image the Hub has answered for good is never sent again. |
| `OutboxDelivery.ImageWaitsUntil` | crates/autopiercam-chatstronomy/src/transport.rs:89-222 | An automatic image waits unchanged until it is answered for, found stale on raw clock and session, or everything is dropped; exactly then it goes. |
| `OutboxDelivery.NothingOldSentAfterwards` | crates/autopiercam-chatstronomy/src/transport.rs:149-222 | What is sent after an accepted rule change, a read with sharing off, a cancelled or finally refused session, or a change of consent in the back-off, was made after it. |
| `OutboxDelivery.SnapshotsEndWithConnection` | crates/autopiercam-chatstronomy/src/transport.rs:89-98 | A snapshot made before the loop was last outside a session is never sent. |
| `OutboxDelivery.RetryWaits` | crates/autopiercam-chatstronomy/src/transport.rs:438-441 | After the Hub asks for an image again it does not go before the pause asked for, held between a minute and an hour, across sessions. |
| `OutboxDelivery.ResendsSpaced` | crates/autopiercam-chatstronomy/src/transport.rs:543-552 | Between two sends of one image lies at least a minute. |
| `OutboxDelivery.RequestTaken` | crates/autopiercam-chatstronomy/src/transport.rs:425-435 | A request is taken exactly when none is open, no automatic image waits, no movie is being uploaded and it can be served at all. |
| `OutboxDelivery.RequestStaysUntil` | crates/autopiercam-chatstronomy/src/transport.rs:396-504 | An open request stays as it is until the session is left, rules change, its image is answered for or cannot be encoded, or the frame found is not admitted; exactly then it goes. |
| `OutboxDelivery.SnapshotSent` | crates/autopiercam-chatstronomy/src/transport.rs:488-551 | For any image there is a history in which it is encoded for a request and sent. |
| `Outbox.ResendsIdentical` | crates/autopiercam-chatstronomy/src/transport.rs:91-111 | All sends under one identifier carry the same bytes of the same capture session. |
| `Outbox.OutboxAndRequestExclusive` | crates/autopiercam-chatstronomy/src/transport.rs:425-457 | An automatic image is never held while a snapshot request is open, and a snapshot only while one is. |
| `Outbox.SnapshotFencedByItsRequest` | crates/autopiercam-chatstronomy/src/transport.rs:537-541 | The fence check that lets a snapshot go finds the session and epoch its request met, within 90 seconds of the request, and the image made in that epoch. |
| `Outbox.CheckedInOwnEpoch` | crates/autopiercam-chatstronomy/src/transport.rs:131-223 | The epoch check before a send finds an automatic image of the current epoch exactly when no earlier read of the epoch found the epoch moved and the image in the outbox. |
| `Outbox.StartedInOwnEpoch` | crates/autopiercam-chatstronomy/src/transport.rs:528-553 | Every automatic image on its way has passed an epoch check, and starts in the epoch it was made in exactly when it was not so carried before it and the epoch has not moved since. |
| `Outbox.CarriedInTwoWays` | crates/autopiercam-chatstronomy/src/transport.rs:159-223 | A read of the epoch carries an image past a move of it exactly when a move ended a wait for a usable origin or credential, or came between the end of the back-off and the read. |
| `Outbox.CheckedUnderOwnSettings` | crates/autopiercam-chatstronomy/src/transport.rs:138-181 | The epoch check finds an automatic image made under the settings in force exactly when the loop never chose to go on under new settings while the image waited. |
| `Outbox.AdoptedOnceWritten` | crates/autopiercam-chatstronomy/src/service.rs:530-547 | A choice goes on under new settings over a waiting image exactly when a commit wrote them with sharing on and neither a commit switched them off nor another choice was made since; while they are off a choice drops the image. |
| `Outbox.SentUnderLaterConsent` | crates/autopiercam-chatstronomy/src/transport.rs:163-181 | For any image there is a history in which it is made under one consent and sent in a later epoch, under settings written since. |
| `Observation.History.Clear` | crates/autopiercam-chatstronomy/src/observation.rs:408-411 | Clearing forgets samples and session. |
| `Observation.History.Session` | crates/autopiercam-chatstronomy/src/observation.rs:412-417 | A different or missing session clears the history. |
| `Observation.History.Accept` | crates/autopiercam-chatstronomy/src/observation.rs:418-451 | Accepting is exactly the specified function: ignored, refused as a replay, clearing, or pushed; the history stays sound. |
| `Observation.History.Push` | crates/autopiercam-chatstronomy/src/observation.rs:452-468 | A push drops what a new epoch or an unavailable state invalidates and keeps the newest 128 samples. |
| `Observation.History.Overlay` | crates/autopiercam-chatstronomy/src/observation.rs:469-518 | The search from the newest sample back and the checks after it give a frame the text of the newest sample received by its capture, while that is valid. |
| `Observation.History.Describe` | crates/autopiercam-chatstronomy/src/observation.rs:490-517 | The lines built step by step are target, then saved exposures and the chosen temperature while it is valid; an unreadable end of validity gives none. |
| `ObservationMeaning.MessageValidExactly` | crates/autopiercam-chatstronomy/src/observation.rs:433-448 | Exactly which messages are well-formed, on their fields and times. |
| `ObservationMeaning.MessageOutcome` | crates/autopiercam-chatstronomy/src/observation.rs:418-468 | Exactly what one message does: ignored, clearing, refused as a replay, or the newest sample after those of its epoch, of which 128 are kept. |
| `ObservationMeaning.OverlayExactly` | crates/autopiercam-chatstronomy/src/observation.rs:469-489 | A frame shows the text of the newest sample received by its capture exactly while that is valid on both clocks, available and of the chosen telescope. |
| `ObservationMeaning.LinesExactly` | crates/autopiercam-chatstronomy/src/observation.rs:490-517 | The text: target, then saved exposures and the chosen temperature, as far as asked for, known and valid at the capture. |
| `ObservationMeaning.NothingReceivedNothingShown` | crates/autopiercam-chatstronomy/src/observation.rs:469-481 | A frame captured before every sample was received shows nothing. |
| `ObservationMeaning.ShownOnceReceived` | crates/autopiercam-chatstronomy/src/observation.rs:418-518 | From message to frame: text received at some moment is shown on frames from then on, until its validity ends on either clock. |
| `Observation.AcceptedSound` | crates/autopiercam-chatstronomy/src/observation.rs:418-468 | Accepting anything keeps samples valid, of one epoch, ordered by receipt, observation and revision, and at most 128. |
| `Observation.AcceptNeverRelabels` | crates/autopiercam-chatstronomy/src/observation.rs:418-518 | An observation accepted at time m leaves every frame captured before m with its old text or none. |
| `Observation.FrameNeverRelabelled` | crates/autopiercam-chatstronomy/src/observation.rs:408-518 | The same over any sequence of observations, session changes and clears. |
| `Observation.NewestNeverOlder` | crates/autopiercam-chatstronomy/src/observation.rs:437-447 | An accepted message never puts an older observation, receipt or revision in the newest place. |
| `Observation.WatermarkHolds` | crates/autopiercam-chatstronomy/src/observation.rs:437-467 | Until a clear the newest sample only gets newer and there are never more than 128. |
| `Observation.WithdrawalForgets` | crates/autopiercam-chatstronomy/src/observation.rs:452-459 | An unavailable state removes every label, a new epoch those of frames captured before it. |
| `Observation.EmptiedExactlyWhenDropped` | crates/autopiercam-chatstronomy/src/observation.rs:418-468 | Within a capture session a message empties the history exactly when it concerns the chosen telescope and is malformed, or is neither refused as a replay nor valid and current. |
| `Observation.ReplayReturnsExactlyWhenDropped` | crates/autopiercam-chatstronomy/src/observation.rs:418-468 | After any one message, an observation older than the newest becomes the newest sample exactly when that message empties the history and the observation is current. |
| `Observation.ReplayNeedsClear` | crates/autopiercam-chatstronomy/src/observation.rs:437-467 | Over any events it becomes the newest again only if the history was emptied or the session changed on the way. |
| `Observation.OutdatedMessageLetsReplayIn` | crates/autopiercam-chatstronomy/src/observation.rs:448-451 | For any target name there is a received history in which a refused replay is accepted and shown again after one out-of-date message. |
| `Medians.MajorityIsMedian` | crates/autopiercam-chatstronomy/src/media.rs:65-68 | A value held by more than half of the elements is their median. |
| `Medians.SortSorts` | crates/autopiercam-chatstronomy/src/media.rs:65-68 | The reference sort returns a sorted permutation. |
| `Medians.MedianInTheMiddle` | crates/autopiercam-chatstronomy/src/media.rs:65-68 | The median is one of the values; at most half of them are smaller and fewer than half are larger. |
| `SceneDetector.CollectSlopes` | crates/autopiercam-chatstronomy/src/media.rs:85-93 | The nested loops collect exactly the slopes of all sample pairs at least 24 apart, in order. |
| `SceneDetector.CountNeighbours` | crates/autopiercam-chatstronomy/src/media.rs:123-133 | The block loops count exactly the marked neighbours of a cell. |
| `SceneDetector.FindSceneChanges` | crates/autopiercam-chatstronomy/src/media.rs:74-137 | The whole fit and filter equal their specification. |
| `SceneDetector.ReportedExactly` | crates/autopiercam-chatstronomy/src/media.rs:118-136 | A cell is reported exactly when it and at least two of the cells touching it are off the fit, with no row wrapping. |
| `SceneDetector.MajorityRecovered` | crates/autopiercam-chatstronomy/src/media.rs:74-137 | If most slopes are s in [1/8, 8] and most offsets are o, no cell following clamp(s*old+o) is reported, and every reported cell touches two others off it. |
| `SceneDetector.ExposureChangeNeverReported` | crates/autopiercam-chatstronomy/src/media.rs:70-137 | A frame that is an exposure change of the reference in every cell, with gain in [1/8, 8] and some measurable slope or gain one, reports none. |
| `SceneRecovery.ReportedExactlyWhenChanged` | crates/autopiercam-chatstronomy/src/media.rs:74-137 | If most slopes are s and most offsets o, exactly the cells are reported that with two of their neighbours have a usable base and are brighter or darker than clamp(s*old+o) by more than both 16 and 15 percent of the brighter value. |
| `SceneRecovery.ComparedWhenEnoughUnclipped` | crates/autopiercam-chatstronomy/src/media.rs:75-83 | A comparison is made exactly when at least a fifth of the cells lie within [8, 247) in both images. |
| `SceneRecovery.PairsAreUnclippedCells` | crates/autopiercam-chatstronomy/src/media.rs:75-80 | The fit uses exactly these cells, in grid order. |
| `SceneRecovery.SamplesSpread` | crates/autopiercam-chatstronomy/src/media.rs:85 | The 64 samples are spread evenly over them. |
| `SceneRecovery.SlopesOfFarPairs` | crates/autopiercam-chatstronomy/src/media.rs:86-93 | The slopes are exactly those of the sample pairs at least 24 grey levels apart, each once. |
| `SceneRecovery.OffsetsLeftOver` | crates/autopiercam-chatstronomy/src/media.rs:106 | The offset of a pair is what the slope leaves of its seen value. |
| `SceneWatch.Detector.Delivered` | crates/autopiercam-chatstronomy/src/media.rs:158-162 | A delivered reference is taken only in its own session. |
| `SceneWatch.Detector.TrackMode` | crates/autopiercam-chatstronomy/src/media.rs:180-205 | The day/night candidate is tracked, settled or dropped as specified. |
| `SceneWatch.Detector.Observe` | crates/autopiercam-chatstronomy/src/media.rs:164-229 | Observing a frame reports what the specification says in every branch, errors included. |
| `SceneWatch.ReportsExactly` | crates/autopiercam-chatstronomy/src/media.rs:206-228 | Exactly when a scene change is reported: a new frame, wanted, comparable with the reference, with at least the configured percentage of cells changed. |
| `SceneWatch.TransitionReported` | crates/autopiercam-chatstronomy/src/media.rs:181-201 | Another mode shown by every new frame is reported, if wanted, with the first one 30 seconds or more after it appeared. |
| `SceneWatch.ReferenceTaken` | crates/autopiercam-chatstronomy/src/media.rs:209-217 | The first usable frame of a session becomes its reference; until then there is none. |
| `SceneWatch.TransitionSettled` | crates/autopiercam-chatstronomy/src/media.rs:184-201 | A day/night transition is reported only after every new frame for at least 30 seconds showed the new mode. |
| `SceneWatch.ReferenceHeld` | crates/autopiercam-chatstronomy/src/media.rs:146-162 | Only a delivered scene change or a new capture session ever replaces the reference. |
| `TimelapseSchedule.LocalBoundary` | crates/autopiercam-core/src/timelapse_schedule.rs:74-85 | The search loop returns the earliest reading of the first local minute that exists within three hours. |
| `TimelapseSchedule.FirstValidMeaning` | crates/autopiercam-core/src/timelapse_schedule.rs:74-85 | A boundary exists exactly when some minute of the range does, and is that of the first one. |
| `TimelapseSchedule.BoundaryMeaning` | crates/autopiercam-core/src/timelapse_schedule.rs:74-85 | A boundary is the earlier reading of the first local minute that exists among the 181 from the wanted one on. |
| `TimelapseSchedule.NoBoundary` | crates/autopiercam-core/src/timelapse_schedule.rs:74-85 | There is none when none of these 181 minutes exists. |
| `TimelapseSchedule.FindNight` | crates/autopiercam-core/src/timelapse_schedule.rs:157-179 | The minute loop returns the scan's dusk and dawn. |
| `TimelapseSchedule.NightMeaning` | crates/autopiercam-core/src/timelapse_schedule.rs:157-179 | A night is found exactly when the sampled day has one (below the threshold from dusk up to dawn, not just before dusk nor at dawn, and the first such) and the altitude is known up to its dawn. |
| `TimelapseSchedule.Plan` | crates/autopiercam-core/src/timelapse_schedule.rs:121-199 | The planner equals its specification. |
| `TimelapseSchedule.RestartResumesWindow` | crates/autopiercam-core/src/timelapse_schedule.rs:121-199 | Planning at any instant inside a window gives the identical window; in dusk-to-dawn mode exactly when local noons exist there, otherwise none. |
| `TimelapseSchedule.WindowsNeverOverlap` | crates/autopiercam-core/src/timelapse_schedule.rs:121-199 | Windows planned at any two instants are equal or disjoint. |
| `TimelapseSchedule.DuskToDawnIsNight` | crates/autopiercam-core/src/timelapse_schedule.rs:138-179 | A dusk-to-dawn window runs from the first dusk after the last solar noon (UTC plus four minutes per degree east within half a minute of noon) to the dawn after it, in a night that holds the instant. |
| `TimelapseSchedule.FirstSendTime` | crates/autopiercam-core/src/timelapse_schedule.rs:182-192 | A daily delivery waits for the first configured local time at or after the window's end. |
| `TimelapseSchedule.AnchorHolds` | crates/autopiercam-core/src/timelapse_schedule.rs:141-151 | Solar days are disjoint: the anchor is the same for every instant of one, for every longitude. |
| `TimelapseSchedule.AnchorIsSolarNoon` | crates/autopiercam-core/src/timelapse_schedule.rs:141-150 | The anchor is the last instant at or before the given one whose mean solar time is within half a minute of noon. |
| `TimelapsePlans.PlannedOnlyWhenConfigured` | crates/autopiercam-core/src/timelapse_schedule.rs:95-123 | Nothing is planned without a zone, a delivery minute within the day and, from dusk to dawn, a place on earth. |
| `TimelapsePlans.UtcDayPlanned` | crates/autopiercam-core/src/timelapse_schedule.rs:125-127 | A UTC day is planned exactly as the day of the instant, if its delivery can be. |
| `TimelapsePlans.NoonToNoonPlanned` | crates/autopiercam-core/src/timelapse_schedule.rs:128-135 | From noon to noon: exactly between the local noons around the instant. |
| `TimelapsePlans.NoonWindowIsNoonToNoon` | crates/autopiercam-core/src/timelapse_schedule.rs:128-135 | Every noon-to-noon window lies between the local noons of two dates that follow each other and holds the instant. |
| `TimelapsePlans.NightPlanned` | crates/autopiercam-core/src/timelapse_schedule.rs:136-181 | From dusk to dawn: exactly the first night after the last solar noon, if the instant lies in it, its altitudes are known and the local noons exist. |
| `TimelapseSchedule.RestartRefused` | crates/autopiercam-core/src/timelapse_schedule.rs:128-133 | A schedule, zone and two instants of one night exist where the restart is refused. |
| `PreviewGeometry.FitIsExact` | crates/autopiercam-core/src/image.rs:273-293 | The preview exceeds neither source nor bounds, fills one bound when it shrinks, is within half a pixel of exact aspect unless forced to one, and no final clamp binds. |
| `PreviewGeometry.SourceInRange` | crates/autopiercam-core/src/image.rs:295-304 | Every preview pixel samples an existing source pixel, the centred one, without the clamp; equal extents sample themselves. |
| `PreviewGeometry.SourceStrictlyIncreases` | crates/autopiercam-core/src/image.rs:295-304 | Source coordinates strictly increase with the preview coordinate. |
| `Demosaic.NeighborAverage` | crates/autopiercam-core/src/image.rs:339-366 | The clamped double loop computes the mean, rounded half up, of the same-colour samples among the nine places, or the native sample. |
| `Demosaic.DemosaicPixel` | crates/autopiercam-core/src/image.rs:307-325 | Writes the three samples of one pixel, untruncated, and nothing else. |
| `Demosaic.DemosaicBilinear` | crates/autopiercam-core/src/image.rs:20-44 | Returns the full interpolated image or the error for the size, in the source's order of checks. |
| `Demosaic.DemosaicBilinearPreview` | crates/autopiercam-core/src/image.rs:51-88 | Returns the fitted size and exactly the interpolated source pixels, or the error. |
| `Demosaic.DemosaicBilinear16` | crates/autopiercam-core/src/image.rs:188-246 | The same for little-endian 16-bit samples, with all bits kept. |
| `Demosaic.RasterAt` | crates/autopiercam-core/src/image.rs:29-42 | Each place of the interleaved buffer holds the sample of exactly one pixel and colour. |
| `Demosaic.PreviewSamplesFullImage` | crates/autopiercam-core/src/image.rs:46-88 | Every preview sample is the full-resolution sample at its source coordinate; unshrunk previews are the full image. |
| `Demosaic.NeighborsCounted` | crates/autopiercam-core/src/image.rs:339-366 | Something is averaged exactly when an adjacent sample of that colour exists. |
| `Demosaic.InterpolatedBetweenNeighbors` | crates/autopiercam-core/src/image.rs:339-366 | In images of at least 2x2 every missing colour has neighbours and lies between any bounds they share. |
| `DemosaicMeaning.NativeSampleKept` | crates/autopiercam-core/src/image.rs:316-336 | Every raw sample is kept at its own pixel in the channel of its filter, named for each corner of the cell of each pattern. |
| `DemosaicMeaning.BilinearInside` | crates/autopiercam-core/src/image.rs:307-366 | Inside the image: green at red and blue is the mean of the four sides, the third colour that of the corners, the others at green those of its two sides. |
| `DemosaicMeaning.MeanOfNeighbors` | crates/autopiercam-core/src/image.rs:339-366 | Anywhere a missing colour is the mean of its neighbours to the nearest whole number, halves up; without any, the native sample. |
| `Demosaic.ValueWithinPlane` | crates/autopiercam-core/src/image.rs:307-366 | For every size every output sample stays within any bounds of the input, so casts never truncate and uniform planes stay uniform. |
| `Demosaic.HighBytePathAgrees` | crates/autopiercam-core/src/image.rs:188-263 | For every size and pattern the demosaic of the high bytes is within one of the high byte of the 16-bit demosaic, and equal at native samples. |
| `ImageBuffers.HighBytes` | crates/autopiercam-core/src/image.rs:250-263 | The high bytes are the 16-bit words divided by 256. |
| `ImageStats.StridedAt` | crates/autopiercam-core/src/image.rs:100-110 | The samples are exactly the values at the multiples of the stride. |
| `ImageStats.PercentileOf` | crates/autopiercam-core/src/image.rs:368-378 | The loop returns the first value whose cumulative count reaches the target. |
| `ImageStats.PercentileIsOrderStatistic` | crates/autopiercam-core/src/image.rs:368-378 | For every sorted order of the samples a percentile is the sample of rank ceil(fraction*n), at least one. |
| `ImageStats.PercentilesOrdered` | crates/autopiercam-core/src/image.rs:380-394 | A larger fraction never gives a smaller percentile, so p50 never exceeds p90. |
| `ImageStats.StatsFromHistogram` | crates/autopiercam-core/src/image.rs:380-394 | Mean, percentiles and clipped fraction are those of the samples; no samples is an error. |
| `ImageStats.StatsMeaning` | crates/autopiercam-core/src/image.rs:380-394 | The statistics in terms of the samples: mean, samples of ranks one half and nine tenths, and the fraction at 250 or above. |
| `ImageStats.Raw8Stats` | crates/autopiercam-core/src/image.rs:100-111 | The histogram loop gives the statistics of the strided samples, stride zero counting as one. |
| `ImageStats.Raw16Stats` | crates/autopiercam-core/src/image.rs:113-133 | For every even length and stride the result is that of the 8-bit statistics of the high bytes; odd lengths are an error. |
| `AdaptiveExposure.Controller.Vote` | crates/autopiercam-core/src/exposure.rs:85-102 | One observation updates mode and votes as specified. |
| `AdaptiveExposure.Controller.Observe` | crates/autopiercam-core/src/exposure.rs:85-141 | The next setting is the specified one and always within the limits in force. |
| `AdaptiveExposure.Controller.UpdateLimits` | crates/autopiercam-core/src/exposure.rs:69-83 | New limits replace the old ones and leave the day/night history alone. |
| `AdaptiveExposure.Controller.InitialExposure` | crates/autopiercam-core/src/exposure.rs:55-61 | The initial exposure is permitted, and that of the mode where the limits allow it. |
| `ExposureResponse.ResponseToEveryFrame` | crates/autopiercam-core/src/exposure.rs:103-141 | The next exposure and gain for every measured percentile, by comparing it with the target in whole numbers: unchanged within ten percent, longer or more gain when darker, shorter or less gain when brighter, and in which order. |
| `AdaptiveExposure.Controller.WithInitialMode` | crates/autopiercam-core/src/exposure.rs:50-53 | A fresh session is seeded with a mode and nothing else changes. |
| `AdaptiveExposure.Controller.SetGainFirst` | crates/autopiercam-core/src/exposure.rs:64-66 | The gain-first choice changes and nothing else. |
| `AdaptiveExposure.BlackBrightens` | crates/autopiercam-core/src/exposure.rs:103-140 | With a target of at least 2 a black frame strictly decreases the distance to the brightest setting, or keeps that setting. |
| `AdaptiveExposure.BlackReachesMaximum` | crates/autopiercam-core/src/exposure.rs:103-140 | From any permitted setting, gain-first switched at will, black frames reach maximum exposure and gain and stay. |
| `AdaptiveExposure.ClippingDarkens` | crates/autopiercam-core/src/exposure.rs:103-140 | A clipped frame strictly decreases the distance to the darkest setting, or keeps it. |
| `AdaptiveExposure.ClippingReachesMinimum` | crates/autopiercam-core/src/exposure.rs:103-140 | Clipped frames reach minimum exposure and gain and stay. |
| `AdaptiveExposure.TargetOneSticks` | crates/autopiercam-core/src/exposure.rs:104-121 | With gain-first on or off, black frames move every other setting exactly when the target is at least 2 or the limits leave no choice. |
| `AdaptiveExposure.VotesAreEvidence` | crates/autopiercam-core/src/exposure.rs:86-95 | Pending votes are exactly a tail of observed exposures for the other mode. |
| `AdaptiveExposure.FlipsAfterThreeVotes` | crates/autopiercam-core/src/exposure.rs:86-102 | The mode flips with an observation exactly when it and the two before it, all finding the same mode, speak for the other. |
| `PreviewFraming.LengthRoundTrip` | crates/autopiercam-tray/src/preview.rs:281-291 | A 32-bit length written low byte first is read back. |
| `PreviewFraming.WireLayout` | crates/autopiercam-tray/src/preview.rs:281-291 | Every place of an encoded frame: the length of the metadata low byte first, the metadata, the length of the JPEG, the JPEG. |
| `PreviewFraming.JpegTestsAgree` | crates/autopiercam-protocol/src/lib.rs:1090-1104 | Writer and reader accept the same JPEGs although only the reader asks for four bytes. |
| `PreviewFraming.FrameRoundTrip` | apps/AutoPierCam.Viewer/PreviewPipeClient.cs:238-299 | Every frame the writer accepts is parsed back with exactly the bytes behind it left over. |
| `PreviewFraming.CutFrameNotDelivered` | apps/AutoPierCam.Viewer/PreviewPipeClient.cs:238-299 | A frame cut at any byte is never delivered. |
| `PreviewFraming.CutStreamDeliversWholeFrames` | apps/AutoPierCam.Viewer/PreviewPipeClient.cs:149-204 | Of an ordered stream cut anywhere exactly the whole frames are delivered, in order and unchanged. |
| `PreviewFraming.StreamRoundTrip` | apps/AutoPierCam.Viewer/PreviewPipeClient.cs:149-204 | Every ordered sequence of writable frames is read back as written. |
| `PreviewFraming.DeliveredInOrder` | apps/AutoPierCam.Viewer/PreviewPipeClient.cs:349-366 | From arbitrary bytes the delivered frames have strictly increasing sequence, non-decreasing session and valid markers. |
| `PreviewFraming.DeliveredExactly` | apps/AutoPierCam.Viewer/PreviewPipeClient.cs:238-366 | Bytes framed within the limits are delivered exactly when the metadata can be decoded and the JPEG has both markers, with the rest left over; otherwise they are refused. |
| `PreviewFraming.DeliveredWasFramed` | apps/AutoPierCam.Viewer/PreviewPipeClient.cs:238-299 | Every delivered frame lies in the stream as metadata and JPEG behind their lengths. |
| `PreviewFraming.BadFrameEndsConnection` | apps/AutoPierCam.Viewer/PreviewPipeClient.cs:153-204 | Behind an ordered sequence of frames, bytes that are no frame or a frame out of order end the connection: exactly the frames before are delivered. |
| `PreviewPipe.PipeWriter.WriteFrame` | crates/autopiercam-tray/src/preview.rs:250-293 | Nothing is written of a frame the reader would refuse; of any other its encoding, or the part the pipe took. |
| `PreviewPipe.PipeReader.ReadExactly` | apps/AutoPierCam.Viewer/PreviewPipeClient.cs:368-388 | Pieces of any size fill the buffer with exactly the next bytes, or the stream had too few. |
| `PreviewPipe.PipeReader.ReadFrame` | apps/AutoPierCam.Viewer/PreviewPipeClient.cs:238-299 | A read gives exactly what parsing the bytes gives, however they are split, and consumes exactly one frame. |
| `PreviewPipe.PipeReader.ReadConnection` | apps/AutoPierCam.Viewer/PreviewPipeClient.cs:149-204 | A connection delivers exactly the stream's frames for every way of splitting the bytes. |
| `PreviewPipe.Transfer` | apps/AutoPierCam.Viewer/PreviewPipeClient.cs:149-204 | Writer and reader together: the viewer delivers exactly the frames written whole before the pipe broke. |
| `PreviewHub.StepPreserves` | crates/autopiercam/src/preview.rs:49-121 | Every step of sessions, encoders and a connection keeps the numbering invariant. |
| `PreviewHub.ViewerDeliversWhatWasSent` | crates/autopiercam-tray/src/preview.rs:211-236 | In every history, and wherever the connection breaks, the viewer's order check refuses no frame of this agent and it delivers all that arrived whole. |
| `PreviewHub.FrameOfCurrentSession` | crates/autopiercam/src/preview.rs:73-121 | A session that was replaced or ended cannot bring a frame back, however late its encoder publishes. |
| `PreviewHub.PublishedFrameSent` | crates/autopiercam-tray/src/preview.rs:219-240 | A frame published by the running session is what the next poll sends, or it ends the connection if it cannot be written; one of another session changes nothing. |
| `PreviewHub.SessionEndEndsConnection` | crates/autopiercam-tray/src/preview.rs:224-236 | After the session has ended a poll sends nothing, and ends the connection exactly if it has sent a frame. |

## Left out

- Locks, tasks and atomics of `service.rs` and `transport.rs` are not Dafny classes: their methods
  interleave, so they are transition systems over values; aliasing and memory ordering weaker than
  sequential consistency are not captured.
- The clocks an outbox check reads are read with its one load. Encoding an event image and putting it into
  the outbox are one step, taken when the encoding ends; its conditions are the task's own and still hold.
- Taking the settings lock, reading the settings under it and the first load after that are one step, since
  only the holder of the lock writes settings.
- The bytes of a movie copy and its chunked upload stream (`movie.rs`): an offer's copy is a repeated
  cancellable step; files, free space and size ceilings are its outcomes.
- HTTP statuses, the wait between upload attempts and its end by a change of capture, and negotiated size
  limits: outcomes of a step.
- The clearing of observations by a commit is a `Clearing` event of `Observation`, not tied to the epoch.
- Detector resets on reconnect and on accepted chat rules: `SceneWatch` starts fresh at each.
- The acknowledgement that hands a delivered scene image to the detector: `SceneWatch` takes a delivery at
  any time, whatever the outbox does.
- Hub origins are canonical strings, timestamps are already-parsed integers, captions are structured
  values instead of text, and the credential store is a yes/no outcome.
- Counters never wrap at 2^64, except that periodic slots saturate as the code does.
- Arithmetic the code does in f32 or f64 is exact here: scene fit, exposure ratio, mean, percentile
  targets, solar noon rounding (half away from zero).
- Solar trigonometry and the time zone database: uninterpreted functions; `TimelapseSchedule` asks of the
  zone only that noons lie on the right side of each instant.
- TriggerRuns.BurstsBounded: assumes, like the code, that frame sequences do not fall within a session and
  that burst counts are at least one.
- TriggerRuns.FiringsUseFreshSlots: covers an unchanged interval; a changed one starts a new schedule,
  whose first firing is `TriggerRuns.FirstFiring`.
- PreviewPipe.PipeReader.ReadFrame: an I/O error and the assembly timeout look like the end of the data,
  since all of them end the connection without a frame.
- PreviewHub.ViewerDeliversWhatWasSent: sessions begin on one thread, one encoder publishes per session, and
  the JSON codec is any pair of functions that decode what they encode.
- Snapshot.RemoteLimitsOnlyTighten: request identifiers are not modelled.
- Reconnect backoff, connection states and epochs of the viewer's pipe client.
- `luma_stats` on RGB, caption vocabularies, configuration range checks, form number parsing: easy members.
- Camera drivers, encoding of JPEG and JSON, tray and window code, sockets and TLS.
