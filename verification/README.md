# mx-agent: a verified model

A Dafny model of the parts of mx-agent whose correctness is hardest to see by reading, with proofs about them.
Every statement is about all inputs, all runs or all reachable states of the model; where the system's own
promise turns out not to hold unconditionally, the model gives an input that shows it and the exact condition
under which it does hold.

- **Streams** (`ReorderLaw`, `StreamReorder`, `ReorderBuffer`, `ReorderTheorems`, `Rendering`,
  `RenderingTheorems`, `Transmission`, `Reports`). Output chunks of a remote command arrive at least once and in any
  order. The law of a stream is stated without any buffer, as a function of its past and the window; the classes that update a
  boundary and a table in place are proved to keep that law, and the theorems follow from the law alone.
- **Timestamps** (`Calendar`, `Timestamps`). The formatter that stamps approvals and the parser that reads the
  stamps back, against naive counting of years, months and days.
- **Approvals** (`Replay`, `Approval`, `ApprovalProtocol`, `ApprovalOwnership`, `ApprovalReleases`, `ApprovalOnce`,
  `ApprovalDaemon`, `ApprovalRaces`). The nonce cache, the queue of held requests and the protocol by which an
  operator's signed decision releases one, as a state machine in which loads, checks, nonce burns, saves,
  crashes and failed writes of any number of concurrent handlers and scheduler passes interleave freely. The daemon's own operations
  are classes proved to be runs of that machine.
- **Delivery** (`CiLoop`, `FixLoops`, `DeliveryLaw`, `Delivery`, `StateFile`, `Cost`). The phased pipeline that takes
  an issue to a merged pull request: its repair loops against an adversarial environment, resume over any number of
  runs by either engine, the gated merge, the shared state file, and the three-level cost account.
- **Agent server** (`Transcript`, `OpencodeServer`). The replay-tolerant transcript and the start/stop protocol
  of the self-spawned server.

`dafny verify dfyconfig.toml` checks the whole project.

## Model

| member | source | states |
|---|---|---|
| `StreamReorderBuffer.StreamReorder.Push` | crates/mx-agent-cli/src/stream.rs:148-185 | accepting a chunk releases and gives up exactly what the closed-form law demands of the extended past, for a first copy, a repeat, a chunk that fills the boundary and a window overflow alike |
| `StreamReorderBuffer.StreamReorder.FlushAll` | crates/mx-agent-cli/src/stream.rs:188-198 | a flush releases everything waiting and gives up every gap below it, as the law demands |
| `StreamReorderBuffer.StreamReorder.DrainContiguous` | crates/mx-agent-cli/src/stream.rs:201-206 | draining moves the boundary over the contiguous run and nothing else |
| `ReorderLaw.FateIsFinal` | crates/mx-agent-cli/src/stream.rs:148-185 | below the boundary a number's fate, received or lost, never changes again |
| `ReorderTheorems.LossLaw` | crates/mx-agent-cli/src/stream.rs:148-185 | while accepting, a number is declared lost if and only if more than the window's number of distinct higher numbers arrived before its first arrival, or ever if it never arrives |
| `ReorderTheorems.NothingLostIffOvertakenAtMostWindow` | crates/mx-agent-cli/src/stream.rs:148-185 | nothing is lost if and only if every number is overtaken by at most the window's number of higher ones |
| `ReorderTheorems.LossIsForGood` | crates/mx-agent-cli/src/stream.rs:148-185 | a late arrival of a lost number does not undo the loss |
| `ReorderTheorems.Accounting` | crates/mx-agent-cli/src/stream.rs:136-207 | released and lost numbers ascend strictly, partition the numbers below the boundary, and each released chunk is the first copy of its number |
| `ReorderTheorems.WaitingIsBounded` | crates/mx-agent-cli/src/stream.rs:136-185 | what waits lies strictly above the boundary, and at most the window's number of chunks wait |
| `ReorderTheorems.RepeatChangesNothing` | crates/mx-agent-cli/src/stream.rs:148-185 | a repeat of any received number changes neither the boundary nor what is released, lost or waiting |
| `ReorderTheorems.FlushReachesTop` | crates/mx-agent-cli/src/stream.rs:188-198 | after a flush the boundary is just past the highest number received, and nothing waits any more |
| `ReorderTheorems.FlushLossLaw` | crates/mx-agent-cli/src/stream.rs:188-198 | after a flush a number is lost if and only if it was lost while accepting, even if it has arrived since, or it lies below the highest received and never came |
| `ReorderTheorems.OrderIndependence` | crates/mx-agent-cli/src/stream.rs:148-207 | two pasts with the same chunks and no loss while accepting release the same sorted chunks after a flush and report the same gaps, whatever the order, the repeats and the windows |
| `ReorderTheorems.WholeStream` | crates/mx-agent-cli/src/stream.rs:148-207 | a stream that lost nothing was released as 0, 1, 2, ... up to the highest number received |
| `ReorderBuffers.ReorderBuffer.constructor` | crates/mx-agent-cli/src/stream.rs:222-229 | a window of zero counts as one |
| `ReorderBuffers.ReorderBuffer.Accept` | crates/mx-agent-cli/src/stream.rs:233-245 | a chunk moves its own stream as the law demands of that stream's own sub-sequence; all other streams stand still |
| `ReorderBuffers.ReorderBuffer.FlushStreams` | crates/mx-agent-cli/src/stream.rs:248-259 | every stream is flushed as if alone, in whatever order the table is iterated |
| `Rendering.ResolveExitCode` | crates/mx-agent-cli/src/stream.rs:264-297 | the status fits a byte, is zero for a clean exit alone, passes an exit code of a byte through, and for a finish without one is 128 plus the number of the signal, or 128 itself just when no known signal is named |
| `Rendering.StatusNamesTheSignal` | crates/mx-agent-cli/src/stream.rs:264-297 | two finishes without an exit code that share a status above 128 name the same signal, the two names of the abort signal aside |
| `Rendering.SignalStatus` | crates/mx-agent-cli/src/stream.rs:264-297 | the status of a death by signal is 128 plus the number of the signal, name by name, and 128 for any other name |
| `Rendering.RenderReady` | crates/mx-agent-cli/src/stream.rs:303-333 | chunks are checked and written one by one, in order, to the output their stream belongs to |
| `Rendering.SurfaceMissing` | crates/mx-agent-cli/src/stream.rs:420-449 | every detected loss is recorded and reported, and raises the failure flag only in strict mode |
| `Rendering.RenderArtifact` | crates/mx-agent-cli/src/stream.rs:338-367 | an artifact is announced on stderr; a preview is introduced there and then goes to the output of its stream, in both modes alike |
| `Rendering.RenderStream` | crates/mx-agent-cli/src/stream.rs:495-556 | both outputs, the losses, the artifacts and the failure flag are what the one log fixed by the frames leaves behind; the exit status is the first terminal frame's |
| `Rendering.StrictOnlyReports` | crates/mx-agent-cli/src/stream.rs:420-471 | strict and default mode write identical stdout and record identical losses; the failure flag is raised if and only if strict and something was lost or a rendered chunk is not intact |
| `RenderingTheorems.EachStreamAlone` | crates/mx-agent-cli/src/stream.rs:233-259 | within a whole rendering each stream comes out exactly as if it had been received alone and flushed once |
| `RenderingTheorems.ArrivalOrderIrrelevant` | crates/mx-agent-cli/src/stream.rs:495-556 | two transmissions of the same chunks of a stream, without loss while accepting, render it identically whatever else was interleaved |
| `RenderingTheorems.NothingAfterFinish` | crates/mx-agent-cli/src/stream.rs:495-556 | frames after the first terminal frame have no effect on anything |
| `RenderingTheorems.StrictSuccess` | crates/mx-agent-cli/src/stream.rs:495-556 | a strict rendering without failure rendered every stream as its first copies of 0, 1, ... up to the highest received, all intact |
| `RenderingTheorems.StrictFailureMeansDamage` | crates/mx-agent-cli/src/stream.rs:420-471 | conversely, a strict rendering that lost nothing and rendered only intact chunks reports no failure |
| `Transmission.OutputIsWhatCameThrough` | crates/mx-agent-cli/src/stream.rs:495-556 | end to end, whatever else the frames carry and in either mode: the share of the stdout, pty or stderr stream in its destination is exactly the pieces that arrived without being overtaken by more than the window's number of later ones, joined in order; a piece overtaken more often is missing, and no other is |
| `Transmission.OutputIsWhatWasWritten` | crates/mx-agent-cli/src/stream.rs:495-556 | if every piece of such a stream arrived, none after more than the window's number of later ones, and up to the terminal frame nothing else writes to its destination, the destination receives exactly the pieces, joined in order, in either mode |
| `Transmission.OutputOf` | crates/mx-agent-cli/src/stream.rs:310-367 | stdout receives the writes of the stdout and pty streams and of previews, stderr those of the stderr stream and of its previews, in the order of the log, and besides mx-agent's own notices nothing else, in either mode |
| `Transmission.WholeIffLastReceived` | crates/mx-agent-cli/src/stream.rs:495-556 | given strict success over a stream of n chunks, all n were rendered if and only if number n-1 was received; the end mark has no say |
| `Transmission.LostTailIsNotNoticed` | crates/mx-agent-cli/src/stream.rs:31-40 | of intact chunks sent in turn, the last bearing the end mark, any first ones followed by the terminal frame are a strict success |
| `Reports.LossesAreReported` | crates/mx-agent-cli/src/stream.rs:420-449 | in either mode the losses recorded on a stream and those reported on stderr are exactly the numbers its own arrivals give up, in order |
| `Reports.ArtifactsAreRecorded` | crates/mx-agent-cli/src/stream.rs:519-524 | the artifacts recorded are those that came in before the terminal frame, in order |
| `Reports.StrictFailsIff` | crates/mx-agent-cli/src/stream.rs:376-471 | a strict rendering fails if and only if some stream lost a number or rendered a chunk that says base64 and is not, or whose bytes do not have the digest it carries; a default rendering never fails |
| `Reports.DamageIsReported` | crates/mx-agent-cli/src/stream.rs:454-471 | a chunk is reported as invalid if and only if the mode is strict and it was rendered damaged |
| `Calendar.DaysFromCivilCounts` | crates/mx-agent-daemon/src/replay.rs:417-425 | the closed-form day number of any date, in any year before or after 1970, equals naive counting of year and month lengths |
| `Calendar.CivilIsRight` | crates/mx-agent-daemon/src/approval.rs:790-807 | the nested divisions yield a valid Gregorian date whose naive day count is the day number they were given |
| `Calendar.CivilIsBijective` | crates/mx-agent-daemon/src/approval.rs:790-807 | the two conversions undo each other on all days from 1970 on |
| `Calendar.CivilIsMonotone` | crates/mx-agent-daemon/src/approval.rs:790-807 | later days have later dates |
| `Timestamps.FieldsAreRight` | crates/mx-agent-daemon/src/approval.rs:790-807 | for every instant the printed fields are a valid date and time of day and recombine to exactly that instant |
| `Timestamps.FormatterIsInjective` | crates/mx-agent-daemon/src/approval.rs:790-807 | no two instants share a stamp |
| `Timestamps.RoundTrip` | crates/mx-agent-daemon/src/replay.rs:339-413 | parsing a stamp gives back its instant if and only if the instant lies before the year 10000 |
| `Timestamps.ReadsFields` | crates/mx-agent-daemon/src/replay.rs:339-413 | any printed fields, with any fraction and any zone, are read if and only if a T of either case stands between date and time, they are in range (a leap second and a 31st included) and the zone is one; the fraction changes nothing and the offset is taken off |
| `Timestamps.ReadsOtherZones` | crates/mx-agent-daemon/src/replay.rs:381-411 | a valid stamp with any fraction and any numeric offset, with or without colon, denotes its instant less what the zone is ahead of Greenwich; Z of either case is zone zero |
| `Timestamps.OtherZonesRoundTrip` | crates/mx-agent-daemon/src/replay.rs:331-413 | an instant stamped on the clock of another zone reads back as that instant |
| `Timestamps.ReadableIsLaidOut` | crates/mx-agent-daemon/src/replay.rs:339-379 | whatever is read has its marks in place, digits before them, and a zone or fraction after the seconds |
| `Timestamps.NumeralsParse` | crates/mx-agent-daemon/src/replay.rs:345-366 | a numeral reads as its number, bare or signed, a minus sign being for the year and the offset alone |
| `Timestamps.OnlyNumeralsParse` | crates/mx-agent-daemon/src/replay.rs:345-366 | nothing but such numerals is read as a number |
| `Timestamps.StampsSortAsInstants` | crates/mx-agent-daemon/src/approval.rs:790-807 | before the year 10000, lexicographic order of stamps is numeric order of instants |
| `Timestamps.ExpiryIsHonoured` | crates/mx-agent-daemon/src/approval.rs:745-775 | a deadline is the present, counted from 1970 at the earliest, plus the lifetime, up to the largest 64-bit number; a deadline before the year 10000 reads back as the present plus the lifetime, sorts after the present, and is past exactly from then on; a later one cannot be read and is never past |
| `Replay.ReplayCache.constructor` | crates/mx-agent-daemon/src/replay.rs:103-163 | loading keeps exactly the entries that have not expired, and takes over the stored capacity |
| `Replay.ReplayCache.Evict` | crates/mx-agent-daemon/src/replay.rs:217-231 | making room removes only as much as needed, and only entries that expire no later than any kept |
| `Replay.ReplayCache.AdmitAt` | crates/mx-agent-daemon/src/replay.rs:202-234 | exactly when a nonce is malformed, expired, replayed or admitted, that a refusal changes nothing, and what a failed write leaves in memory and on disk |
| `Replay.OnceUnlessForgotten` | crates/mx-agent-daemon/src/replay.rs:202-234 | over any run with restarts, failed writes and saves by the file's other writer, a nonce granted with a deadline is not granted again with it unless memory forgot it in between |
| `Replay.ForgetsIffFull` | crates/mx-agent-daemon/src/replay.rs:217-231 | admitting a nonce forgets a valid entry if and only if the valid entries fill the capacity |
| `Replay.ForgetsTheSoonest` | crates/mx-agent-daemon/src/replay.rs:217-231 | which entries an admission forgets: where deadlines differ, exactly the valid ones with at least the capacity less one of valid later deadlines |
| `Replay.WhatElseForgets` | crates/mx-agent-daemon/src/replay.rs:103-163 | otherwise only a restart forgets, and exactly the valid entries that the file does not hold |
| `Replay.RefusedIffNotForgotten` | crates/mx-agent-daemon/src/replay.rs:202-234 | with every write saved and no other writer, a granted nonce presented again in time, not used otherwise, is refused if and only if no step in between forgot it |
| `Replay.RefusedByDeadlines` | crates/mx-agent-daemon/src/replay.rs:202-234 | with every write saved, no other writer and differing deadlines, a granted nonce presented again in time, not used otherwise, is refused if and only if no admission in between found that many later deadlines |
| `Replay.GrantedOnceIfRoom` | crates/mx-agent-daemon/src/replay.rs:202-234 | with room throughout, and no restart while the other writer's save is the last one, each nonce and deadline is granted at most once |
| `Replay.FullCacheGrantsTwice` | crates/mx-agent-daemon/src/replay.rs:217-231 | a cache of any capacity, one entry short of full, can grant the same nonce and deadline twice |
| `Replay.AlmostFull` | crates/mx-agent-daemon/src/replay.rs:217-231 | such a cache exists at every capacity and for any nonces |
| `Replay.OtherWriterGrantsTwice` | crates/mx-agent-daemon/src/scheduler_loop.rs:688-699 | with room, a save by a second cache that loaded the file earlier, and then a restart, let the same nonce and deadline be granted twice, at every capacity from two on |
| `Replay.ReusedNonceGrantedTwice` | crates/mx-agent-daemon/src/replay.rs:211-216 | a nonce reused with a later deadline can be granted again after the first has expired, whatever the capacity |
| `Approval.EnqueuedIs` | crates/mx-agent-daemon/src/approval.rs:402-412 | enqueuing replaces the hold of its request or appends, leaves all other holds and their order alone, keeps ids unique and is idempotent |
| `Approval.RemovedIs` | crates/mx-agent-daemon/src/approval.rs:417-423 | removing takes out the one hold of that request and leaves the others in order |
| `Approval.EditedIs` | crates/mx-agent-daemon/src/scheduler_loop.rs:410-558 | whatever a scheduler pass does to its copy of the queue, ids stay unique, a live hold is never added or altered, and a hold no gate touched goes only if it is live, past its deadline and swept |
| `Approval.ApprovalQueue.Get` | crates/mx-agent-daemon/src/approval.rs:396-398 | the in-place search finds the first hold of a request or reports none |
| `Approval.ApprovalQueue.Enqueue` | crates/mx-agent-daemon/src/approval.rs:402-412 | updating the list in place is enqueuing |
| `Approval.ApprovalQueue.Remove` | crates/mx-agent-daemon/src/approval.rs:417-423 | removing in place is removal, and returns what was removed |
| `Approval.VerificationIsMonotone` | crates/mx-agent-daemon/src/approval.rs:676-713 | a decision passes if and only if its sender may approve, a published and trusted key signed it and its deadline can be read and lies ahead; it goes on passing under more approvers, keys or trust or at an earlier time |
| `Approval.DecisionLifetime` | crates/mx-agent-daemon/src/approval.rs:738-752 | a decision stamped when made and believed then is believed, as far as expiry goes, for exactly an hour |
| `Approval.ReadVerifiedDecisions` | crates/mx-agent-daemon/src/approval.rs:605-648 | the newest-first scan returns for each request exactly the newest believed decision in the chunk |
| `Approval.NewestIsNewest` | crates/mx-agent-daemon/src/approval.rs:605-648 | that decision stands in the chunk, is believed, and nothing before it about the request is; none is returned only if there is none |
| `Approval.NoiseIsIgnored` | crates/mx-agent-daemon/src/approval.rs:605-648 | unverified events mixed in anywhere leave the result unchanged |
| `ApprovalProtocol.ReleasesBoundedByTickets` | crates/mx-agent-daemon/src/approval.rs:908-1099 | over every interleaving with crashes, failed writes and a second writer of the nonce file, while the cache has room and no crash comes when the file lacks what that writer overwrote, a request is released at most as often as it has verified approvals with distinct nonce and deadline, and no two releases share one |
| `ApprovalProtocol.ReleasesBoundedByDistinctNonces` | crates/mx-agent-daemon/src/approval.rs:908-1099 | when no nonce is reused with another deadline, the bound is the number of distinct nonces |
| `ApprovalProtocol.WithoutOtherWriter` | crates/mx-agent-daemon/src/replay.rs:202-281 | where the scheduler's cache never saves, the premise of the bounds is that the cache has room whenever a ticket is presented, and nothing else |
| `ApprovalOwnership.IdsStayUnique` | crates/mx-agent-daemon/src/approval.rs:402-423 | request ids stay unique in the persisted queue and in every copy in flight, in every interleaving |
| `ApprovalOwnership.SurplusStep` | crates/mx-agent-daemon/src/approval.rs:838-1099 | a step adds at most one release too many, and only a save that is untimely: computed from a queue since changed, be it by a hold, a decision, a handler or a scheduler pass, or by a handler whose hold is gone |
| `ApprovalOwnership.ReleasesPerHold` | crates/mx-agent-daemon/src/approval.rs:838-1099 | in every interleaving, releases plus holds queued or about to be acted on never exceed the holds saved, plus the removals that could not be saved, plus the untimely saves |
| `ApprovalOwnership.OwnershipStep` | crates/mx-agent-daemon/src/approval.rs:838-1057 | a timely step changes a queued hold in one of five ways: a new hold of its request, an operator's decision if it is a task hold, its handler if it is live, the scheduler's gate, which leaves at most a task hold, or the sweep of a live hold past its deadline; the first three leave the others and their order alone |
| `ApprovalOwnership.HoldStays` | crates/mx-agent-daemon/src/approval.rs:838-1057 | a hold stays as it is through any undisturbed run without a new hold of its request, a gate on it, and, if it is live, its handler and the sweep after its deadline, or, if it is a task hold, a decision |
| `ApprovalReleases.NoReleaseWithoutCheck` | crates/mx-agent-daemon/src/approval.rs:944-1099 | in every interleaving, what a release rests on says "approved", and behind it lie three steps of one handler, under way without a break: that decision passing every check at that moment, the save without the hold, and the release |
| `ApprovalReleases.ReleaseIsLegitimate` | crates/mx-agent-daemon/src/approval.rs:944-1099 | in undisturbed runs the hold released stood in the queue, live and unchanged since it was last saved, when that handler took it off |
| `ApprovalReleases.NoReleaseAfterWithdrawal` | crates/mx-agent-daemon/src/approval.rs:676-713 | once a decision has expired, or if its key is never again published and trusted, no continuation releases on it, except by work already past its check, and after expiry by work already past its nonce |
| `ApprovalOnce.OrphanedForGood` | crates/mx-agent-daemon/src/approval.rs:1037-1057 | a granted nonce that no release and no work in flight carries is never released on, in any guarded continuation |
| `ApprovalOnce.ReleasedOnceIffHandlerActs` | crates/mx-agent-daemon/src/approval.rs:1037-1099 | once a handler has burnt an approval's nonce there is a release on it if and only if its remaining steps come before any crash, and then exactly one, of its own hold |
| `ApprovalOnce.FromTheCheckOn` | crates/mx-agent-daemon/src/approval.rs:1037-1099 | from the passed check on: a refused nonce changes nothing but the handler; one admitted and written is released on if and only if the remaining steps come before any crash; one admitted but not written is released on by nobody and refused until a restart |
| `ApprovalOnce.BlockedUntilRestart` | crates/mx-agent-daemon/src/replay.rs:233-281 | a nonce that memory remembers but no grant stands for stays refused in every guarded continuation without a crash |
| `ApprovalOnce.RefusedAfterRestartIff` | crates/mx-agent-daemon/src/replay.rs:103-163 | after a restart a nonce is refused if and only if it has expired or the file holds it with a deadline ahead |
| `ApprovalDaemon.Daemon.constructor` | crates/mx-agent-daemon/src/replay.rs:97-163 | a new daemon starts in the initial state of the protocol |
| `ApprovalDaemon.Daemon.Restart` | crates/mx-agent-daemon/src/replay.rs:103-163 | a restart is the protocol's crash: work in flight is gone, the queue and the unexpired persisted nonces remain |
| `ApprovalDaemon.Daemon.Advance` | crates/mx-agent-daemon/src/approval.rs:1013-1016 | the passing of time is the protocol's tick |
| `ApprovalDaemon.Daemon.LoseFileTo` | crates/mx-agent-daemon/src/replay.rs:261-281 | a save by the scheduler's own cache replaces the nonce file and leaves memory alone |
| `ApprovalDaemon.Daemon.HoldRequest` | crates/mx-agent-daemon/src/exec.rs:1092-1110 | holding a request is the protocol's load and save of the queue with that hold |
| `ApprovalDaemon.Daemon.DecideRequest` | crates/mx-agent-daemon/src/approval.rs:838-893 | deciding reports an unknown request and takes only task holds off the queue, as the protocol's two steps |
| `ApprovalDaemon.Daemon.BurnNonce` | crates/mx-agent-daemon/src/approval.rs:908-925 | a nonce is burnt exactly when the cache admits and persists it; without a router every decision passes |
| `ApprovalDaemon.Daemon.HandleDecision` | crates/mx-agent-daemon/src/approval.rs:944-1099 | handling a decision in code is exactly the protocol's six handler steps in a row, for every hold, decision, anchor and failed write |
| `ApprovalDaemon.Daemon.SchedulerPass` | crates/mx-agent-daemon/src/scheduler_loop.rs:404-560 | loading, editing and saving the queue in code is the protocol's two steps of a pass, for every sequence of edits and a failed write |
| `ApprovalDaemon.PassRun` | crates/mx-agent-daemon/src/scheduler_loop.rs:410-558 | a scheduler pass by itself replaces the queue by its edited copy, if that differs and could be saved, and disturbs nothing |
| `ApprovalDaemon.HandleRun` | crates/mx-agent-daemon/src/approval.rs:944-1099 | what the six steps in a row amount to, in every branch, also beside other work in flight |
| `ApprovalDaemon.DecisionEndsTheHold` | crates/mx-agent-daemon/src/approval.rs:507-514 | a believed decision with a new nonce, handled in one go, takes exactly its hold off the queue and burns the nonce, whatever it says; the request is released if and only if it says "approved" |
| `ApprovalDaemon.OperationsAreUndisturbed` | crates/mx-agent-daemon/src/approval.rs:838-1099 | operations carried out one after the other never disturb each other |
| `ApprovalDaemon.AtomicHandlingReleasesOnce` | crates/mx-agent-daemon/src/approval.rs:944-1099 | with atomic handling and successful saves a request is released at most once per hold, whatever is redelivered and whatever the nonces |
| `ApprovalRaces.StaleDecisionReleasesTwice` | crates/mx-agent-daemon/src/approval.rs:845-887 | after a first release a decision's untimely save brings the hold back, and it is released again on a second approval; the bound on releases is reached |
| `ApprovalRaces.TwoHandlersReleaseTwice` | crates/mx-agent-daemon/src/approval.rs:954-1057 | a handler past its check while another handles and releases the same hold saves untimely over a queue without it and releases it again on a second approval; the bound on releases is reached |
| `ApprovalRaces.CrashLosesTheRelease` | crates/mx-agent-daemon/src/approval.rs:1048-1057 | a handler passes its check and burns the nonce, a crash comes before it acts, and the same verified approval is delivered and handled again: the hold is still queued, the nonce is refused, nothing was released and nothing ever will be on it |
| `Transcripts.Transcript.AddDelta` | adw_sdlc/src/runners/runner-opencode.ts:230-237 | the written length of a part is always the length of what the log records for it; a delta adds to that part, the text and the file |
| `Transcripts.Transcript.AddFull` | adw_sdlc/src/runners/runner-opencode.ts:240-248 | a full text adds exactly the part's unseen tail |
| `Transcripts.Transcript.EndPart` | adw_sdlc/src/runners/runner-opencode.ts:251-256 | a line break is added exactly when the text does not end in one |
| `Transcripts.Transcript.NoteOnce` | adw_sdlc/src/runners/runner-opencode.ts:223-228 | a tool is noted at most once, in the file only |
| `Transcripts.Transcript.SayNote` | adw_sdlc/src/runners/runner-opencode.ts:217-221 | a note goes to the file only |
| `Transcripts.NotesAreKept` | adw_sdlc/src/runners/runner-opencode.ts:217-228 | besides the text the file holds what was said and the first note of each tool, in order, and nothing else |
| `Transcripts.Transcript.ReplayParts` | adw_sdlc/src/runners/runner-opencode.ts:386-396 | the replay loop has the effect of its parts' events in order |
| `Transcripts.PrefixIffAligned` | adw_sdlc/src/runners/runner-opencode.ts:208-257 | at every moment what is recorded of a part is a prefix of the server's text if and only if every event about it brought the text for the place where it landed |
| `Transcripts.ReplayIsExactIffAligned` | adw_sdlc/src/runners/runner-opencode.ts:384-396 | after the final replay a part is recorded exactly if and only if every earlier event about it was aligned |
| `Transcripts.ReplayAgainAddsNothing` | adw_sdlc/src/runners/runner-opencode.ts:384-396 | whatever came before, replaying the final parts again adds nothing to text or file |
| `Transcripts.DriftIsNotRepaired` | adw_sdlc/src/runners/runner-opencode.ts:540-548 | a dropped delta and a repeated delta each leave the record wrong after the final replay |
| `Transcripts.InOrderIsAligned` | adw_sdlc/src/runners/runner-opencode.ts:208-257 | deliveries whose slices each start where the record ends are aligned, and in a text without repeated characters only they are |
| `Transcripts.TextIsPartsInTurn` | adw_sdlc/src/runners/runner-opencode.ts:208-257 | parts that are not interleaved make up the returned text, one after the other, each as recorded |
| `Transcripts.StreamedThenReplayed` | adw_sdlc/src/runners/runner-opencode.ts:384-396 | when every final part was streamed in full the replay only finishes the text with a line break |
| `Transcripts.ReplayFinishes` | adw_sdlc/src/runners/runner-opencode.ts:384-396 | whatever was streamed before, the returned text after the replay is the one before it, with the unrecorded tail of each final part added in turn and the line ended after each |
| `Transcripts.HalfStreamedIsBrokenUp` | adw_sdlc/src/runners/runner-opencode.ts:384-396 | one character of a first part and one of a second streamed, and a second one missing of the latter: the text is the first two, a line break, the third, a line break |
| `Transcripts.OnePieceIff` | adw_sdlc/src/runners/runner-opencode.ts:384-396 | after the replay a part stands in the text in one piece if and only if it did before and either nothing of it was missing or, when its turn came, nothing else had been written since it began |
| `Transcripts.ReplayAlone` | adw_sdlc/src/runners/runner-opencode.ts:384-396 | when no event came the replay returns the final parts in order, each ended by a line break |
| `OpencodeServer.NoLeakedServer` | adw_sdlc/src/runners/runner-opencode.ts:294-302 | in every interleaving each spawned process has ended, was sent a kill, is the current server, or is owned by a start under way |
| `OpencodeServer.KilledOnlyWhenDone` | adw_sdlc/src/runners/runner-opencode.ts:294-302 | in every interleaving a process in use has been sent no kill, and a running one is sent one if and only if it is the server and stop comes, or the start waiting for it fails, or its start resumes after a stop; nothing but its own death changes whether it runs |
| `OpencodeServer.SharedStartServes` | adw_sdlc/src/runners/runner-opencode.ts:434-449 | once the start that callers share has seen its banner, its process becomes the server, and no process is sent a kill |
| `OpencodeServer.ComesUp` | adw_sdlc/src/runners/runner-opencode.ts:432-456 | without a server or a shared start, a call, its banner and its continuation bring up a new running server |
| `OpencodeServer.AlwaysStartable` | adw_sdlc/src/runners/runner-opencode.ts:432-456 | from every reachable state, a stop and a new call lead to a running server that was sent no kill |
| `OpencodeServer.RetriesThenGivesWay` | adw_sdlc/src/runners/runner-opencode.ts:458-479 | a shared start whose process exited early comes up with another one as long as it has spawned fewer than three, else fails; a failed start gives way to a new one |
| `OpencodeServer.ServerStays` | adw_sdlc/src/runners/runner-opencode.ts:432-456 | only a stop takes a server away, and callers start nothing while there is one or one is on its way |
| `OpencodeServer.NothingRunsAfterStop` | adw_sdlc/src/runners/runner-opencode.ts:432-537 | after a last stop, once all starts have settled, every process has ended or was sent a kill, even those spawned by retries after the stop |
| `OpencodeServer.SpawnsAreBounded` | adw_sdlc/src/runners/runner-opencode.ts:458-479 | no run has more processes than three per start |
| `CiLoop.CiStatus` | adw_sdlc/src/git.ts:190-227 | each of the five states if and only if the rollup is of that kind, with the failing checks' names in order |
| `CiLoop.FailsIff` | adw_sdlc/src/git.ts:36-37 | a check is red if and only if its conclusion is one of the five failing ones or its state one of the two, in capitals or not |
| `CiLoop.PendingIff` | adw_sdlc/src/git.ts:210-216 | a check that is not red is pending if and only if it has a status other than completed, or a pending or expected state |
| `CiLoop.FailingAre` | adw_sdlc/src/git.ts:209-214 | the names reported are those of the failing checks, by name, else context, else as a check |
| `CiLoop.CiFixLoop` | adw_sdlc/src/orchestrator.ts:402-491 | for every environment, whose own answers are all it goes by, agents that throw and runs cut off at any point included, the loop ends within the stated polls, agent calls and commits although fixes reset the budget; it passes if and only if it was not cut off and the last poll was green or the fourth empty one, and fails if and only if its last effect says why; agent calls follow red polls, commits follow dirty trees, pushes follow commits |
| `CiLoop.Repair` | adw_sdlc/src/orchestrator.ts:464-489 | after a red poll the agent is asked once, what it claims is looked for in the tree and committed, and a commit is pushed; it gives up exactly when nothing was fixed, and goes on exactly after a push or a commit that failed |
| `FixLoops.ResolveLoop` | adw_sdlc/src/orchestrator.ts:330-357 | for every environment, whose own answers are all it goes by, the loop ends within its attempts, gate and agent taking turns; it succeeds if and only if the last gate was green, otherwise its last effect says why |
| `FixLoops.PatchLoop` | adw_sdlc/src/orchestrator.ts:360-399 | the agent, whose own replies are all it goes by, is asked at most as often as allowed and never more often than there are blockers, each time about all blockers and nothing else; the loop succeeds if and only if none is left |
| `FixLoops.BlockersAre` | adw_sdlc/src/orchestrator.ts:367 | the blockers are exactly the findings of that severity, in the order they stood in |
| `DeliveryLaw.FindingsSurvive` | adw_sdlc/src/orchestrator.ts:797-803 | findings read back from the persisted state are the ones that were stored |
| `DeliveryLaw.MissingKeys` | adw_sdlc/src/orchestrator.ts:797-803 | a finding read back without a severity never blocks; missing texts are empty |
| `DeliveryLaw.ProgressOnlyGrows` | adw_sdlc/src/state.ts:147-157 | over all runs the completed phases are free of duplicates and only added to, at the end |
| `DeliveryLaw.CompletedNeverRunsAgain` | adw_sdlc/src/orchestrator.ts:900-991 | once recorded as completed, a phase is executed by no later step of any run |
| `DeliveryLaw.CompletedWasDone` | adw_sdlc/src/orchestrator.ts:900-991 | nothing is recorded as completed that was not executed, merged, or found not to apply |
| `DeliveryLaw.OnlyTwoMayBeSkipped` | adw_sdlc/src/orchestrator.ts:906-914 | whatever is recorded as completed was executed, or merged; only the e2e and document phases may have been found not to apply instead |
| `DeliveryLaw.PatchSeesTheReview` | adw_sdlc/src/orchestrator.ts:928-936 | a patch after a recorded review, in the same run or a resumed one of either engine, works on exactly what the last review found |
| `DeliveryLaw.PatchComesAfterReview` | adw_sdlc/src/orchestrator.ts:900-936 | if the list has a review before every patch, a patch executed in its turn comes after a recorded review |
| `DeliveryLaw.FullRun` | adw_sdlc/src/orchestrator.ts:900-991 | a first run over the full list leaves the setup and the nine phases recorded, in their order, with the review before the patch |
| `DeliveryLaw.PatchAsksAboutTheReview` | adw_sdlc/src/orchestrator.ts:928-936 | every agent call of such a patch is about the blockers of the last review |
| `DeliveryLaw.MergedNeverMergesAgain` | adw_sdlc/src/orchestrator.ts:651-660 | once a merge is recorded no run merges again |
| `DeliveryLaw.MergedTreeIsTheGatedOne` | adw_sdlc/src/orchestrator.ts:662-733 | the commit the gates passed is still the head when the merge comes if and only if no commit was made while watching CI, and it is what is merged if and only if no push succeeded while watching |
| `DeliveryLaw.GatesAre` | adw_sdlc/src/orchestrator.ts:76-96 | a test command takes the place of the test gate and of no other; the four default gates are those named, and differ |
| `Delivery.AdwState.Load` | adw_sdlc/src/state.ts:107-124 | a loaded state is the persisted one; the Python engine drops the field only the other one writes |
| `Delivery.AdwState.MarkDone` | adw_sdlc/src/state.ts:153-157 | marking a phase adds it once |
| `Delivery.Pipeline.ResolveState` | adw_sdlc/src/orchestrator.ts:770-794 | a run is refused exactly when it would clobber a persisted state or belongs to another issue; otherwise it starts from what was saved, field by field, or blank |
| `Delivery.Pipeline.Review` | adw_sdlc/src/orchestrator.ts:967-990 | a review's findings are persisted together with its completion, or neither is |
| `Delivery.Pipeline.Resolve` | adw_sdlc/src/orchestrator.ts:915-926 | the test-fix loop is run and noted; its verdict does not stop the run, an agent that throws does |
| `Delivery.Pipeline.Patch` | adw_sdlc/src/orchestrator.ts:928-936 | the patch loop is run over the findings known from the review and noted; its verdict does not stop the run, an agent that throws does |
| `Delivery.Pipeline.RunPhase` | adw_sdlc/src/orchestrator.ts:900-991 | one phase is run, or found not to apply, and then recorded, unless the run is interrupted; a patch gets the findings of the review |
| `Delivery.Pipeline.RunPhases` | adw_sdlc/src/orchestrator.ts:900-991 | the phase loop leaves recorded what was, followed by the first occurrences in the list of what was not, in that order, or, if it ends early, as much of that as an initial part of the list gives; every phase is executed when exactly the ones listed before it have been recorded |
| `Delivery.Pipeline.RunGates` | adw_sdlc/src/orchestrator.ts:662-670 | all four gates are run at zero, or the last one run failed, or the run was cut off after it |
| `Delivery.Pipeline.Publish` | adw_sdlc/src/orchestrator.ts:672-701 | commit, push and pull request all succeeded and were saved, or the first that did not is the last thing done, or the run was cut off on the way |
| `Delivery.Pipeline.Authorise` | adw_sdlc/src/orchestrator.ts:703-729 | CI passed if there is a number and the merge was authorised, or the reason why not, or the run was cut off, also in the midst of watching CI |
| `Delivery.Pipeline.Qualify` | adw_sdlc/src/orchestrator.ts:662-729 | either everything a merge requires has been done in this run, in exactly the required order, or the last thing asked said no or was the last before the run was cut off |
| `Delivery.Pipeline.FinalizeAndMerge` | adw_sdlc/src/orchestrator.ts:635-748 | it merges and records the merge, unless one is already recorded, when it does nothing, or the last thing on the way that was asked said no |
| `Delivery.Pipeline.Deliver` | adw_sdlc/src/orchestrator.ts:900-997 | the same from the setup on, for a state already resolved |
| `Delivery.Pipeline.Run` | adw_sdlc/src/orchestrator.ts:806-997 | one run of either engine, on nothing but what the environment answers and within the limits given, cut off anywhere, between gates, while publishing and while watching CI included: it is refused exactly for unknown phases, a state it would clobber or another issue; it ends with the setup and every listed phase recorded in the order of the list, and merged, unless it was interrupted or hindered, and an interrupted one has recorded an initial part of that; phases are executed in their turn, so that, if the list has a review before every patch, each patch works on what the last review found; and every merge in the trace was preceded in its own run, in order, by four green gates, commit, push, a pull request whose CI passed if it has a number, and an authorisation |
| `Delivery.Pipeline.RunAll` | adw/_orchestrator.py:554-724 | any number of runs, by either engine in any order: each does what a run does to what the ones before it left, all keep the law, and every merge among them is safe in that sense |
| `StateFile.RoundTrip` | adw_sdlc/src/state.ts:162-259 | the TypeScript engine reads back exactly the state it wrote, all sixteen fields, a cost that is absent, unknown or a number included |
| `StateFile.KeysWritten` | adw_sdlc/src/state.ts:162-189 | the keys of a written state: thirteen always, three only if set |
| `StateFile.SurvivesPython` | adw/_state.py:110-146 | a state written by the TypeScript engine, loaded and saved by the Python one and loaded again has lost the three fields only the former knows, and nothing else; what a resume goes by has lost the runner alone |
| `StateFile.SurvivesTypeScriptIff` | adw_sdlc/src/state.ts:206-259 | a state of the Python engine, loaded and saved by the TypeScript one, comes back unchanged if and only if every field holds a value of the kind the schema allows |
| `StateFile.DefaultsAgree` | adw/_state.py:57-73 | of a file with a run id and nothing else both engines make the same state |
| `StateFile.LoadIsTolerant` | adw_sdlc/src/state.ts:206-259 | a file loads if and only if it is an object with a valid run id, however broken the rest, and unknown keys make no difference |
| `StateFile.FindingSurvives` | adw_sdlc/src/orchestrator.ts:797-803 | a finding stored as a keyed object is rebuilt from it as it was |
| `Costs.FlatConcat` | adw_sdlc/src/run-phase.ts:155-173 | costs and token counts of two groups of messages combine to those of all of them together |
| `Costs.UsageTotals.Add` | adw_sdlc/src/runners/runner-pi.ts:226-245 | adding messages one by one keeps the account of all of them, counts and cost |
| `Costs.UsageTotals.ToPhaseUsage` | adw_sdlc/src/runners/runner-pi.ts:247-257 | an attempt's cost is absent without messages, unknown if one cannot be priced, else their sum; a count is the sum of those reported |
| `Costs.MergeUsage` | adw_sdlc/src/run-phase.ts:151-173 | two attempts combine, count by count, reasoning tokens included, the cost unknown if either is |
| `Costs.RecordUsage` | adw_sdlc/src/orchestrator.ts:315-321 | a phase is taken into the total in the same way |
| `Costs.RunTotal` | adw_sdlc/src/orchestrator.ts:315-321 | the total cost built over messages, attempts and phases is the flat total of all messages |

## Where code and documentation differ

- The transcript's comment says that drift of the event stream can only delay text, never lose or duplicate it
  (adw_sdlc/src/runners/runner-opencode.ts:540-548). That holds exactly for aligned events
  (`Transcripts.ReplayIsExactIffAligned`, `Transcripts.DriftIsNotRepaired`).
- The live decision handler is described as releasing exactly once (crates/mx-agent-daemon/src/approval.rs:1048-1052).
  A crash after the nonce is burnt leaves the hold queued and every redelivery refused
  (`ApprovalRaces.CrashLosesTheRelease`). There is exactly one release if and only if the handler that burnt the nonce
  acts before any crash (`ApprovalOnce.ReleasedOnceIffHandlerActs`).
- A failed write of the nonce loses an approval without any crash: the nonce stays in memory, and every redelivery is
  refused until a restart (`ApprovalOnce.FromTheCheckOn`, `ApprovalOnce.RefusedAfterRestartIff`).
- The replay ends the line after every final part, so a part streamed only in part can come out broken up by a line
  break (`Transcripts.HalfStreamedIsBrokenUp`, `Transcripts.OnePieceIff`).
- One release per hold is exceeded by at most the number of untimely saves, and two runs exceed it by that many
  (`ApprovalOwnership.ReleasesPerHold`, `ApprovalRaces`).
- A nonce is single-use only together with its deadline, only while the cache has room, and only as long as no restart
  reads a file that the scheduler's own cache has overwritten (`Replay`).
- Strict mode is described as a guarantee that what was seen is exactly what the remote produced
  (crates/mx-agent-cli/src/stream.rs:31-40). The end mark of a chunk is never consulted, so the loss of a stream's tail
  goes unnoticed (`Transmission.LostTailIsNotNoticed`); strict success means the whole output if and only if the last
  chunk was received (`Transmission.WholeIffLastReceived`).

## Left out

- Base64, SHA-256 and Ed25519 are parameters; a signature check and a digest are arbitrary functions.
- Sequence numbers near the 64-bit limit, non-ASCII strings in stamps and check names, and rounding of costs.
- Writer failures while rendering, file permissions, partial writes and corrupt nonce files; a save either happens or does not.
- The nonce bounds take the clock not to run backwards.
- The compensation that forgets a nonce and the scheduler's own release of tasks; of the scheduler's cache only its saves are modelled, with any contents, and what its gates do to the queue is any sequence of edits.
- What happens inside a release: re-authorisation and spawning are a single step.
- ApprovalProtocol.ReleasesBoundedByTickets: does not hold for a full cache or after a crash that loses what the other writer overwrote; both are premises, and `Replay.FullCacheGrantsTwice` and `Replay.OtherWriterGrantsTwice` show why. Without a router no nonce is asked about and only the bound per hold remains.
- OpencodeServer.NoLeakedServer: the start/stop protocol is modelled on values, one atomic step per stretch of code between awaits; a kill that the operating system refuses is not modelled.
- Delivery.Pipeline.RunPhases: how conditional phases decide whether they apply is an arbitrary answer. The verdicts of the test-fix and patch loops do not gate the merge, as in the source.
- Delivery.Pipeline.Run: two runs of one pipeline at the same time, saves that fail silently, and the preflight that skips closed issues.
- StateFile.RoundTrip: numbers are reals; what JSON cannot express, and the text form of a document, are left out.
- Delivery.AdwState.Load: the pipeline keeps the five fields it goes by; `StateFile` has all of them and the reading of junk.
- Command line, terminal handling, IPC, Matrix client plumbing, prompt composition and agent adapters.
