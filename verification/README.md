# GrokPtah desktop: a verified model of its protocols

GrokPtah is a desktop application around a coding agent. This project models, in Dafny, the parts
of it that hold real protocols, and proves what each of them keeps over every input and every
interleaving:

- **Terminals** (`Utf8`, `PtyHost`, `PtyHub`). A reader thread cuts a byte stream anywhere, decodes
  it incrementally and numbers its events; a capped backlog lets a client that attaches late catch
  up. The reference decoder is written from section 4 of RFC 3629 and from the substitution of
  maximal subparts in section 3.9 of the Unicode Standard.
- **Fenced paged reads** (`WorkPages`, `WorkWorld`, `WorkWalks`, `WorkRead`). A client assembles one
  Work item and its attempts from many pages while the server may change between any two of them.
  Both halves are modelled: the server's page cutting and the client's walks.
- **Computer Use** (`ComputerRuns`, `ComputerApproval`, `ComputerNative`). One approval slot, two
  locks, operations that take neither, a versioned run store, and a bounded map of native backends.
- **Prompt queue** (`PromptQueue`, `PromptDrain`). A drain takes a batch, reserves the turn slot, and
  hands both back when the turn does not start.
- **Lane scope, run refresh, docks, transcript, timeline** (`LaneScope`, `RunRefresh`, `Docks`,
  `Transcript`, `RunTimeline`, `RunPages`). Coordination logic of the desktop.
- **Remote calls** (`RemoteCalls`, `RemoteRetry`, `EventReplay`). Which errors are retried, what a
  retry can cause, and what a replay of durable events leaves out.

Protocols whose code runs between locks or awaits are state machines: an action is the code between
two such points, a run is any sequence of enabled actions from the initial state, and a main result
is about every state of every run. Loops and objects that change in place are methods and classes,
proved against a specification function whose own properties are lemmas.

## Findings

Where the code does not do what one would expect, the model keeps the code and states exactly when
the expectation holds.

- A replayed backlog and the live events above its watermark spell the stream if and only if no
  character was cut at the watermark (`PtyHost.ReplaySpellsStream`). The flush at end of stream
  stores a replacement beside the raw tail it stands for (`PtyHost.FlushDoublesTail`).
- The bridge and the desktop trim by different rules. A queued prompt made only of characters that
  the desktop trims and the bridge does not, such as a byte-order mark, is taken and gone
  (`PromptDrain.TakeDropsOnlyBlanks`, `PromptDrain.MarkOnlyPromptIsDropped`). Nothing else is lost,
  short of a restore call that itself fails.
- A prompt can run twice, and only through a failure after its turn had started: it is started at
  most once more often than its turns failed that way (`PromptDrain.RunsOnceMoreThanItFails`,
  `PromptDrain.RepeatsNeedAFailure`, `PromptDrain.LateFailureRepeats`).
- A one-off observation that overlaps a start leaves a session with two live runs
  (`ComputerNative.ObservationOverlapsStart`); without one there is at most one.
- Opening a lane beside the focus shows it if and only if the docks with the focus fit the capacity
  (`Docks.BesideShowsTarget`). `clampDocks` moves the focus to the front, so its result is not a
  subsequence of the docks.
- The reconnect check looks for an HTTP status that the client does not render, and the client reads
  the body before it looks at the status. So the status alone never decides: an answer with an error
  status is sent again if and only if its body is too large, cut off, not JSON, or carries an error
  that is not one of the three stable refusals. An unavailable service that answers in plain JSON is
  not asked again, and an application error such as `conflict` is, both against the comment on the
  function (`RemoteCalls.ErrorStatusSentAgainExactly`, `RemoteCalls.RetryableStatusesAndConflicts`).
- A request id that is not on record, because it is new or because its receipt was dropped, is
  performed if and only if its workspace has a free slot (`RemoteRetry.PerformedExactly`); at the
  bound a new request can be refused (`RemoteRetry.NewRequestIsRefused`), and a dropped receipt lets
  a repeated one through. A call without a request id can always take effect twice
  (`RemoteRetry.UnnumberedCallRunsTwice`).
- The bridge's scope is the newest loaded lane until something other than a promotion writes it, and
  the desktop's follows it only as far as the last status it applied
  (`LaneScope.BridgeFollowsTheNewest`, `LaneScope.DesktopNamesTheNewest`,
  `LaneScope.OldStatusHidesLane`).
- An idle run list shows the newest answer changed by exactly the clears and patches since
  (`RunRefresh.NewestDecides`, `RunRefresh.DisconnectHidesAnswer`).
- A timeline entry that a live batch has passed over is never fetched by loading more
  (`RunPages.GapStays`, `RunPages.LiveBatchLeavesGap`); what is missing is exactly what no live batch
  brought and no loaded page covered (`RunPages.NoGapExactly`).
- Against the server's own pages a replay asks once, and reaches the end of the journal if and only
  if at most 500 entries lie above the cursor (`EventReplay.ReplayServer`).

## Model

| member | source | states |
|---|---|---|
| Utf8.CharsAreEncodedScalars | desktop/src-tauri/src/pty_host.rs:40-50 | the decoder's grammar accepts exactly the encodings of the scalar values (all code points but surrogates, their bits spread over one to four bytes), and nothing else |
| Utf8.EncodeIsInjective | desktop/src-tauri/src/pty_host.rs:40-50 | no two scalar values share an encoding |
| Utf8.EncodedTextIsUtf8 | desktop/src-tauri/src/pty_host.rs:42-45 | the encoding of any sequence of scalar values is well-formed and decodes to itself |
| Utf8.Utf8IsEncodedText | desktop/src-tauri/src/pty_host.rs:218-221 | well-formed text, and so whatever lossy decoding yields, is the encoding of some sequence of scalar values |
| Utf8.PartialIsProperPrefix | desktop/src-tauri/src/pty_host.rs:40-79 | what a decoder may hold back is exactly a non-empty proper prefix of one well-formed character |
| Utf8.MaximalSubpartIsMaximal | desktop/src-tauri/src/pty_host.rs:62-76 | one replacement stands for the longest ill-formed beginning: no longer beginning of the input starts a character |
| Utf8.LossyIsWellFormed | desktop/src-tauri/src/pty_host.rs:218-221 | lossy decoding always yields well-formed text |
| Utf8.LossyIsIdentityOnUtf8 | desktop/src-tauri/src/pty_host.rs:40-50 | lossy decoding leaves a stream unchanged if and only if it was well-formed |
| Utf8.CommitThenLossy | desktop/src-tauri/src/pty_host.rs:40-79 | what is committed before more bytes arrive is exactly what one-shot decoding would have put there |
| Utf8.CommitThenCommit | desktop/src-tauri/src/pty_host.rs:40-79 | committing one read and then the next is committing them together |
| Utf8.ReadsAreOneRead | desktop/src-tauri/src/pty_host.rs:179-186 | however the stream is cut into reads, text and pending bytes are those of one big read |
| Utf8.ChunkInvariance | desktop/src-tauri/src/pty_host.rs:40-79 | for every stream and every way of cutting it, the outputs plus the final lossy flush are the one-shot maximal-subpart decoding; pending bytes are always a proper prefix of one character, at most three bytes |
| Utf8.CommitByCheck | desktop/src-tauri/src/pty_host.rs:41-78 | the library's verdict (valid, incomplete at, invalid at with length) determines what is committed and what is held |
| Utf8.CheckUtf8 | desktop/src-tauri/src/pty_host.rs:42-45 | the standard check, stated by what it says about committing |
| Utf8.Utf8Pending.PushChunk | desktop/src-tauri/src/pty_host.rs:40-79 | the recursive in-place decoder commits what the specification commits, over a grammar that is exactly the encodings of scalar values, and terminates |
| PtyHost.PtySession.AppendCapped | desktop/src-tauri/src/pty_host.rs:22-36 | the in-place ring keeps exactly the last `cap` bytes of old contents and chunk |
| PtyHost.PtySession.Record | desktop/src-tauri/src/pty_host.rs:187-200 | one read: the buffer still holds the last bytes of everything recorded, under a sequence number that saturates at the 64-bit maximum |
| PtyHost.PtySession.Backlog | desktop/src-tauri/src/pty_host.rs:308-315 | the decoding of the last bytes of everything recorded and the number of recordings; while every recording was a read, with nothing dropped and nothing pending, the text a client would have seen live |
| PtyHost.LastOfLast | desktop/src-tauri/src/pty_host.rs:22-36 | cutting after every append is cutting once at the end |
| PtyHost.NumbersIncrease | desktop/src-tauri/src/pty_host.rs:195-213 | event numbers strictly increase and never exceed the number of reads |
| PtyHost.EventTextIsDecoderText | desktop/src-tauri/src/pty_host.rs:200-213 | events carry the decoder's text, nothing more or less, although empty texts emit none |
| PtyHost.AboveWatermark | desktop/src-tauri/src/pty_host.rs:187-213 | the events above a watermark carry exactly the text of the later reads |
| PtyHost.SaturatedWatermark | desktop/src-tauri/src/pty_host.rs:195-196 | once the counter has saturated the client's filter drops every event |
| PtyHost.ReplaySpellsStream | desktop/src-tauri/src/pty_host.rs:178-213 | replay, later events and flush spell the whole stream if and only if nothing was pending at the watermark |
| PtyHost.FlushDoublesTail | desktop/src-tauri/src/pty_host.rs:218-232 | whatever the buffer still holds after the flush decodes as before and is followed by one replacement too many |
| PtyHub.StepKeepsGood | desktop/src-tauri/src/pty_host.rs:178-258 | every step of a reader, and a kill between any two of them, keeps backlog, watermark, events and reap count in agreement |
| PtyHub.ReapedExactlyOnce | desktop/src-tauri/src/pty_host.rs:245-296 | in every interleaving of kills and readers a session leaves the map once, its child is waited on exactly once, nothing in the map is marked killed, and a finished reader announced one exit |
| PtyHub.ReplayAcrossRuns | desktop/src-tauri/src/pty_host.rs:178-213 | over whole runs a backlog holds the last bytes of the reads it counts, and replay plus filtered events spell the stream exactly when no character was cut |
| PtyHub.WholeStreamEmitted | desktop/src-tauri/src/pty_host.rs:214-243 | a terminal that ends without a kill has emitted its whole stream, decoded |
| PtyHub.FlushIsNumberedLast | desktop/src-tauri/src/pty_host.rs:218-243 | short of saturation every event of a terminal that flushed, the flush included, has a higher number than those before it |
| PtyHub.FollowedToTheEnd | desktop/src-tauri/src/pty_host.rs:178-243 | a client that replays a backlog and follows the terminal to its end sees the whole stream, flush included, if and only if the watermark cut no character |
| PtyHub.KillTakesTheEntry | desktop/src-tauri/src/pty_host.rs:285-296 | a kill takes the entry, waits for the child once and leaves the reader alone |
| PtyHub.KilledIsSilent | desktop/src-tauri/src/pty_host.rs:187-226 | once the entry is gone no read is recorded and, beyond an event already under way, nothing is emitted in any later state |
| WorkPages.LinesAreInjective | crates/codegen/grokptah-agent-bridge/src/orchestration/work_page.rs:940-949 | the text behind a list fence determines the attempts, if their digests do not collide |
| WorkPages.ListFenceDetermines | crates/codegen/grokptah-agent-bridge/src/orchestration/work_page.rs:935-949 | equal list fences mean equal attempt lists |
| WorkPages.TakeFenced | crates/codegen/grokptah-agent-bridge/src/orchestration/work_page.rs:1072-1127 | the server's loop that packs a fenced page returns the specified slice, cursor and completeness, or the refusal |
| WorkPages.TakeOutcome | crates/codegen/grokptah-agent-bridge/src/orchestration/work_page.rs:1423-1488 | the same for a result page that runs over evidence and then artifacts |
| WorkPages.SpanGrows | crates/codegen/grokptah-agent-bridge/src/orchestration/work_page.rs:1423-1488 | taking one more entry of evidence and artifacts extends exactly one of the two spans |
| WorkPages.CutServesExactly | crates/codegen/grokptah-agent-bridge/src/orchestration/work_page.rs:1072-1127 | a budgeted page is served if and only if its first element fits, and is then the longest the limit and the budget allow |
| WorkPages.NestedAnsweredExactly | crates/codegen/grokptah-agent-bridge/src/orchestration/work_page.rs:984-1045 | a request about one attempt is answered if and only if it is well posed, names by a safe id an attempt of this item, comes under the current fence (or without one at offset 0), and fits |
| WorkPages.AnsweredExactly | crates/codegen/grokptah-agent-bridge/src/orchestration/work_page.rs:1272-1511 | any other request is answered if and only if its limit, fence and attempt id are in order, its fence holds, its offset is not past the end and its section fits |
| WorkPages.AnswersFit | crates/codegen/grokptah-agent-bridge/src/orchestration/work_page.rs:1272-1511 | whatever is answered fits the transport |
| WorkWorld.LawfulWorld | desktop/src-tauri/src/remote_service.rs:1169-1244 | the assumptions about the server's history are satisfiable, with an item and attempts that change and fences that tell them apart |
| WorkWorld.FencedPage | crates/codegen/grokptah-agent-bridge/src/orchestration/work_page.rs:1072-1250 | a fenced page is a slice of the collection as it stood at that call, under that collection's fence |
| WorkWorld.SameFenceSameCollection | crates/codegen/grokptah-agent-bridge/src/orchestration/work_page.rs:935-949 | pages under one fence are slices of one collection, even at different times |
| WorkWorld.QuietFencedPage | crates/codegen/grokptah-agent-bridge/src/orchestration/work_page.rs:1170-1250 | against a quiet server a servable request is answered with a full page |
| WorkWalks.Judge | desktop/src-tauri/src/remote_service.rs:1481-1542 | one page's verdict: refuse on any changed revision or fence, finish when complete, else continue at a strictly larger offset |
| WorkWalks.JudgeTakesExactly | desktop/src-tauri/src/remote_service.rs:1481-1542 | against any server a walk takes a page if and only if item, revision, attempt and fence match and it is the last or brings something and leads on; what it takes is appended |
| WorkWalks.CollectDetailArray | desktop/src-tauri/src/remote_service.rs:1262-1310 | at most 1024 calls at strictly increasing offsets against any server; a success is the whole dependency array of one revision; against a quiet server it succeeds |
| WorkWalks.JudgeResult | desktop/src-tauri/src/remote_service.rs:1312-1371 | one result page's verdict: continuing means a strictly larger offset and metadata in hand |
| WorkWalks.JudgeResultTakesExactly | desktop/src-tauri/src/remote_service.rs:1312-1371 | a result page is taken on the same terms, and only with the summary and completion time of the first |
| WorkWalks.ResultStep | desktop/src-tauri/src/remote_service.rs:1312-1371 | against an honest server a page either completes the result the first call saw or extends a prefix of it |
| WorkWalks.CollectDetailResult | desktop/src-tauri/src/remote_service.rs:1312-1371 | the same for the result, evidence and artifacts together |
| WorkWalks.CollectFencedArray | desktop/src-tauri/src/remote_service.rs:1481-1542 | the same for a fenced collection, although its pages are read at different times |
| WorkRead.AttemptRoundTrip | desktop/src-tauri/src/remote_service.rs:2181-2220 | assembling the parts the server split off gives back the attempt, and only the right parts do |
| WorkRead.ResultRoundTrip | desktop/src-tauri/src/remote_service.rs:2222-2245 | assembling metadata, evidence and artifacts gives back the result |
| WorkRead.ResultAssemblesExactly | desktop/src-tauri/src/remote_service.rs:2222-2245 | a result comes exactly from complete metadata, no result exactly from nothing, and no element is dropped |
| WorkRead.CollectAttemptView | desktop/src-tauri/src/remote_service.rs:1424-1475 | one attempt read in three walks under its own fence is that attempt as it stood when the list was fenced |
| WorkRead.CollectAttemptViews | desktop/src-tauri/src/remote_service.rs:1407-1479 | a success returns exactly the attempts as they stood when the list was fenced |
| WorkRead.ReadCompleteDetail | desktop/src-tauri/src/remote_service.rs:1246-1260 | a section read in one page is that section of the item at the reported revision |
| WorkRead.OneInstant | desktop/src-tauri/src/remote_service.rs:1169-1244 | an item of one revision and a list fenced under it stood together at one instant |
| WorkRead.ReadWorkThroughDetail | desktop/src-tauri/src/remote_service.rs:1169-1244 | whatever the server did meanwhile, a success equals the item and the attempts of one instant during the read; against a quiet server the read succeeds |
| ComputerRuns.FindElement | desktop/src-tauri/src/computer_use.rs:1017-1024 | the first observed element with an id, or none if there is none |
| ComputerRuns.ApprovalCopyIsExact | desktop/src-tauri/src/computer_use.rs:1008-1041 | an action can be staged if and only if it focuses the application or is a semantic action that an enabled, permitted, observed element advertises |
| ComputerRuns.ApprovalCopyNames | desktop/src-tauri/src/computer_use.rs:1008-1041 | the text shown names the act and the element, by its name or else its role; only typing is marked as text entry |
| ComputerRuns.MutationLaws | crates/codegen/grokptah-agent-bridge/src/computer_use/types.rs:756-808 | every service mutation fixes owner and kind, never lowers version or epoch, raises the version on every state change, leaves terminal runs alone and cannot undo an operator takeover |
| ComputerRuns.PrepareConsumesVersion | crates/codegen/grokptah-agent-bridge/src/computer_use/service.rs:405-523 | an action is prepared only on a ready run at its version and observation, under a live grant, and uses that version up |
| ComputerRuns.PrepareAdmitsExactly | crates/codegen/grokptah-agent-bridge/src/computer_use/service.rs:405-523 | with clock and policy in favour those conditions, and an action left, are all it takes |
| ComputerRuns.AuthorizeExactly | crates/codegen/grokptah-agent-bridge/src/computer_use/service.rs:196-237 | a permitted grant is taken if and only if the run waits for one or was paused, at the version seen, not after a takeover, for no more uses than actions |
| ComputerRuns.ObserveExactly | crates/codegen/grokptah-agent-bridge/src/computer_use/service.rs:239-267 | within budget an observation starts if and only if the run is ready, authorized and at the version seen |
| ComputerRuns.ObservationIsTakenExactly | crates/codegen/grokptah-agent-bridge/src/computer_use/service.rs:725-788 | what was observed becomes current if and only if the run still waits for it and it passes the checks; it makes the run ready at a new version |
| ComputerRuns.LimitEndsRun | crates/codegen/grokptah-agent-bridge/src/computer_use/service.rs:251-264 | out of budget the next step ends the run at its limit and takes its authority |
| ComputerRuns.OperatorControl | crates/codegen/grokptah-agent-bridge/src/computer_use/service.rs:538-640 | pause and take over work at the version seen on every authorized run that has not ended, cancel on every run that has not ended; each takes all authority away; anything else changes nothing |
| ComputerRuns.ControlStopsActions | crates/codegen/grokptah-agent-bridge/src/computer_use/service.rs:796-818 | after the operator stepped in nothing in flight is booked and nothing new starts |
| ComputerRuns.LateActIsNeverBooked | crates/codegen/grokptah-agent-bridge/src/computer_use/service.rs:796-818 | over any history, an action in flight when the operator stepped in is never booked, not even after the run was authorized again and is acting once more |
| ComputerRuns.AgentCycle | crates/codegen/grokptah-agent-bridge/src/computer_use/service.rs:725-860 | authorize, observe, act: one action is booked, and the run is ready, paused for want of uses, or at its limit |
| ComputerRuns.EndingsTakeEffect | crates/codegen/grokptah-agent-bridge/src/computer_use/service.rs:863-900 | a failed backend call ends the run without authority, marked uncertain if it may have landed; only a verified completion ends a ready run |
| ComputerRuns.BudgetIsKept | crates/codegen/grokptah-agent-bridge/src/computer_use/service.rs:798-870 | the action count stays within its limit, grows only by committing an action in flight, spends one use each time, and a revoked grant stays revoked |
| ComputerApproval.StepKeepsGood | desktop/src-tauri/src/computer_use.rs:591-638 | every step of stage and approve, and every clear, snapshot and service mutation between them, keeps the approval invariant |
| ComputerApproval.ReachesActOnce | desktop/src-tauri/src/computer_use.rs:747-786 | in every run each approval id is handed to `act` at most once, by a call of its owner that names it, and none that was can be looked up again |
| ComputerApproval.OneUse | desktop/src-tauri/src/computer_use.rs:747-786 | in every run each approval id, each request id and each version of a run is sent to the backend at most once |
| ComputerApproval.ExactUse | desktop/src-tauri/src/computer_use.rs:591-638 | every dispatch is exactly what was staged, on a ready run of its owner at its version, with the very observation it was admissible against |
| ComputerApproval.AskedByItsOwner | desktop/src-tauri/src/computer_use.rs:754-762 | in every run whatever is handed to `act` or sent was asked for by the session that staged it, under the id it was staged as |
| ComputerApproval.ForeignApproveDoesNothing | desktop/src-tauri/src/computer_use.rs:754-762 | an undisturbed approve by another session or of another id leaves the whole state as it was |
| ComputerApproval.DeadIsNeverSent | desktop/src-tauri/src/computer_use.rs:799-922 | an approval that left the slot and that no call holds, or whose run has moved on, is never dispatched later |
| ComputerApproval.DiscardRetires | desktop/src-tauri/src/computer_use.rs:788-797 | a discard by the approval's owner and a snapshot by any other session empty the slot and, if no call holds the approval, kill it; a discard by another and a snapshot by the owner change nothing |
| ComputerApproval.ControlKillsApproval | desktop/src-tauri/src/computer_use.rs:799-826 | pausing, taking over or stopping the run kills its approval unless the action is already on its way |
| ComputerApproval.StageStages | desktop/src-tauri/src/computer_use.rs:551-638 | an undisturbed stage fills the slot under a new id if and only if the slot is free, the run is ready at the version and observation named, its own session asks, and the action is valid and admissible; otherwise nothing changes |
| ComputerApproval.ApproveSendsExactly | desktop/src-tauri/src/computer_use.rs:747-786 | an undisturbed approve sends the staged approval, once, if and only if it is named by its owner under a new request and its run is ready, unchanged, authorized and within budget; the slot is emptied whenever it was named and its run exists |
| ComputerApproval.StaleApproveClears | desktop/src-tauri/src/computer_use.rs:763-772 | an undisturbed approve of an approval whose run moved on sends nothing and empties the slot |
| ComputerApproval.RefusedByTheService | desktop/src-tauri/src/computer_use.rs:763-783 | a detached backend ends stage and approve with nothing changed; a receipt that cannot be written ends approve with nothing sent |
| ComputerApproval.ClaimedElsewhere | crates/codegen/grokptah-agent-bridge/src/computer_use/service.rs:945-969 | a request id the service has seen sends nothing |
| ComputerApproval.EndToEnd | desktop/src-tauri/src/computer_use.rs:551-786 | create, authorize, observe, stage, approve from an empty service: exactly the staged action is sent, once, if and only if it was admissible |
| ComputerNative.StepKeepsGood | desktop/src-tauri/src/computer_use.rs:420-526 | every step of a simulator start, a native start and a one-off observation, with runs ending at any moment, keeps the accounts |
| ComputerNative.BackendsStayAttached | desktop/src-tauri/src/computer_use.rs:924-943 | at most 32 native backends, and every started native run that has not ended still has its backend |
| ComputerNative.OneLiveRunPerSession | desktop/src-tauri/src/computer_use.rs:972-983 | of two live runs of one session at least one comes from a one-off observation |
| ComputerNative.SimulatorStarts | desktop/src-tauri/src/computer_use.rs:420-457 | an undisturbed simulator start creates a run if and only if its session has no live run |
| ComputerNative.NativeStarts | desktop/src-tauri/src/computer_use.rs:459-523 | an undisturbed native start succeeds if and only if its session has no live run and fewer than 32 live runs hold a backend; backends of ended runs are given up first |
| ComputerNative.RefusedStartLeavesNoBackend | desktop/src-tauri/src/computer_use.rs:509-522 | a native start whose authorization is refused gives its backend back and ends its run if it can |
| ComputerNative.FailedEffectEnds | desktop/src-tauri/src/computer_use.rs:420-526 | a step that fails before anything was created ends the call and leaves the rest alone |
| ComputerNative.EndedRunFreesBackend | desktop/src-tauri/src/computer_use.rs:924-943 | a run that ends makes room for exactly one more |
| ComputerNative.ObservationEnds | desktop/src-tauri/src/computer_use.rs:278-375 | an undisturbed observation leaves one more run, and that run is over |
| ComputerNative.ObservationOverlapsStart | desktop/src-tauri/src/computer_use.rs:278-375 | a run in which one session has a live observation run and a live simulator run |
| PromptQueue.MergeableRun | crates/codegen/grokptah-agent-bridge/src/prompt_combine.rs:24-52 | the longest run of mergeable entries at the head: all in it merge, the next one does not |
| PromptQueue.BatchesArePlain | crates/codegen/grokptah-agent-bridge/src/prompt_combine.rs:24-52 | a batch of several is all plain prompts with text and as long as it can be; anything else goes alone |
| PromptQueue.CombinePrefixLen | crates/codegen/grokptah-agent-bridge/src/prompt_combine.rs:33-52 | the loop computes the length of the batch |
| PromptQueue.JoinTexts | crates/codegen/grokptah-agent-bridge/src/prompt_combine.rs:54-60 | the loop joins the non-empty texts |
| PromptQueue.SessionPromptQueue.TakeNext | crates/codegen/grokptah-agent-bridge/src/prompt_queue.rs:388-423 | the batch and what is left are the old queue, in order, and the batch is as long as it may be |
| PromptQueue.SessionPromptQueue.RestoreBatch | crates/codegen/grokptah-agent-bridge/src/prompt_queue.rs:425-437 | the batch is back at the head in its order, each version raised by one |
| PromptQueue.RestoreUndoesTake | crates/codegen/grokptah-agent-bridge/src/prompt_queue.rs:388-437 | taking and handing back is the identity but for the versions of the batch |
| PromptQueue.JoinIsBlankIffAllAre | desktop/src/App.tsx:2280-2296 | the joined text is blank for the desktop if and only if every text in it is |
| PromptQueue.TrimsDisagree | crates/codegen/grokptah-agent-bridge/src/prompt_queue.rs:440-449 | a prompt of one byte-order mark is not empty for the bridge and empty for the desktop |
| PromptDrain.StepKeepsGood | crates/codegen/grokptah-agent-bridge/src/host.rs:7267-7372 | every step of a drain, and every queue edit, turn, reservation and expiry between them, keeps the accounts |
| PromptDrain.NoPromptIsLost | desktop/src/App.tsx:2266-2317 | in every run every entry ever added is queued, in the drain's hand, submitted, removed, or handed to a restore that failed; anything dropped was blank for the desktop |
| PromptDrain.IdleHoldsNothing | desktop/src/App.tsx:2294-2317 | with no drain running nothing is in hand and no reservation of a drain is left, unless a restore failed |
| PromptDrain.OneDrainNoCopies | desktop/src/App.tsx:2266-2268 | at most one drain runs, and queue and hand never hold an entry twice |
| PromptDrain.RepeatsComeFromLateFailures | desktop/src/App.tsx:2292-2306 | a submitted entry is back in the queue only through a restore after its turn had started |
| PromptDrain.RepeatsNeedAFailure | desktop/src/App.tsx:2292-2306 | over runs with their actions an entry counts as repeated only if some earlier step failed its turn after it had started |
| PromptDrain.RunsOnceMoreThanItFails | desktop/src/App.tsx:2266-2317 | a prompt is started at most once more often than its turns failed after starting, and while it waits no more often than they failed; so without such a failure none runs twice |
| PromptDrain.SettledTurnLeavesNothing | desktop/src/App.tsx:2287-2292 | a turn that succeeded ends its drain with queue, slot and history as they were and none of the batch in the queue |
| PromptDrain.UndisturbedDrainSubmits | desktop/src/App.tsx:2266-2292 | an undisturbed drain moves exactly its batch from the queue into one turn |
| PromptDrain.ReservationKeepsTheTurn | crates/codegen/grokptah-agent-bridge/src/host.rs:7267-7332 | in every run a drain about to start its turn can start it if and only if its reservation stands; while a slot is reserved no turn runs |
| PromptDrain.ReservationsAreTheirOwners | crates/codegen/grokptah-agent-bridge/src/host.rs:4068-4079 | a reservation goes only by its owner's release, its expiry, or its own drain starting or handing back |
| PromptDrain.FruitlessTakeChangesNothing | crates/codegen/grokptah-agent-bridge/src/host.rs:7274-7290 | a take that fails, or finds a turn, a reservation or an empty queue, ends the drain and changes nothing else |
| PromptDrain.OtherTurnBlocksTake | crates/codegen/grokptah-agent-bridge/src/host.rs:7274-7290 | another turn keeps a drain from taking anything until it ends |
| PromptDrain.OtherReservationBlocksTake | crates/codegen/grokptah-agent-bridge/src/host.rs:3878-3905 | another's reservation does so until it is released |
| PromptDrain.ExpiryFreesTheSlot | crates/codegen/grokptah-agent-bridge/src/host.rs:273-286 | an expired reservation is free for others and no longer starts a turn |
| PromptDrain.AddedEntryIsPlaced | crates/codegen/grokptah-agent-bridge/src/prompt_queue.rs:166-182 | an entry added in front begins the next batch; another goes behind everything queued |
| PromptDrain.EditsTakeEffect | crates/codegen/grokptah-agent-bridge/src/prompt_queue.rs:223-288 | a removed entry is gone and the rest closes up; a reordered queue is what the next take sees |
| PromptDrain.LateFailureRepeats | desktop/src/App.tsx:2788-2806 | a failure after the turn started does put the batch back |
| PromptDrain.TakeDropsOnlyBlanks | desktop/src/App.tsx:2280-2296 | a take drops its batch if and only if every text in it is blank for the desktop |
| PromptDrain.RefusedDrainRestores | crates/codegen/grokptah-agent-bridge/src/host.rs:7333-7372 | a drain whose turn is refused leaves the same entries in the same order and the slot free |
| PromptDrain.MarkOnlyPromptIsDropped | desktop/src/App.tsx:2280-2296 | a run in which a prompt of one byte-order mark is queued, taken and gone |
| LaneScope.OneAtATime | desktop/src/App.tsx:1188-1200 | promotions reach the bridge one at a time and in request order |
| LaneScope.EveryPromotionIsCalled | desktop/src/App.tsx:1188-1200 | every promotion that is no longer waiting was handed to the bridge |
| LaneScope.OnlyTheNewestWrites | desktop/src/App.tsx:1202-1329 | a continuation of any request but the newest writes no scope state |
| LaneScope.PendingIsTheNewest | desktop/src/App.tsx:1338-1401 | the pending lane is the newest request's lane exactly while it is not over, and none otherwise |
| LaneScope.SettledIsLast | crates/codegen/grokptah-agent-bridge/src/host.rs:3730-3794 | a promotion that settles is the last that loaded, in request order, whoever else has written the scope before |
| LaneScope.BridgeFollowsTheNewest | crates/codegen/grokptah-agent-bridge/src/host.rs:3730-3794 | with turn starts, creations, forks, archivings, removals and computer runs also writing it, the bridge's scope is the last live lane that loaded, and so the newest once it has, as long as nothing was written after that load, and otherwise what the last such writer wrote |
| LaneScope.DesktopFollowsTheBridge | desktop/src/App.tsx:1474-1501 | the desktop's scope is always the value the bridge's scope had after the write it was taken from |
| LaneScope.DesktopNamesTheNewest | desktop/src/App.tsx:1292-1303 | after the newest request committed, the desktop names its lane until a status is applied and then what the last status said; with no other write, only a status read before the load can part desktop and bridge |
| LaneScope.CommitNamesTheLane | desktop/src/App.tsx:1361-1372 | a request gets to write the desktop's scope if and only if it is the newest and its lane loaded (and, for a tab, its transcript was read); a live one then makes its lane the desktop's scope, if there is a status |
| LaneScope.CommitterIsTheNewest | desktop/src/App.tsx:1292-1303 | in every run a live request that had not committed when there was a status, and is the newest and has committed now, is the one that last wrote the desktop's scope |
| LaneScope.FocusMovesBoth | desktop/src/App.tsx:1338-1401 | a run in which focusing a lane moves desktop and bridge from the old lane to the new one |
| LaneScope.OpenMovesBoth | desktop/src/App.tsx:1202-1329 | a run in which opening a lane in a tab does so |
| LaneScope.BlockedIsTheNewest | desktop/src/App.tsx:1306-1309 | in every run a lane is shown as blocked if and only if the newest request was for it and failed |
| LaneScope.FailedExactly | desktop/src/App.tsx:1306-1329 | a request counts as failed exactly from the step that threw: the promotion, the transcript or the list of subagents |
| LaneScope.StatusesApplyInOrder | desktop/src/App.tsx:1474-1501 | in every run statuses are applied in order: a later one never says what the bridge's scope was before an earlier one |
| LaneScope.StatusCatchesUp | desktop/src/App.tsx:1474-1501 | a status asked, read and applied undisturbed makes the desktop's scope the bridge's |
| LaneScope.ScopeHasTwoWriters | desktop/src/App.tsx:1361-1372 | the desktop's scope changes only by a status, or by the newest live request committing its own lane |
| LaneScope.OtherWriteMovesBridge | crates/codegen/grokptah-agent-bridge/src/host.rs:7950-7950 | a run in which a turn elsewhere takes the bridge's scope off the newest lane |
| LaneScope.OldStatusHidesLane | desktop/src/App.tsx:1474-1501 | a run in which a status read before the load hides the committed lane |
| RunRefresh.LatestRequestGuard.Begin | desktop/src/lib/latestRequest.ts:8-13 | a new request is current and numbered above every earlier one |
| RunRefresh.NewestDecides | desktop/src/App.tsx:487-558 | the in-flight record names the newest request and its scope, busy exactly when it is present; when not busy the list shows the newest request's answer and scope, changed by exactly the clears and patches since |
| RunRefresh.StaleAnswersShowNothing | desktop/src/App.tsx:510-551 | an answer to any other request changes nothing shown and ends nothing |
| RunRefresh.NewestAnswerShows | desktop/src/App.tsx:510-551 | the newest request's answer goes on the screen with its scope, a failure as an empty list, and ends the refresh |
| RunRefresh.RefreshIsSuppressedExactly | desktop/src/App.tsx:487-510 | a refresh is suppressed if and only if the newest request is for the same scope and unanswered; otherwise it becomes the newest |
| RunRefresh.EditChangesExactly | desktop/src/App.tsx:462-470 | a write past the guard changes the screen if and only if it clears something, or brings news of a run to an all-remote list |
| RunRefresh.PatchTouchesOneEntry | desktop/src/App.tsx:462-470 | an update puts the run in its place, or at the end if it is new, and touches no other entry |
| RunRefresh.LabelIsNewestExactly | desktop/src/App.tsx:642-690 | the label of an idle list is the newest request's scope if and only if the list was not cleared since, or there was none |
| RunRefresh.ShowsNewestUntilEdited | desktop/src/App.tsx:450-558 | an idle list is the newest answer until the first write past it that takes effect, which parts the two |
| RunRefresh.DisconnectHidesAnswer | desktop/src/App.tsx:675-690 | a run in which an idle list is empty although the newest answer was not |
| RunTimeline.MergedIsFirstHeld | desktop/src/components/RunInspector.tsx:314-317 | filter and sort give a strictly ascending timeline that keeps, for each number, the entry met first |
| RunTimeline.AscendingIsUnique | desktop/src/components/RunInspector.tsx:314-317 | such a timeline is determined by what it holds |
| RunTimeline.SkippedBatchIsOld | desktop/src/components/RunInspector.tsx:318-325 | a batch that leaves the count unchanged brings no new number, so skipping it is exact |
| RunTimeline.TimelineIsExact | desktop/src/components/RunInspector.tsx:307-329 | over any batches from an empty page: strictly ascending, exactly the delivered numbers, the first delivery kept, the cursor the largest number |
| RunTimeline.MergeLiveEvents | desktop/src/components/RunInspector.tsx:309-328 | the loop over runs merges each run with live events and leaves every other page alone |
| RunTimeline.MergeKeepsExpiry | desktop/src/components/RunInspector.tsx:318-325 | a live batch decides nothing about whether older events are still available |
| RunPages.LoadAscendsExactly | desktop/src/components/RunInspector.tsx:549-558 | a page loaded after an ascending timeline keeps it ascending if and only if each of its entries is held already or lies above everything held |
| RunPages.BusPageIsHonest | crates/codegen/grokptah-agent-bridge/src/host.rs:2738-2762 | a page of the bus of all sessions, cut and given its cursor before the run's part is taken, is complete for the run up to that cursor, also as the bus grows |
| RunPages.EmptyPageMovesCursor | crates/codegen/grokptah-agent-bridge/src/event_bus.rs:759-800 | a page without entries moves the cursor, exactly over a stretch in which the run has none |
| RunPages.GapStays | desktop/src/components/RunInspector.tsx:537-560 | a number the cursor has passed stays missing through all later batches without it and all later pages, until the timeline is loaded from the start or reset |
| RunPages.ResetDisowns | desktop/src/components/RunInspector.tsx:330-336 | a change of scope shows nothing of the old one and disowns the answers under way |
| RunPages.LiveBatchLeavesGap | desktop/src/components/RunInspector.tsx:318-323 | a live batch past entries not yet loaded leaves such a gap |
| RunPages.LoadsSpellJournal | desktop/src/components/RunInspector.tsx:537-560 | loading from the start and then again and again from the cursor holds exactly the run's journal up to the cursor, in order, however the pages were cut |
| RunPages.TimelineStaysExact | desktop/src/components/RunInspector.tsx:309-336 | over every mixture of live batches, loads and resets the timeline holds each number once, and exactly those a batch brought or a loaded stretch covered since it was last replaced |
| RunPages.NoGapExactly | desktop/src/components/RunInspector.tsx:309-560 | so it misses nothing up to a number if and only if every journal entry up to it was brought or covered |
| Transcript.CollapseAdjacent | desktop/src/App.tsx:245-271 | the loop over a mutable list computes the collapse |
| Transcript.CollapseIsNormal | desktop/src/App.tsx:245-271 | no two neighbouring assistants remain of which one begins the other, also after a merge grew the text |
| Transcript.CollapseIsIdempotent | desktop/src/App.tsx:245-271 | collapsing twice is collapsing once |
| Transcript.CollapseKeepsOthers | desktop/src/App.tsx:245-271 | everything that is not an assistant bubble is kept, in order |
| Transcript.CollapseKeepsReplies | desktop/src/App.tsx:253-264 | the trimmed text of every bubble begins some bubble that is kept |
| Transcript.CollapseQuotes | desktop/src/App.tsx:253-264 | every bubble that is kept has, to the letter, the text of a bubble that was there |
| Whitespace.TrimIsExact | desktop/src/App.tsx:253-256 | trimming takes white space off both ends and nothing else |
| Transcript.FindTurnStart | desktop/src/App.tsx:203-211 | the backward scan finds the end of the last user item |
| Transcript.FinalizeShape | desktop/src/App.tsx:199-242 | after the last user item: every other item, settled and in order, then at most one reply |
| Transcript.SettledItems | desktop/src/App.tsx:212-228 | after a turn nothing of it streams and every tool has a status; a status that was there stays |
| Transcript.ReplyIsNeverEmpty | desktop/src/App.tsx:229-242 | the reply is shown trimmed and squashed, and never as an empty bubble |
| Transcript.FinalizeIsIdempotent | desktop/src/App.tsx:199-242 | finalizing twice with one reply is finalizing once |
| RemoteCalls.RemoteIsFound | desktop/src-tauri/src/remote_service.rs:2275-2279 | a stable refusal is seen in a rendered remote error exactly when its code begins with it or quotes it |
| RemoteCalls.ReconnectsExactly | desktop/src-tauri/src/remote_service.rs:2251-2279 | of the client's errors, lost and unreadable answers reconnect, the status error never, a remote error exactly when its code is not a stable refusal |
| RemoteCalls.RenderedStatusReconnects | desktop/src-tauri/src/remote_service.rs:2251-2271 | an error text that does carry its status, written in decimal, reconnects if and only if the status is 408, 429 or a server error, or the session is unknown |
| RemoteCalls.KnownCodesAreStableOrNot | crates/codegen/grokptah-agent-bridge/src/mcp_control_client.rs:704-713 | of the codes the client lets through exactly three read as stable refusals |
| RemoteCalls.SentAgainExactly | crates/codegen/grokptah-agent-bridge/src/mcp_control_client.rs:357-408 | from status and body to the second send, for every answer to one request of a call |
| RemoteCalls.ToolErrorsReconnectExactly | crates/codegen/grokptah-agent-bridge/src/mcp_control_client.rs:589-745 | of the errors a call raises from the listed tools, a malformed listing reconnects, an unlisted tool and unfitting arguments never do |
| RemoteCalls.ErrorStatusSentAgainExactly | crates/codegen/grokptah-agent-bridge/src/mcp_control_client.rs:378-402 | an answer with an error status is sent again if and only if its body is too large, cut off, not JSON, or an error that is not a stable refusal; which error status plays no part |
| RemoteCalls.RetryableStatusesAndConflicts | desktop/src-tauri/src/remote_service.rs:2247-2271 | a 503 in plain JSON is not sent again, a 503 with an empty body is, and so is a conflict |
| RemoteRetry.AtMostTwoIdenticalSends | desktop/src-tauri/src/remote_service.rs:859-883 | over every run a call sends at most two messages, with identical arguments, the second only after a reconnectable error |
| RemoteRetry.ReconnectSendsAgain | desktop/src-tauri/src/remote_service.rs:859-883 | a call whose first attempt ends in a reconnectable error and whose reconnect succeeds sends its arguments again; after any other error or a failed reconnect it is over |
| RemoteRetry.SendsGrowExactly | desktop/src-tauri/src/remote_service.rs:859-883 | nothing else sends a message |
| RemoteRetry.AnsweredCallEnds | desktop/src-tauri/src/remote_service.rs:859-883 | an answered call is over with nothing sent again |
| RemoteRetry.PerformedExactly | crates/codegen/grokptah-agent-bridge/src/orchestration/store.rs:10122-10210 | whatever is lost, delayed or repeated, a message that arrives is performed if and only if it carries no request id, or one not on record, not reserved, with a free slot in its workspace after the oldest finished receipt was dropped, and whose receipt can be written |
| RemoteRetry.FullWorkspaceRefuses | crates/codegen/grokptah-agent-bridge/src/orchestration/store.rs:10180-10191 | a full workspace with nothing to drop refuses every new request and changes nothing |
| RemoteRetry.NewRequestIsRefused | crates/codegen/grokptah-agent-bridge/src/orchestration/store.rs:10180-10191 | a run in which a request that was never performed arrives and is refused |
| RemoteRetry.PerformedAgainOnlyIfPruned | crates/codegen/grokptah-agent-bridge/src/orchestration/store.rs:9619-9730 | between two performances of one request id its receipt was dropped, by retention or at capacity |
| RemoteRetry.UnfinishedIsKept | crates/codegen/grokptah-agent-bridge/src/orchestration/store.rs:9619-9730 | a receipt goes only once its mutation is finished |
| RemoteRetry.OneEffectPerCall | desktop/src-tauri/src/remote_service.rs:942-965 | a call has two effects only without a request id or with its receipt dropped in between |
| RemoteRetry.UnnumberedCallRunsTwice | desktop/src-tauri/src/remote_service.rs:859-883 | for every call without a request id a run in which it is performed twice |
| EventReplay.EmitPage | desktop/src-tauri/src/remote_service.rs:2129-2145 | the loop over a page computes what is emitted and the cursor after it |
| EventReplay.EmittedClimbs | desktop/src-tauri/src/remote_service.rs:2129-2145 | what a page makes emitted strictly increases, above the cursor and up to the new one |
| EventReplay.OrderedPageIsEmitted | desktop/src-tauri/src/remote_service.rs:2129-2145 | of an ordered page nothing above the cursor is skipped |
| EventReplay.Replay | desktop/src-tauri/src/remote_service.rs:2101-2151 | against any page source: strictly increasing emissions above the start, a cursor that never falls, strictly higher cursors on every further call; against honest pages nothing at or below the final cursor is left out |
| EventReplay.ServerIsHonest | crates/codegen/grokptah-agent-bridge/src/orchestration/service.rs:7936-7967 | the server's pages are honest about the journal, also as it grows |
| EventReplay.ReplayServer | desktop/src-tauri/src/remote_service.rs:2146-2149 | against the server's pages: exactly the first 500 entries above the cursor, in order, and so the whole tail if and only if it has at most 500 |
| EventReplay.Watch | desktop/src-tauri/src/remote_service.rs:1964-2061 | over any inputs: the watcher stops at the first completed turn or expired cursor and not before; a live event or a gap raises the cursor to its number; at a gap exactly the replay from there is emitted; the final cursor is at least every number met, and emissions strictly increase over its whole life |
| EventReplay.CursorRises | desktop/src-tauri/src/remote_service.rs:1984-1990 | the cursor never falls and is at least every number met before |
| EventReplay.ReplaysNeverRepeat | desktop/src-tauri/src/remote_service.rs:1989-1992 | a replay emits nothing at or below a live event, a gap or an emission that came before it |
| Docks.ClampIsSafe | desktop/src/lib/layout.ts:129-157 | bounded, without repeats, nothing invented, a docked focus kept |
| Docks.ClampKeepsMost | desktop/src/lib/layout.ts:129-157 | as many docks stay as fit: the first ones in order, a docked focus beside them |
| Docks.UniqueKeepsFirsts | desktop/src/lib/layout.ts:129-145 | repeats are dropped, not moved: what stays is in the order of first occurrence |
| Docks.ClampDocks | desktop/src/lib/layout.ts:129-157 | the loop computes the clamped docks |
| Docks.FindReplaceAt | desktop/src/App.tsx:1893-1898 | the backward scan finds the rightmost unfocused dock, or the last dock if there is none |
| Docks.DocksStayDistinct | desktop/src/App.tsx:789-810 | over every sequence of normalizations, undocks, closes, peels, opens and drops dock ids stay distinct |
| Docks.NormalizeIsValid | desktop/src/App.tsx:789-810 | only open tabs, within capacity, the focus whenever it is open |
| Docks.NormalizeKeepsValid | desktop/src/App.tsx:789-810 | valid docks are left alone |
| Docks.NormalizeLosesOnlyClosed | desktop/src/App.tsx:789-810 | with room to spare a lane is docked afterwards if and only if it is open and was docked or is the focus |
| Docks.NormalizeIsIdempotent | desktop/src/App.tsx:789-810 | the effect settles after one application |
| Docks.PeelKeepsFocus | desktop/src/App.tsx:1836-1844 | a peel removes exactly one dock, the rightmost unfocused one, and moves nothing else |
| Docks.PeelNeedsDistinct | desktop/src/App.tsx:1836-1844 | with the focus docked twice a peel would empty the stage |
| Docks.UndockTakesOne | desktop/src/App.tsx:1331-1336 | undocking takes out exactly the lane, unless it is not docked or the only dock |
| Docks.DropExchanges | desktop/src/App.tsx:3478-3497 | within capacity a drop exchanges two docks or puts the lane in the place of the dock; every other dock keeps its position, and dropping twice undoes it |
| Docks.BesideShowsTarget | desktop/src/App.tsx:1883-1904 | with or without a focus, the opened lane is shown if and only if the docks with the focus fit the capacity, appended or in place of the rightmost unfocused dock; the focus stays |

## Left out

- WorkRead.ReadWorkThroughDetail: assumes the digests met in one history do not collide, that a revision determines the item, that attempts do not vanish and that a reply that arrives is the server's; `WorkWorld.LawfulWorld` shows the assumptions can hold together.
- WorkPages.TakeFenced: whether a page fits its byte budget is a parameter; JSON encoding and the HMAC of list cursors are not modelled.
- WorkPages.NestedAnsweredExactly: the length of an attempt id is counted in characters, in the original in bytes.
- PtyHub.StepKeepsGood: an application handle is attached from the start; a failing emit is ignored as the code ignores it.
- ComputerApproval.OneUse: one process lifetime, because receipts are pruned at start; ids are counters instead of UUIDs; versions do not saturate at 64 bits.
- ComputerApproval.StepKeepsGood: supervision of effects, audit records and the adaptive review of planned actions are not modelled; clocks and time limits are parameters of a step.
- ComputerRuns.AuthorizeExactly: targets, sensitivity, expiry and the lifetime of a grant are one parameter, as are the target and sequence checks on an observation.
- ComputerNative.StepKeepsGood: a run is reduced to owner, origin and whether it has ended; binding and authorizing are parameters.
- PromptDrain.StepKeepsGood: a take call that fails at the desktop is one the bridge refused, so an answer lost after the bridge took the batch is not modelled; edits, moves and run-next are one step that keeps the ids.
- PromptDrain.OneDrainNoCopies: the drain set of one session; sessions do not share state.
- LaneScope.BridgeFollowsTheNewest: transcripts, completion histories, tabs, status texts and the workspace path beside the active lane are not modelled.
- RunRefresh.NewestDecides: error texts and the connection status a failed remote refresh sets are not modelled.
- RunPages.GapStays: the page size and the loading indicator are not modelled, and an expired cursor is a page without entries or cursor.
- Transcript.FinalizeShape: `collapseRepeatedText` is a parameter.
- RemoteRetry.PerformedExactly: receipts of one owner; what was performed is what the claim admitted, whether or not the mutation then succeeds, and the conversion of receipts of the older format is not modelled.
- RemoteCalls.SentAgainExactly: what a body is (its size, whether it parses, its error code) is given, not decoded; errors with further context around them are not modelled.
- EventReplay.Replay: the page source is abstract, as the desktop's own source of legacy pages is retired.
- Computer Use, prompt drain, lane scope, run refresh and remote calls are state machines on values: aliasing and update in place of the original objects are not captured, only the order of their steps.
- Approval expiry labels of the run inspector, `StreamingText`, Markdown tables and the connection status: easy, or not decided by the code.
- Tauri commands, HTTP and JSON decoding, real terminals, processes and timers: outside the model.
