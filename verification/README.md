# GrantTap verification

Models and proofs for the parts of GrantTap that keep promises across crashes, races and
byte boundaries: the approval winner protocol, the durable task inbox, the outbound frame
queue, the byte codecs of the Rust helper, stream reassembly and paging, the shared-key
cache, at-most-once processing, and the bounded session catalog.

`dafny verify dfyconfig.toml` checks the whole project.

## How the models are built

- **Approval registry** (`Approvals.dfy`). The record directory is a value; every call (hook,
  MCP server, monitor, canceller, timeout, pruner) is a process with a program counter, and
  one event is one file operation of one process. A run is any list of events, so it is any
  interleaving of any number of processes, each of which may crash anywhere. There is no
  lock. `ApprovalAgreement.dfy` proves one invariant for all events, `ApprovalTheorems.dfy`
  the promises, and `ApprovalCalls.dfy` a sequential account of every call that nobody
  disturbs. `ApprovalWaiter.dfy` puts `requestApproval` on top, still interleaved with
  everybody else, and `ApprovalProgress.dfy` shows that its caller gets an answer.
- **Task inbox** (`Journal.dfy`, `TaskPhases.dfy`, `TaskInbox.dfy`). The journal is real
  bytes. A crash leaves any prefix of the record being written; the next append cuts the torn
  tail. The bytes are proved to refine a sequence of events, the phase rules are proved over
  that sequence, and staging, retirement and the removal of a job's directory, one file at a
  time, are proved over runs of the inbox.
- **Outbound queue** (`OutboundQueue.dfy`, `OutboundSafety.dfy`). The class follows the
  source's fields and methods and is proved against a state machine whose events are `send`,
  window and credit messages, timer firings, write completions and `cancel`; the promises
  are proved over every run of that machine.
- **Codecs** (`Salsa20.dfy`, `SecretBox.dfy`, `Base64.dfy`, `WebSocketFrames.dfy`,
  `ByteOrder.dfy`, `Utf8.dfy`). In-place loops over arrays of words and bytes, proved against
  functions, with round trips proved about the functions. A byte is a `bv8`, a word a `bv32`,
  the block counter a number modulo 2^64. `SalsaExample.dfy` traces the worked example of the
  Salsa20 specification.
- **Streams and pages** (`DesktopConnection.dfy`, `TaskFiles.dfy`).
- **Shared-key cache** (`SharedBoxOrder.dfy`, `SharedBox.dfy`). Order and expiry are proved
  on values; the class holds the key arrays themselves and proves that removed ones are
  erased and all others untouched.
- **At most once** (`ReplayWindow.dfy`, `ConfigCommands.dfy`).
- **Catalog** (`SessionCatalog.dfy`, `CatalogReserve.dfy`).

Functions that state what a method computes are the specification of that method; what the
source promises is proved about them as lemmas. Every lemma carries `{:induction false}`, so
that each induction is written out.

## Results that qualify a promise

These promises hold only under a condition. Each has a run or an input that breaks it, and
its exact condition.

- *One resolution per approval* ends when the winner file is removed.
  `StalledCallResolvesAgain` is a run in which two calls are both told that they resolved one
  generation; `ResolvesAgainExactlyWhen` shows that this takes a removed winner.
- *A registration, and a resolution, is kept for a day.* A pruner unlinks by path what it
  judged earlier, so it can take away a record registered (`LatePrunerDropsAFreshRecord`) or
  resolved (`LatePrunerDropsAFreshWinner`) in between. Nothing else takes a record that should
  stay (`EvictsKeptOnlyWhenChanged`), and with clocks that agree such a change is all it takes
  (`EvictsKeptExactlyWhen`).
- *A decision is recorded as it was made* within five minutes of the registration it judged,
  and as an expiry after that (`ResolverIsHeard`). Without a handle the expiry looks the
  request up again, and can expire a registration made in between
  (`LateDecisionExpiresANewRequest`, `JudgedIsResolved`). `acceptApprovalDecision` is exported
  and takes the handle as an option; its one caller in the program
  (`apps/bridge/src/approvals/index.ts`, line 188) always passes one, so that run needs another.
- *The caller gets the decision of the winner* unless it was aborted before it connected:
  then it is told deny even if the record says allow (`AbortedCallerMissesTheAllow`,
  `CallerGetsTheWinner`).
- *A finished job is not handed out again.* Removing the directory deletes files one by one
  in no fixed order. `InterruptedRemovalRevivesAJob` is a run in which a crash leaves the
  request without the journal, the cancelled job is pending again, and the inbox admits its
  claim and its running event. `PendingAgainExactlyWhen` gives the one event that does it,
  `RevivedExactlyWhen` the runs that end so, and `RetiredIsNotPending` shows that taking the
  request first is enough.
- *A job is staged once* exactly when no removal of an earlier retirement is still under way
  (`StaysStagedExactlyWhen`); `LateRemoverLosesAJob` is a run with one. The same remover can
  take away the reported status (`HousekeepingKeepsStatus`).
- *A newly staged job is handed to the worker* exactly when no finished journal was left behind
  (`NewlyStagedIsPendingExactlyWhen`). `maintain` sees to that if its purges wait for the
  removals under way (`NewlyStagedIsPending`); `LateRemoverLeavesAJournal` is a run in which one
  did not.
- *The replay window is bounded* exactly when the file brings in no empty fingerprint
  (`BoundedExactlyWhen`): `accept` tests the oldest for truth and never evicts an empty one.
- *An acknowledged message is not dispatched again* until 2048 others came, of the acceptances
  that no restart lost. A failed save before a restart loses some
  (`FailedSaveDispatchesAgain`); `DispatchedAfterRestartExactlyWhen` says which.
- *A configuration command is applied at most once* while its ledger is kept, if it names a
  base revision. One that names none is applied again exactly when 256 more were recorded and
  its other guards admit it (`AppliedAgainExactlyWhen`, `AppliedAgainAfter256`). An unreadable
  ledger is read as empty: `LostLedgerAppliesAgain` says exactly when any command that ever got
  through is then applied again.
- *The runtime is what the applied commands made of it* until a crash tears a command between
  the two saves (`DepartsExactlyWhen`). A setting differs exactly while a torn command was the
  last to write it, with another value (`DiffersExactlyWhen`). If every torn command is applied
  at some later time, every setting agrees again (`RuntimeIsWhatWasApplied`), though the
  exclusion list may be in another order (`OrderMayDiffer`); applied at once, it agrees to the
  letter (`RetriedAtOnceIsIdentical`). A torn command with a base revision that another overtook
  is refused for as long as the ledger is kept (`OvertakenIsRefused`), and what it wrote stays
  until another command writes there (`TornSettingStays`).

## Model

| member | source | states |
|---|---|---|
| ApprovalAgreement.RunKeepsInv | apps/bridge/src/approvals/records.ts:164-204 | after every interleaving of file operations and crashes, all records, links, winners and program counters agree with each other |
| ApprovalTheorems.Agreement | apps/bridge/src/approvals/records.ts:158-204 | until a winner is removed, all calls that returned an outcome for its generation returned the outcome on disk, and at most one was told it resolved it |
| ApprovalTheorems.RemovedOnlyWhenGone | apps/bridge/src/approvals/records.ts:279-346 | a removed winner's record is not on disk then or at any later time, whatever pruners and registrations follow |
| ApprovalTheorems.LiveWinnerIsImmutable | apps/bridge/src/approvals/records.ts:279-308 | no single step of anyone, orphan cleanup included, removes or changes the winner of a record that is on disk |
| ApprovalTheorems.EveryLinkIsValidAndTimely | apps/bridge/src/approvals/api.ts:76-124 | every file ever linked passes the reader's validation and says what its call said; a linked decision was accepted within five minutes of registration and answers the questions it allows |
| ApprovalTheorems.EveryLinkIsOfItsRequest | apps/bridge/src/approvals/records.ts:103-156 | every file ever linked, and the outcome in it, name the request, generation, session and status of the registration they resolve |
| ApprovalTheorems.ResolverIsHeard | apps/bridge/src/approvals/api.ts:87-124 | a call told it resolved the request finds its own terminal status, and a decision its own verdict exactly when it came within five minutes of the registration it judged, else an expiry |
| ApprovalTheorems.JudgedIsResolved | apps/bridge/src/approvals/api.ts:95-107 | the registration judged for lateness is the one resolved, always with a handle, and without one unless the request was registered anew in between |
| ApprovalTheorems.LateDecisionExpiresANewRequest | apps/bridge/src/approvals/api.ts:95-107 | a reachable state in which a decision too late for one registration has expired the next at age zero |
| ApprovalTheorems.HandleScopesAnswer | apps/bridge/src/approvals/records.ts:251-260 | a call is answered only for its own request id and session, and with a handle only for that generation and fingerprint |
| ApprovalTheorems.HandleIsOfOwnRequest | apps/bridge/src/approvals/api.ts:39-74 | a registration returns the handle of a published record of the same request, and of its own record if told it is new |
| ApprovalTheorems.RecordsLeaveByPruning | apps/bridge/src/approvals/records.ts:326-339 | a record leaves the disk only by a pruner that saw a record of that request a day old or outranked by 300 others |
| ApprovalTheorems.SweepIsThorough | apps/bridge/src/approvals/records.ts:279-346 | a sweep reads and judges every record it listed, takes the winner with an evicted record, and inspects every winner and candidate before it ends |
| ApprovalTheorems.SweepReads | apps/bridge/src/approvals/records.ts:310-339 | each record is read as it lies there then, and unlinked by its path exactly when what was read is a victim |
| ApprovalTheorems.KeptAreFew | apps/bridge/src/approvals/records.ts:326-336 | of what a sweep has found, ranked behind their ties, it keeps at most 300 records and none older than a day; of at most 300 it drops only older ones |
| ApprovalTheorems.ReapedWhenOld | apps/bridge/src/approvals/records.ts:290-304 | a listed candidate, and a listed winner whose record is not on disk, is reaped exactly when it is older than a minute |
| ApprovalTheorems.WaitFree | apps/bridge/src/approvals/records.ts:310-346 | each own file operation, those of a pruning sweep included, brings a call closer to its answer, and no step of another process changes where it stands |
| ApprovalTheorems.NeverBlocked | apps/bridge/src/approvals/api.ts:171-205 | until it has returned or crashed a call always has an operation of its own that brings it closer |
| ApprovalTheorems.StalledCallResolvesAgain | apps/bridge/src/approvals/records.ts:310-346 | a reachable state in which, after pruning, two calls were told they resolved the same generation |
| ApprovalTheorems.ResolvesAgainExactlyWhen | apps/bridge/src/approvals/records.ts:189-196 | a link succeeds for an already resolved generation exactly when its winner was removed and its name is free |
| ApprovalTheorems.EvictsKeptOnlyWhenChanged | apps/bridge/src/approvals/records.ts:310-346 | an eviction removes exactly the record at its path, which is never older than what was scanned, and one that a pruner looking now would keep only when the request was registered anew or resolved since the scan |
| ApprovalTheorems.EvictsKeptExactlyWhen | apps/bridge/src/approvals/records.ts:310-346 | the same, exactly when: for changes timed within a day of the sweep, and later than all others when the sweep found more than 300 records |
| ApprovalTheorems.LatePrunerDropsAFreshRecord | apps/bridge/src/approvals/records.ts:310-346 | a reachable state in which a registration has returned its handle and a late pruner has dropped the new record |
| ApprovalTheorems.LatePrunerDropsAFreshWinner | apps/bridge/src/approvals/records.ts:310-346 | the same with a record resolved at the very time the pruner counts from |
| ApprovalCalls.NormalizedIs | apps/bridge/src/approvals/records.ts:75-78 | a session id counts without the blanks around it, and one of blanks only as none |
| ApprovalCalls.SoleCall | apps/bridge/src/approvals/api.ts:76-205 | from every reachable state, a decision, closing or poll that nobody disturbs gives the sequential answer and leaves at most one new winner: refused without a matching record, answered by the winner on disk, or put on record |
| ApprovalCalls.DecisionIsRecorded | apps/bridge/src/approvals/api.ts:76-124 | from every reachable state, a decision in time, with the handle of an unresolved record or with none, is told that it resolved it, and is on record as made, allow or deny |
| ApprovalCalls.RefusedOnlyWhenGone | apps/bridge/src/approvals/api.ts:81-118 | whatever others do, a decision or closing entitled by its own handle is turned away only when that registration has left the disk for good |
| ApprovalCalls.PollMissesNothing | apps/bridge/src/approvals/api.ts:141-155 | a poll with its own handle finds none only when no winner lies on disk or the registration is gone |
| ApprovalCalls.StartsAndCrashes | apps/bridge/src/approvals/records.ts:158-204 | a call may crash anywhere before it has returned, and leaves its files as they are |
| ApprovalCalls.ThrowsExactlyWhen | apps/bridge/src/approvals/records.ts:184-204 | a call fails with an error exactly when its own candidate, winner or record was reaped under it |
| ApprovalCalls.RegisterFinds | apps/bridge/src/approvals/api.ts:43-60 | a request registered or resolved within a day is found with its handle, and refused when another request has its id |
| ApprovalCalls.RegisterPublishes | apps/bridge/src/approvals/api.ts:61-74 | otherwise it is published under a generation never used, and that is the handle of the call |
| ApprovalWaiter.AllowNeedsOwnWinner | apps/bridge/src/approvals/index.ts:46-143 | the caller gets allow only when a winner linked for its own registered generation carries allow, and the call that linked it said so |
| ApprovalWaiter.CallerGetsTheWinner | apps/bridge/src/approvals/index.ts:69-143 | a caller whose record is on disk gets the decision of the winner on disk exactly when it was not aborted before it connected, or that winner says just what an aborted caller is told; timeout, later cancellation, transport failure and other processes make no difference |
| ApprovalWaiter.CallerIsTold | apps/bridge/src/approvals/index.ts:210-224 | a caller not aborted before it connected is told the decision of the winner itself, or the verdict, decider, time, request and session of its closing, deny and "system" where it names none; it is allowed exactly when the winner allows |
| ApprovalWaiter.ClosedIsDenied | apps/bridge/src/approvals/index.ts:58-63 | a caller answered without an outcome is denied, by "system" on a conflict or abort, else by "expired" or "unreachable" and only when its registration is gone |
| ApprovalWaiter.RegistrationEnds | apps/bridge/src/approvals/index.ts:57-64 | a registration gives the caller its handle, a conflict its denial, and a failed write is its error |
| ApprovalWaiter.WaiterMoves | apps/bridge/src/approvals/index.ts:69-101 | connected, the caller waits; unconnected, or when the transport fails before the request is sent, or when the time is up, it closes its request; what has settled is returned once the request is sent |
| ApprovalWaiter.SettledStands | apps/bridge/src/approvals/index.ts:161-168 | what settles first stands, whatever message, poll or timeout follows |
| ApprovalWaiter.ForeignMessageIsIgnored | apps/bridge/src/approvals/index.ts:182-188 | a message for another request, session or registration changes nothing |
| ApprovalWaiter.ClosingThrows | apps/bridge/src/approvals/index.ts:118-126 | a closing that throws is tried once more as unreachable, and then is the caller's error |
| ApprovalProgress.DecisionReachesCaller | apps/bridge/src/approvals/index.ts:182-205 | in every run, a waiting caller can be reached by a decision of the phone in time, which it is told with its verdict |
| ApprovalProgress.PollReachesCaller | apps/bridge/src/approvals/index.ts:174-181 | in every run, a waiting caller is told by its next poll what somebody else put on record |
| ApprovalProgress.ClosingReturns | apps/bridge/src/approvals/index.ts:71-137 | a caller that closes its request itself returns, told by the winner if its registration is there; if nobody resolved it, its own denial is the winner |
| ApprovalProgress.CallerCanReturn | apps/bridge/src/approvals/index.ts:69-143 | after every run a registered caller can return by steps of its own |
| ApprovalWaiter.AbortedCallerMissesTheAllow | apps/bridge/src/approvals/index.ts:69-70 | a run in which the record is allowed on disk and the aborted caller is told deny |
| Journal.CompleteBytes | apps/bridge/src/task-dispatch/journal.ts:32 | finds the offset just behind the last newline, that is, the length without the torn tail |
| Journal.ReadJournal | apps/bridge/src/task-dispatch/journal.ts:28-45 | reads exactly the complete lines and refuses at the first that breaks sequence, chain or digest |
| Journal.ReadsBack | apps/bridge/src/task-dispatch/journal.ts:28-45 | written records with any torn tail read back as exactly their events, state, sequence and last digest |
| Journal.AcceptedIsChained | apps/bridge/src/task-dispatch/journal.ts:35-43 | any bytes that are accepted carry an unbroken digest chain over the events they hold |
| Journal.SameDigestSameHistory | apps/bridge/src/task-dispatch/journal.ts:35-43 | two accepted files with the same last digest hold the same history |
| Journal.JournalFile.AppendState | apps/bridge/src/task-dispatch/journal.ts:47-57 | truncates the torn tail and appends one record; a refused journal is left alone |
| Journal.JournalFile.AppendInterrupted | apps/bridge/src/task-dispatch/journal.ts:47-57 | the same append cut off after any number of bytes |
| Journal.HistoryRefines | apps/bridge/src/task-dispatch/journal.ts:28-57 | after any appends and crashes the file is the rendering of the committed events plus a torn tail, and reading it succeeds and yields those events |
| TaskPhases.PathKeepsPromises | apps/bridge/src/task-dispatch/records.ts:24-30 | a path of the phase graph runs at most once, with an attempt id, stops at terminal phases, keeps a reserved claim, and has at most seven records |
| TaskPhases.LifeKeepsPromises | apps/bridge/src/task-dispatch/inbox.ts:103-141 | over every history of claims, transitions, restarts and torn appends, the journal is readable and its events keep all those promises |
| TaskPhases.SevenRecords | apps/bridge/src/task-dispatch/records.ts:24-30 | the bound of seven is reached |
| TaskPhases.TerminalIs | apps/bridge/src/task-dispatch/records.ts:24-30 | the phases without a way out are completed and cancelled, and those count as terminal |
| TaskPhases.EnteredFrom | apps/bridge/src/task-dispatch/records.ts:24-30 | from which phases each phase is entered |
| TaskPhases.TransitsExactlyWhen | apps/bridge/src/task-dispatch/inbox.ts:126-141 | a transition is admitted exactly when the graph has its edge, a run names its attempt, and ids of up to 180 and codes of up to 80 characters are not empty; it keeps the claim and whatever it does not name |
| TaskPhases.ReservesExactlyWhen | apps/bridge/src/task-dispatch/inbox.ts:103-115 | a claim is recorded exactly while the job is staged and has none |
| TaskInbox.TaskDispatchInbox.Stage | apps/bridge/src/task-dispatch/inbox.ts:27-47 | answers by receipt, then by request, else stages; touches no other job |
| TaskInbox.TaskDispatchInbox.ReserveClaim | apps/bridge/src/task-dispatch/inbox.ts:103-115 | returns the recorded claim, else records and returns a new one while still staged |
| TaskInbox.TaskDispatchInbox.Transition | apps/bridge/src/task-dispatch/inbox.ts:126-141 | appends one event exactly when the phase graph and the details admit it |
| TaskInbox.TaskDispatchInbox.WriteReceipt | apps/bridge/src/task-dispatch/inbox.ts:75-88 | the locked part of a retirement: answers true and leaves a receipt only for a terminal job of the same scope |
| TaskInbox.TaskDispatchInbox.Purge | apps/bridge/src/task-dispatch/receipts/index.ts:37-48 | drops a receipt past its retention and nothing else |
| TaskInbox.TaskDispatchInbox.Maintain | apps/bridge/src/task-dispatch/inbox.ts:93-101 | the turn of one job in the housekeeping: a finished one is retired and removed before the purge, and nothing is purged when that fails |
| TaskInbox.StageIs | apps/bridge/src/task-dispatch/inbox.ts:27-47 | staging is answered by the receipt, then by the request, and stages only when there is neither |
| TaskInbox.EventsAreAppended | apps/bridge/src/task-dispatch/inbox.ts:103-141 | a claim or a transition appends the event it makes of the last state, and nothing else |
| TaskInbox.ReceiptsAreKept | apps/bridge/src/task-dispatch/inbox.ts:70-91 | a receipt of another scope stops a retirement, a purge drops a receipt once its time is over, and `status` believes the receipt first |
| TaskInbox.MaintainIsARun | apps/bridge/src/task-dispatch/inbox.ts:93-101 | that turn is a run of single file operations whose purge finds no finished journal |
| TaskInbox.StaysStagedExactlyWhen | apps/bridge/src/task-dispatch/inbox.ts:27-47 | a job just staged is answered existing for the same scope and conflict for any other, whatever follows until its receipt is purged, exactly when no earlier retirement still has the directory to remove |
| TaskInbox.StagedOnce | apps/bridge/src/task-dispatch/inbox.ts:27-47 | the same over any earlier history that left no removal under way: across restarts, retirement and removals cut off anywhere |
| TaskInbox.StagedOnceForAWeek | apps/bridge/src/task-dispatch/inbox.ts:82-85 | the same for any run whose purges come no later than seven days after the job expires |
| TaskInbox.PurgesThatWaitAreEnough | apps/bridge/src/task-dispatch/inbox.ts:89-100 | if every purge waits for the removals under way, none is under way when a job is staged |
| TaskInbox.LateRemoverLosesAJob | apps/bridge/src/task-dispatch/inbox.ts:89-100 | a run, each purge behind the pass of `maintain`, in which a remover that outlasts the receipt deletes a newly staged job, which is then staged twice |
| TaskInbox.NewlyStagedIsPendingExactlyWhen | apps/bridge/src/task-dispatch/inbox.ts:27-68 | a newly staged job is handed to the worker exactly when no finished journal was left behind; its status is what that journal says |
| TaskInbox.NewlyStagedIsPending | apps/bridge/src/task-dispatch/inbox.ts:59-101 | over every run whose purges come behind the pass of `maintain` and wait for the removals under way, a newly staged job is handed to the worker |
| TaskInbox.LateRemoverLeavesAJournal | apps/bridge/src/task-dispatch/inbox.ts:89-101 | a run whose one purge did not wait: a newly staged job is cancelled from the start and never handed out |
| TaskInbox.EndsExactlyWhen | apps/bridge/src/task-dispatch/inbox.ts:59-91 | over every run, a job with a request whose last event says completed or cancelled, and no other, is not pending and is retired, with a receipt of its phase and scope for seven days |
| TaskInbox.HousekeepingKeepsStatus | apps/bridge/src/task-dispatch/inbox.ts:70-91 | no step of retirement and removal changes the answer of `status`, exactly unless a remover has outlasted the receipt and finds a request |
| TaskInbox.RetiredIsNotPending | apps/bridge/src/task-dispatch/inbox.ts:59-68 | when removals take the request before the journal, a job with a receipt is never handed out again, in any run |
| TaskInbox.PendingAgainExactlyWhen | apps/bridge/src/task-dispatch/inbox.ts:59-91 | a job with a receipt that is not pending becomes pending in one event exactly when a remover deletes the journal of a request still there |
| TaskInbox.RevivedByARemover | apps/bridge/src/task-dispatch/inbox.ts:59-91 | over every run, a pending job with a receipt lost its journal that way at some point |
| TaskInbox.RevivedExactlyWhen | apps/bridge/src/task-dispatch/inbox.ts:59-91 | whatever happens after a retirement while its receipt is kept, the job is pending exactly when some remover took its journal, none took its request, and it was not ended another time |
| TaskInbox.InterruptedRemovalRevivesAJob | apps/bridge/src/task-dispatch/inbox.ts:59-91 | a run in which a cancelled job is handed out again after a crash, and the inbox admits its claim and its running event |
| OutboundQueue.OutboundFrameQueue.SendFrame | packages/core/outbound-scheduler/index.ts:44-55 | admits within both budgets or rejects at once; numbers the promise |
| OutboundQueue.OutboundFrameQueue.PumpQueue | packages/core/outbound-scheduler/index.ts:75-82 | starts the oldest control, else the oldest snapshot, if open and credited |
| OutboundQueue.OutboundFrameQueue.CompleteWrite | packages/core/outbound-scheduler/index.ts:83-93 | settles the frame in flight and schedules the next at the pace |
| OutboundQueue.OutboundFrameQueue.FireTimer | packages/core/outbound-scheduler/index.ts:68-72 | a due timer clears itself and pumps |
| OutboundQueue.OutboundFrameQueue.CancelAll | packages/core/outbound-scheduler/index.ts:57-66 | closes, rejects the frame in flight and every waiting one, empties both lanes |
| OutboundQueue.OutboundFrameQueue.EnableIngressWindow | packages/core/outbound-scheduler/index.ts:27-31 | ignores windows below 16, caps at 64 |
| OutboundQueue.OutboundFrameQueue.AcknowledgeIngress | packages/core/outbound-scheduler/index.ts:33-38 | ignores acknowledgements that go back or beyond what was sent |
| OutboundSafety.RunKeepsInv | packages/core/outbound-scheduler/index.ts:11-95 | the queue invariant holds after every run |
| OutboundSafety.BoundedAndAwake | packages/core/outbound-scheduler/index.ts:44-73 | the byte counter is the sum over waiting frames, within 8 MiB and 2048 frames; an open, idle, non-empty queue with fewer unacknowledged frames than its window always has a timer |
| OutboundSafety.FirstInFirstOut | packages/core/outbound-scheduler/index.ts:75-82 | in each lane the started frames are a prefix of the accepted ones |
| OutboundSafety.StartsAreJustified | packages/core/outbound-scheduler/index.ts:75-82 | a snapshot starts only when no control waits, and nothing after a close; a frame starts only with fewer frames unacknowledged than the window, and leaves no more than the window; the received count never falls |
| OutboundSafety.OneWriteAtATime | packages/core/outbound-scheduler/index.ts:75-82 | in every reachable state a frame starts only when none is in flight; it is then the one in flight and the next of its lane |
| OutboundSafety.SendAdmits | packages/core/outbound-scheduler/index.ts:44-55 | in every reachable state a frame is taken exactly while the queue is open and it fits 8 MiB and 2048 frames, at the end of its lane; else nothing changes |
| OutboundSafety.TimerStarts | packages/core/outbound-scheduler/index.ts:68-82 | in every reachable state a due timer starts the oldest control or else the oldest snapshot, exactly while the window has room |
| OutboundSafety.CreditIs | packages/core/outbound-scheduler/index.ts:28-42 | windows below 16 are ignored and above 64 cut; an acknowledgement counts exactly when it moves forward within what was sent |
| OutboundSafety.WriteEnds | packages/core/outbound-scheduler/index.ts:83-93 | a write that ends frees the queue, settles its frame once, and allows the next one an interval later |
| OutboundSafety.CloseIs | packages/core/outbound-scheduler/index.ts:57-66 | a close empties the lanes and rejects every frame still waiting or in flight |
| OutboundSafety.SettlesOnce | packages/core/outbound-scheduler/index.ts:57-94 | a settlement is never changed; after a close every accepted frame is settled, before it exactly the finished ones, and no waiting one |
| OutboundSafety.SettledAsItEnded | packages/core/outbound-scheduler/index.ts:57-94 | a frame settles as its own write ended, or is rejected by the close |
| OutboundSafety.Paced | packages/core/outbound-scheduler/index.ts:68-94 | any k+1 frame starts span at least k intervals |
| Salsa20.QuarterInPlace | crates/granttap-mcp/src/nacl_salsa.rs:15-20 | the in-place quarter round is the four mixing steps in order |
| Salsa20.ColumnsAreRowsTransposed | crates/granttap-mcp/src/nacl_salsa.rs:25-32 | the four column quarter rounds are the row quarter rounds of the transposed square |
| Salsa20.QuarterOfOne | crates/granttap-mcp/src/nacl_salsa.rs:15-20 | a quarter round of (1, 0, 0, 0) has the value given in the Salsa20 specification |
| Salsa20.RoundsAreInjective | crates/granttap-mcp/src/nacl_salsa.rs:22-33 | any number of double rounds maps different blocks to different blocks |
| Salsa20.RowsAre | crates/granttap-mcp/src/nacl_salsa.rs:15-36 | the row round is the quarter round of the Salsa20 specification on every row, starting at the diagonal |
| Salsa20.ColumnsAre | crates/granttap-mcp/src/nacl_salsa.rs:15-36 | and the column round on every column |
| SalsaExample.CoreOfTheExample | crates/granttap-mcp/src/nacl_salsa.rs:22-41 | the core has the value printed in section 8 of the Salsa20 specification, after ten double rounds |
| Salsa20.SalsaCore | crates/granttap-mcp/src/nacl_salsa.rs:22-38 | ten double rounds and the wrapping feed-forward addition |
| Salsa20.HSalsa | crates/granttap-mcp/src/nacl_salsa.rs:51-78 | the subkey as the program derives it, after the feed-forward addition |
| Salsa20.SalsaBlock | crates/granttap-mcp/src/nacl_salsa.rs:80-105 | one 64-byte block for key, nonce and 64-bit counter |
| Salsa20.WordsReadBack | crates/granttap-mcp/src/nacl_salsa.rs:100-104 | stored words read back from their little-endian positions |
| Salsa20.LayoutIsExpansion | crates/granttap-mcp/src/nacl_salsa.rs:53-103 | the 64 bytes that go into the core are "expand 32-byte k" in four parts around the two halves of the key and the middle (section 10 of the Salsa20 specification) |
| Salsa20.SubKeyIs | crates/granttap-mcp/src/nacl_salsa.rs:53-79 | the subkey is the diagonal and the middle words of the core, as bytes |
| Salsa20.CounterIsBlock | crates/granttap-mcp/src/nacl_salsa.rs:115-126 | block n counts n modulo 2^64 |
| Salsa20.OutputAt | crates/granttap-mcp/src/nacl_salsa.rs:107-129 | byte 64n+i of the output is the message byte xored with byte i of the core of the block that counts n, low word first |
| Salsa20.XSalsaXor | crates/granttap-mcp/src/nacl_salsa.rs:108-128 | the block loop xors every byte with a keystream that depends on key, nonce and position only |
| Salsa20.XoredTwice | crates/granttap-mcp/src/nacl_salsa.rs:108-128 | the stream applied twice gives the message back |
| SecretBox.Seal | crates/granttap-mcp/src/crypto.rs:123-138 | the buffer steps give tag and ciphertext |
| SecretBox.BoxIs | crates/granttap-mcp/src/crypto.rs:123-139 | the ciphertext meets the keystream from byte 32 on, and the tag authenticates it under the first 32 bytes |
| SecretBox.Open | crates/granttap-mcp/src/crypto.rs:140-158 | short boxes and wrong tags are refused, else the message |
| SecretBox.SealThenOpen | crates/granttap-mcp/src/crypto.rs:123-158 | a sealed message opens to itself, for every key, nonce and authenticator |
| SecretBox.OpenThenSeal | crates/granttap-mcp/src/crypto.rs:123-158 | every accepted box is the sealing of the message it opens to |
| SecretBox.OpensIffSealed | crates/granttap-mcp/src/crypto.rs:123-158 | a box opens to a message exactly when it is that message's sealing |
| Base64.Encode | crates/granttap-mcp/src/crypto.rs:193-219 | the chunk loop computes the encoding in either alphabet |
| Base64.Decode | crates/granttap-mcp/src/crypto.rs:221-270 | the block loop decodes up to the first pad, or fails at the first foreign character |
| Base64.EncodedChars | crates/granttap-mcp/src/crypto.rs:193-219 | no encoding holds a blank; the URL-safe one holds no padding, plus or slash, the other no minus or underscore |
| Base64.EncodedIsLocal | crates/granttap-mcp/src/crypto.rs:193-219 | every three bytes make four characters of their own |
| Base64.CornerLetters | crates/granttap-mcp/src/crypto.rs:193-219 | the letters of the alphabet begin and end as in RFC 4648 |
| Base64.CornerDigits | crates/granttap-mcp/src/crypto.rs:193-219 | so do its digits, and the last two characters are those of the chosen alphabet |
| Base64.NextDigit | crates/granttap-mcp/src/crypto.rs:193-219 | in between they follow each other as in ASCII |
| Base64.FirstGroups | crates/granttap-mcp/src/crypto.rs:193-219 | the groups of six bits are taken from the left |
| Base64.EncodeThenDecode | crates/granttap-mcp/src/crypto.rs:193-270 | decoding inverts encoding for all bytes of every length in both alphabets |
| Utf8.PrefixEndsOnBoundary | apps/bridge/src/task-files/index.ts:84-87 | a well-formed prefix of well-formed text ends on a character boundary |
| Utf8.CutLeavesAtMostThree | apps/bridge/src/task-files/index.ts:84-87 | a cut anywhere in well-formed text leaves at most three bytes of a character |
| Utf8.WellFormedExactlyWhen | apps/bridge/src/task-files/index.ts:84-87 | a text is well-formed exactly when it encodes a sequence of Unicode scalar values |
| TaskFiles.ReadPage | apps/bridge/src/task-files/index.ts:75-96 | one page: trims at most three bytes, refuses ill-formed text and control characters, names the next offset |
| TaskFiles.PageIsLongestCut | apps/bridge/src/task-files/index.ts:77-90 | a page from any offset is the longest well-formed cut of 128 KiB, by at most three bytes and only short of the end, unless it holds a refused character |
| TaskFiles.NoCutNoPage | apps/bridge/src/task-files/index.ts:77-90 | beyond the end, or where no such cut is well-formed, there is no page |
| TaskFiles.RefusedIs | apps/bridge/src/task-files/index.ts:86 | refused are the control characters but tab, line feed and carriage return |
| TaskFiles.PagesAreTheFile | apps/bridge/src/task-files/index.ts:75-96 | following the next offset from 0 ends, and succeeds exactly for UTF-8 without refused characters; the pages are bounded, non-empty, well-formed, at most three bytes short of full but for the last, and joined they are the file |
| WebSocketFrames.WriteFrame | crates/granttap-mcp/src/websocket.rs:156-179 | header, length form, mask and masked payload |
| WebSocketFrames.ByteStream.ReadFrame | crates/granttap-mcp/src/websocket.rs:181-223 | reads one frame in order off the stream, leaving what follows it |
| WebSocketFrames.LengthIsMinimal | crates/granttap-mcp/src/websocket.rs:161-196 | whatever bytes the reader takes for a length, the writer uses no more of them (section 5.2 of RFC 6455) |
| WebSocketFrames.WrittenIsFinalAndMasked | crates/granttap-mcp/src/websocket.rs:156-179 | on the wire every frame is final and masked, and each payload byte is xored with the mask byte of its position |
| WebSocketFrames.WrittenReadsBack | crates/granttap-mcp/src/websocket.rs:156-223 | for every opcode, mask, payload and continuation, exactly the written bytes are taken and give kind and payload back |
| WebSocketFrames.OpcodeTells | crates/granttap-mcp/src/websocket.rs:210-223 | which frame each opcode gives, that text must be UTF-8, and that every other opcode is refused |
| WebSocketFrames.UnmaskedIsFramed | crates/granttap-mcp/src/websocket.rs:181-209 | a server's frame, not masked and with its length in any of the three forms, is taken exactly as it stands |
| ByteOrder.BigEndianAt | crates/granttap-mcp/src/websocket.rs:161-196 | in a length byte i stands for the power of 256 by the bytes behind it |
| WebSocketFrames.CutFrameIsIncomplete | crates/granttap-mcp/src/websocket.rs:181-209 | a frame cut off anywhere is neither taken for a frame nor refused |
| WebSocketFrames.ConversationReadsBack | crates/granttap-mcp/src/websocket.rs:156-223 | any concatenation of frames reads back frame by frame |
| DesktopConnection.Connection.ReceiveChunk | apps/bridge/src/codex-desktop/connection.ts:74-84 | buffers a chunk and handles every complete message, or closes at a malformed one; terminates |
| DesktopConnection.Connection.HandleMessage | apps/bridge/src/codex-desktop/connection.ts:86-105 | answers requests, settles a fitting response, closes on a misfitting one |
| DesktopConnection.Connection.Shut | apps/bridge/src/codex-desktop/connection.ts:54-64 | closes once, drops the buffer and rejects every waiting call |
| DesktopConnection.Connection.Write | apps/bridge/src/codex-desktop/connection.ts:66-72 | writes a length-prefixed message, or closes when it is too long |
| DesktopConnection.ChunksDoNotMatter | apps/bridge/src/codex-desktop/connection.ts:74-84 | what is handled, answered and settled, and when it closes, depends on the bytes and not on the chunks |
| DesktopConnection.SentIsHandled | apps/bridge/src/codex-desktop/connection.ts:66-84 | the frames of any messages within the size bound are handled as those messages, in order |
| DesktopConnection.HandledInOrder | apps/bridge/src/codex-desktop/connection.ts:74-105 | a connection that stays open has handled all the messages in order |
| DesktopConnection.AnsweredInOrder | apps/bridge/src/codex-desktop/connection.ts:86-94 | it has answered every discovery and every request it handled with a refusal, in order, and written nothing else |
| DesktopConnection.ResponseSettlesOrCloses | apps/bridge/src/codex-desktop/connection.ts:95-104 | a waiting call takes a response of its own method or none and, if successful, of its own target; any other closes the connection and rejects all |
| DesktopConnection.ArrivalIs | apps/bridge/src/codex-desktop/connection.ts:74-84 | a chunk waits for a whole frame, closes at an announced length of 0 or above 8 MiB or at unreadable JSON, or has its message handled |
| DesktopConnection.SentIsFramed | apps/bridge/src/codex-desktop/connection.ts:66-72 | up to 8 MiB a message is written behind its length, else the connection closes |
| DesktopConnection.CloseRejectsAll | apps/bridge/src/codex-desktop/connection.ts:54-64 | a close rejects every waiting call and happens once |
| ByteOrder.LittleEndianAt | apps/bridge/src/codex-desktop/connection.ts:66-72 | in the length byte i stands for the power of 256 by the bytes before it |
| DesktopConnection.Connection.BeginCall | apps/bridge/src/codex-desktop/connection.ts:40-52 | a call on a closed connection is rejected; otherwise it waits and its request is written |
| DesktopConnection.Connection.CallTimesOut | apps/bridge/src/codex-desktop/connection.ts:44-47 | a call that still waits is rejected |
| DesktopConnection.CallStarts | apps/bridge/src/codex-desktop/connection.ts:40-52 | a call waits and its request is written, or it is rejected |
| DesktopConnection.TimeoutRejects | apps/bridge/src/codex-desktop/connection.ts:44-47 | a timeout rejects its call if it still waits, and nothing else |
| DesktopConnection.CallsSettleOnce | apps/bridge/src/codex-desktop/connection.ts:40-105 | over every run of calls, chunks, timeouts and closes, each call waits, or was resolved once by a response that fits it, or was rejected, never two of these; after a close none waits, and no settlement is undone |
| SharedBox.SharedBoxCache.Get | packages/core/shared-box/index.ts:15-32 | returns the derived key; every array held before is still held untouched, or dropped and erased |
| SharedBox.SharedBoxCache.Clear | packages/core/shared-box/index.ts:33 | erases every key and empties the cache |
| SharedBox.SharedBoxCache.EvictOldest | packages/core/shared-box/index.ts:26-29 | drops exactly the surplus from the least recently used end, erasing it |
| SharedBoxOrder.GotIsBoundedAndDistinct | packages/core/shared-box/index.ts:20-30 | a lookup keeps identities distinct and the capacity, and ends with the entry looked up |
| SharedBoxOrder.NothingExpiredIsServed | packages/core/shared-box/index.ts:21-25 | what is served has not expired; a hit keeps its expiry, a miss gets a new one |
| SharedBoxOrder.OrderedByLastUse | packages/core/shared-box/index.ts:21-29 | over every run of lookups the entries stand in the order of their last use, so the first to go was used least recently |
| ReplayWindow.RelayMessageAcceptance.Accept | packages/core/replay-store.ts:53-65 | adds, evicts the oldest when over the bound, saves the last 2048 if the disk accepts |
| ReplayWindow.ArrivalIs | packages/core/relay-client.ts:170-177 | an accepted fingerprint is acknowledged again and not dispatched, one in a round waits, any other is dispatched |
| ReplayWindow.RoundEndIs | packages/core/relay-client.ts:178-192 | in every reachable state, a round that was taken in acknowledges its fingerprint and puts it last in the window, whose oldest leaves beyond 2048; any other round only ends |
| ReplayWindow.RestartIs | packages/core/replay-store.ts:11-20 | a restart forgets the rounds and takes the last 2048 of the file, in order |
| ReplayWindow.SavedWindowSurvives | packages/core/replay-store.ts:11-34 | a restart after a successful save brings back the same window in the same order |
| ReplayWindow.RunKeepsWindow | packages/core/relay-client.ts:168-192 | over all interleavings, restarts and failed saves, the window is a stretch of the latest acceptances that no restart lost, at least the last 2048, and rounds and fingerprints in processing match one to one |
| ReplayWindow.WindowIsTheLast | packages/core/replay-store.ts:53-65 | without an empty fingerprint the window is exactly the last 2048 acceptances |
| ReplayWindow.AtMostOnceInTheWindow | packages/core/relay-client.ts:168-192 | over all interleavings, restarts and failed saves: one round at a time per fingerprint, acknowledgements only after acceptance, and a fingerprint dispatched again has at least 2048 later acceptances behind it, of those no restart lost |
| ReplayWindow.SavedIsNeverLost | packages/core/replay-store.ts:22-34 | acceptances that one successful save covered survive every later restart, whatever saves fail |
| ReplayWindow.DispatchedAfterRestartExactlyWhen | packages/core/replay-store.ts:11-65 | after a restart a fingerprint is dispatched exactly when it is not among the last 2048 acceptances the last successful save covered |
| ReplayWindow.FailedSaveDispatchesAgain | packages/core/replay-store.ts:59-64 | a run in which a failed save and a restart dispatch an acknowledged message again |
| ReplayWindow.BoundedExactlyWhen | packages/core/replay-store.ts:11-58 | every run of real fingerprints, with any restarts and failed saves, keeps the window within 2048 exactly when the loaded file holds no empty fingerprint |
| ReplayWindow.WindowGrows | packages/core/replay-store.ts:53-58 | the window drops its oldest until the empty fingerprint is the oldest, and nothing after that |
| ReplayWindow.EmptyFingerprintStopsEviction | packages/core/replay-store.ts:53-58 | for a file that brings in an empty fingerprint anywhere, and every n, a run of n messages after which the window holds more than n |
| ConfigCommands.ConfigStore.ApplyConfigSet | apps/bridge/src/config/commands.ts:124-171 | the answer and the whole new state of one command, all rejections included |
| ConfigCommands.AnsweredByContent | apps/bridge/src/config/commands.ts:129-141 | a command of another content than its digest, or than the record of its operation, is refused; one past its deadline by two minutes has expired; one on record is told its revision |
| ConfigCommands.AnsweredByGuards | apps/bridge/src/config/commands.ts:142-162 | every other command is refused for a stale base, a missing operation, another instance, a vague or refused grant, in this order, or else applied |
| ConfigCommands.AppliedIs | apps/bridge/src/config/commands.ts:162-171 | a refused command changes nothing; an applied one is patched in, counted and recorded among the last 256 |
| ConfigCommands.OtherEventsAre | apps/bridge/src/config/commands.ts:56-79 | an unreadable ledger reads as revision 0, no records and no need for fresh commands; demanding fresh commands changes that alone |
| ConfigCommands.ConfigStore.ApplyRuntimePatch | apps/bridge/src/config/commands.ts:81-122 | the patched runtime configuration |
| ConfigCommands.PatchTwice | apps/bridge/src/config/commands.ts:81-122 | applying a patch twice is applying it once |
| ConfigCommands.PatchedAt | apps/bridge/src/config/commands.ts:81-122 | a patch changes exactly the settings its command names, of an exclusion and inclusion of one session the inclusion, and leaves every other |
| ConfigCommands.ExcludedAfterPatch | apps/bridge/src/config/commands.ts:84-89 | after a patch a session is excluded exactly if it was or is newly excluded, and not the one included |
| ConfigCommands.CrashThenRetry | apps/bridge/src/config/commands.ts:162-170 | a crash between the two saves and a retry of a grant-free command leave what one application leaves, with the same answer |
| ConfigCommands.DepartsExactlyWhen | apps/bridge/src/config/commands.ts:162-170 | in any run, the runtime departs from what its applied commands make exactly at a torn command whose patch changes a setting |
| ConfigCommands.DiffersExactlyWhen | apps/bridge/src/config/commands.ts:162-170 | after any run, any setting differs from what the applied commands make of it exactly when a torn command wrote something else there and no command that got through has written there since |
| ConfigCommands.RuntimeIsWhatWasApplied | apps/bridge/src/config/commands.ts:162-170 | if every torn command is applied at some later time, whatever came between, all settings after any run are what its applied commands make of them |
| ConfigCommands.RetriedAtOnceIsIdentical | apps/bridge/src/config/commands.ts:162-170 | if every torn command is tried again at once, the runtime is that to the letter, the order of the exclusion list included |
| ConfigCommands.OrderMayDiffer | apps/bridge/src/config/commands.ts:84-89 | when it is applied only after another exclusion, the list is in another order |
| ConfigCommands.OvertakenIsRefused | apps/bridge/src/config/commands.ts:142-170 | a torn command with an operation id and a base revision that another overtook is never applied in any run that keeps the ledger |
| ConfigCommands.TornSettingStays | apps/bridge/src/config/commands.ts:142-170 | what a torn command wrote at a place stays in any run, lost ledgers included, until a command that got through writes there |
| ConfigCommands.RevisionStep | apps/bridge/src/config/commands.ts:163-170 | one event raises the revision by one if it applied a command, and the answer names the new revision |
| ConfigCommands.RevisionCountsApplied | apps/bridge/src/config/commands.ts:162-170 | over every run with crashes, the revision counts exactly the applied commands |
| ConfigCommands.AppliedAtMostOnce | apps/bridge/src/config/commands.ts:136-147 | a command with an operation id and a base revision is applied at most once in a whole run |
| ConfigCommands.AppliedAgainExactlyWhen | apps/bridge/src/config/commands.ts:136-150 | while the ledger is kept, an applied command is applied again exactly when it named no base revision, its record has left the ledger, and expiry, epoch and grant admit it |
| ConfigCommands.LeavesTheLedgerExactlyWhen | apps/bridge/src/config/commands.ts:164-168 | until it is recorded again, a record leaves the ledger exactly when 256 more were added |
| ConfigCommands.AppliedAgainAfter256 | apps/bridge/src/config/commands.ts:136-168 | so until then an applied command is applied again exactly when it named no base revision, 256 more were recorded, and expiry, epoch and grant admit it |
| ConfigCommands.ReplayTellsTheRevision | apps/bridge/src/config/commands.ts:136-141 | until 256 more commands were recorded, a command sent again changes nothing and is told its original revision |
| ConfigCommands.LostLedgerAppliesAgain | apps/bridge/src/config/commands.ts:56-171 | for a command that got through at any time, with any events and losses up to the last loss, and at any point after it up to which it was not recorded again: it is applied again exactly when expiry, epoch and grant admit it and its base revision is missing or equals the number of commands applied since that loss |
| SessionCatalog.SortedUniqueSessions | apps/bridge/src/sessions/catalog.ts:10-23 | the merge loop and the sort compute the ranked catalog |
| SessionCatalog.UniqueKeepsLatest | apps/bridge/src/sessions/catalog.ts:11-18 | merging keeps one entry per session, its latest, and forgets no session |
| SessionCatalog.RankedIsPermutation | apps/bridge/src/sessions/catalog.ts:19-22 | ranking reorders and nothing else, and the result is in rank order |
| SessionCatalog.RankIs | apps/bridge/src/sessions/catalog.ts:19-22 | working sessions stand before waiting ones and those before idle ones, within each the most recent first |
| SessionCatalog.TiesKeepTheirOrder | apps/bridge/src/sessions/catalog.ts:19-22 | sessions that tie keep their order |
| SessionCatalog.UniqueInFirstOrder | apps/bridge/src/sessions/catalog.ts:11-18 | and before ranking stand in the order in which they were first seen |
| SessionCatalog.CatalogIsLatestAndRanked | apps/bridge/src/sessions/catalog.ts:10-23 | the catalog holds the latest entry of every session once, in rank order |
| CatalogReserve.PickReserve | apps/bridge/src/sessions/catalog.ts:34-39 | picks the reserve of one agent from the top, and all of it unless the limit is reached |
| CatalogReserve.PickReserves | apps/bridge/src/sessions/catalog.ts:33-39 | picks the whole reserve of every agent when the reserves fit the limit, and else passes over none for one whose turn comes later |
| CatalogReserve.AgentsInFirstOrder | apps/bridge/src/sessions/catalog.ts:33 | the agents take their turns in the order in which they first appear |
| CatalogReserve.FillUp | apps/bridge/src/sessions/catalog.ts:40-43 | fills from the top until the limit, adding no entry below the point it reaches |
| CatalogReserve.PickWithReserve | apps/bridge/src/sessions/catalog.ts:26-48 | keeps order and fills the limit; every agent keeps its reserve when the reserves fit; a lower entry passes a higher one only from within its agent's reserve, and a reserved one only when its turn comes before |

## Left out

- SHA-256 is taken to be injective: fingerprints, job digests, command digests and cache identities are the values they digest.
- JSON is an assumed inverse pair of printing and parsing, with no newline byte in a printed line; schema checks other than those the proofs use are not modelled.
- Poly1305 is an arbitrary function of one-time key and text; X25519, key agreement and random nonces are not modelled.
- Conformance with NaCl is not claimed: the subkey takes its words after the feed-forward addition, and the model does the same.
- Approvals: the legacy decision-only winner format, advisory record states and records without a generation, which current code does not write.
- Approvals: file calls fail only as EEXIST and ENOENT; unreadable or corrupt record and winner files are not modelled.
- Approvals: file ages and clocks arrive with the events, and question answers are a flag; the pending list, covered scopes and status text are not modelled.
- Approvals: a pruner reads, judges and inspects its listed files in any order, and breaks ties of rank in any way, which covers the sorted pass of the program.
- ApprovalTheorems.Agreement: ends at the removal of the winner, because agreement does not hold beyond it.
- `sendApprovalResolved`, session keys and the relay socket in `requestApproval`: deliveries appear only as events that happen or fail.
- ConfigCommands.AppliedAtMostOnce: for runs that keep their ledger file and commands that name a base revision; LostLedgerAppliesAgain and AppliedAgainExactlyWhen cover the others.
- ConfigCommands.RuntimeIsWhatWasApplied: up to the order of the exclusion list, which OrderMayDiffer shows to change.
- ConfigCommands.ConfigStore.ApplyRuntimePatch: on the configuration as loaded. What `loadRuntimeConfig` and `parseCortexByProject` make of a file at each load is not modelled: only the first 128 Cortex projects are kept, identifiers are trimmed and bounded, and unknown levels and providers are dropped.
- Task inbox: the store lock is taken to be a mutex; `records` listings, the request-file cache by size and time, and publishing a request by hard link are not modelled. A missing journal is an empty one.
- Outbound queue: `sendEncryptedPayload` and its fan-out to peers; a timer never fires before its delay.
- Base64: only ASCII white space is trimmed.
- WebSocket: the upgrade, TLS, random masks and the limits on allocating a payload of the announced length.
- Desktop connection: the deadline arithmetic behind a timeout, the socket itself and `initialize`; call ids are random and taken not to repeat.
- Task files: admission of paths, directory listings, short reads and files that change while they are read.
- Shared-key cache: decoding keys from base64 and erasing the decoded secret; the built-in map is an ordered list.
- Replay window: other relay controls, session key grants, and whether the socket is open for an acknowledgement.
- Configuration: the verdict on a controller grant is a parameter, and revoking task automation is not modelled.
- Catalog: the built-in stable sort is modelled as insertion and the final sort by original index as a filter; scans, transfers and history paging are not modelled.
