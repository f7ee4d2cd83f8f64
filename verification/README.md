# Verification of agenthicc's durable protocols and pure cores

A Dafny 4.11 model of the parts of agenthicc whose promises hold only over whole runs or for all inputs, with proofs
of those promises. `dafny verify dfyconfig.toml` checks everything.

| files | what they model |
|---|---|
| `InputInbox`, `InputInboxRuns`, `InputInboxLaws` | the append-only deferred-input log, its fold, and its owner-fenced operations |
| `OperatorInbox`, `OperatorInboxRuns`, `OperatorInboxLaws` | versioned operator items, idempotency keys, two-phase publication, reconciliation |
| `Outbox`, `OutboxRuns`, `OutboxLaws` | leased, bounded notification delivery with backoff, and the draining loop |
| `FairQueue`, `FairQueueLaws`, `FairQueuePriority` | round-robin dispatch across projects with priority aging |
| `Maintenance`, `MaintenanceLaws` | the due-driven maintenance scheduler |
| `SearchIndex`, `LikePattern` | the session index, its trigger-maintained trigram table, and the three search branches |
| `Reactive` | signals and computed values |
| `Frontmatter`, `Definitions`, `FrontmatterLaws`, `BlockLists`, `DefinitionsMeaning`, `FrontmatterRoundTrip`, `ListReadBack`, `DefinitionsRoundTrip`, `DefinitionsReadBack`, `DefinitionsLaw` | the agent-definition parser and printer |
| `ConfigMerge`, `ConfigExtends` | layering of configuration tables and inheritance between files |
| `ManagedSection` | the section of AGENTS.md that the bootstrap owns |
| `Scopes` | capability scopes of agents |
| `Sessions`, `Text`, `Wrappers` | shared session, string and result types |

Code that updates state step by step is a class whose methods are proved against a function of the old state; the
runs of a protocol are sequences of moves of that function, and the theorems are about every run. A crash is a run in
which only a prefix of the appends or transactions of an operation happened. The session owner is an environment that
may change between any two moves.

The laws in `InputInboxLaws`, `OperatorInboxLaws`, `OutboxLaws`, `MaintenanceLaws`, `FrontmatterLaws`, `DefinitionsMeaning`
and the last sections of `Scopes` and `ManagedSection` say what each operation does in the fields, literals and characters
of its data, not in the functions that specify it.

## What the proofs found

- `expire` records its key in the table that `respond` searches, so a response whose body is the text of an expiry is
  answered as a replay although nothing was answered: `ReplayMeansStored` gives the exact condition, `ExpiryIsReplayed`
  a run.
- Reconciling the operator inbox twice at one instant differs from reconciling once exactly when a half-published item
  of a waiting session is already past its deadline (`ReconcileTwice`).
- `deep_merge` is not associative when the middle layer puts something other than a table between two tables;
  `MergeAssociates` gives the exact condition. The merge of named arrays is associative without any condition.
- The frontmatter parser drops an indented line under an open list, although the module promises that nothing
  unknown is ignored: `IgnoredExactly` says of the preceding lines exactly when, `DroppedText` that such a line can be
  taken out of any text, and `WordUnderToolsIsDropped` shows a text with a word under `tools:` that is accepted as a
  definition without tools.
- A rendered definition reads back exactly when its description is not empty, its bare name is no boolean and no number
  with a leading zero, its bare colour is no boolean, and none of its workspace paths that is rendered bare has a comma
  outside apostrophes or an apostrophe left open (`ReadsBackExactly`). The path `a,b` comes back as two
  (`CommaSplitsPaths`); the path `b's` makes the saved definition unreadable (`ApostropheBreaksDefinition`).
- `restrict` intersects patterns, not tools, so it is a lower bound but can lose tools that both sides permit
  (`RestrictCanLoseCommonTools`).
- A second registration can widen an agent's scope (`ReregistrationCanExpand`); it does not exactly when the given scope
  and the parent's scope together withhold what the old one withheld (`ReregistrationShrinksExactly`).
- Narrowing a parent leaves its children as they were (`ChildCanOutliveParentScope`); a child is inside its parent's
  present scope exactly when it is inside every scope the parent was updated with since (`ChildInsideParentNow`).
- The deadlines of a maintenance pass come from the registry as read before its own dispatch. The lease of a reservation
  that this dispatch makes is not among them, so the pass can report that nothing is due (`DispatchReportsNothingDue`);
  by what is known before the pass, the reported time misses that lease exactly when up to its end no fresh heartbeat
  runs out, no rescan comes round, no reservation of the registry lapses, and no candidate waits for a retry or is to be
  refused with a shorter delay (`OwnDispatchIsMissed`). A pass that finds the reservation in the registry is due by the end of its lease (`LaterPassSeesLease`).
- The reported time can be the present instant, when a heartbeat deadline is exactly now (`NextDueLiesAhead`).
- The log's lock does not cover the session: a message can be delivered to an owner that has been replaced since it took
  the lock (`OvertakenDelivery`). `EveryDeliveryHadItsOwner` says what holds at the reading and when it still holds at
  the append.
- A search answered by the trigram table is literal only up to the tokenizer's case folding: for a word, exactly when
  none of its characters is folded like another one that lower-cased text may hold (`FoldingIsLiteralExactly`), which
  fails for the long s (`LongSIsFound`).
- From the 1025th failed start in a row on, computing the retry delay raises `OverflowError`: the failure is counted, the
  retry time is not moved, and the pass ends without dispatching (`OverflowEndsPass`).

## Model

| member | source | states |
|---|---|---|
| InputInbox.Inbox.Project | src/agenthicc/background/input_inbox.py:91-117 | the loop over the log computes the fold of its events |
| InputInbox.Inbox.Append | src/agenthicc/background/input_inbox.py:119-126 | one append extends the log and the table stays the fold of the log |
| InputInbox.Inbox.Enqueue | src/agenthicc/background/input_inbox.py:158-219 | raises exactly when its plan does, and else appends exactly the planned event and returns that record |
| InputInbox.Inbox.EnqueueDeferred | src/agenthicc/background/input_inbox.py:221-306 | the same for an unowned message, with its two readings of the session under the lock, including the hand-back of an undelivered live one |
| InputInbox.Inbox.ClaimNext | src/agenthicc/background/input_inbox.py:325-377 | the scan delivers the first record in acceptance order that the owner may be given, rebinding it first if deferred, or nothing |
| InputInbox.Inbox.ClaimById | src/agenthicc/background/input_inbox.py:379-428 | the same for one named message; nothing is appended unless it is delivered |
| InputInbox.Inbox.RunSweep | src/agenthicc/background/input_inbox.py:454-474 | one pass over all records, with each append applied at once, writes exactly the events decided on the records as they were read |
| InputInbox.Inbox.MarkWaitingRecovery | src/agenthicc/background/input_inbox.py:430-477 | appends the planned releases and returns the receipts of the refolded log |
| InputInbox.Inbox.RearmRecoveryWait | src/agenthicc/background/input_inbox.py:479-534 | appends the planned rearms, only for the same recoverable owner |
| InputInbox.Inbox.PeekNext | src/agenthicc/background/input_inbox.py:536-560 | returns the head of the queue for this owner and writes nothing |
| InputInbox.Inbox.Reject | src/agenthicc/background/input_inbox.py:562-594 | rejects a message only for the owner that holds it |
| InputInbox.Inbox.Acknowledge | src/agenthicc/background/input_inbox.py:596-630 | a delivered message is acknowledged again without an append; otherwise only a claimed one of the live owner |
| InputInbox.Inbox.SettleAttempt | src/agenthicc/background/input_inbox.py:632-697 | appends the closing events of the owner's messages; when there are none it gives the log up, others may append, and then it reconciles; receipts equal the refolded log |
| InputInbox.Inbox.ReadReceipts | src/agenthicc/background/input_inbox.py:699-748 | reconciles against the session it saw; receipts equal the refolded log |
| InputInboxRuns.PlanLegal | src/agenthicc/background/input_inbox.py:158-748 | whatever any operation decides to append keeps the life cycle of every message, at every prefix |
| InputInboxRuns.RunSafe | src/agenthicc/background/input_inbox.py:92-117 | in every run with owner changes at any time, also between an operation's reading and its appends, and crashes between appends: no message disappears or changes its text, session or acceptance time, its rank never falls, terminal records never change, at most 64 are undelivered, deferred means unowned, claimed is unreachable, and none is delivered twice |
| InputInboxRuns.AtMostOneDelivery | src/agenthicc/background/input_inbox.py:262-279 | two deliveries in a legal log are of two messages |
| InputInboxRuns.PlanDelivers | src/agenthicc/background/input_inbox.py:325-428 | only claims deliver, and only to the owner they checked |
| InputInboxRuns.EveryDeliveryHadItsOwner | src/agenthicc/background/input_inbox.py:333-377 | each delivery of a run was made by a claim whose owner the active session named when it was read under the lock; since then the log did not change and only the owner may have; the record is bound to exactly that owner; and the session names it still at the append exactly when the last owner change in between, if any, left it there |
| InputInboxRuns.OvertakenDelivery | src/agenthicc/background/input_inbox.py:379-428 | a run in which the owner is replaced between the reading and the append, and the message goes to the replaced owner |
| InputInboxRuns.FirstIsEarliest | src/agenthicc/background/input_inbox.py:339-340 | the head is the earliest-accepted eligible message, ties in log order, and there is none only if nothing is eligible |
| InputInboxRuns.SortOrdered | src/agenthicc/background/input_inbox.py:750-755 | the stable sort puts records in acceptance order |
| InputInboxRuns.PeekNamesTheClaim | src/agenthicc/background/input_inbox.py:536-560 | in every reachable world peek names exactly the message that a claim with the same arguments and the same reading of the session then delivers |
| InputInboxRuns.SettleLeavesNothing | src/agenthicc/background/input_inbox.py:654-697 | after the closing events no message of the owner is accepted, its late ones are rejected and its consumed ones completed or failed, and every other record is exactly as it was |
| InputInboxRuns.SettleThenReceipts | src/agenthicc/background/input_inbox.py:654-748 | when there was nothing to close, no message of the owner was waiting, and the receipts then read may change any record, but only as reconciling against the session they saw says |
| InputInboxRuns.ReceiptsReconcile | src/agenthicc/background/input_inbox.py:711-748 | afterwards all messages are terminal or deferred for an inactive session, all terminal for a deleted one, and else only its present owner's wait |
| InputInboxRuns.WaitingReleases | src/agenthicc/background/input_inbox.py:448-474 | waiting for recovery gives up every undelivered message of the owner, with a reason, and takes none of another owner |
| InputInboxRuns.EnqueueRetry | src/agenthicc/background/input_inbox.py:187-196 | once an enqueue is stored, a retry under its ID by any live owner at any later point of any run appends nothing: it is answered when text and attempt agree with the record, and refused otherwise |
| InputInboxLaws.RefusedExactly | src/agenthicc/background/input_inbox.py:158-630 | each operation raises exactly under the stated condition on the text, the ID, the session as read and the stored record, and else it goes through |
| InputInboxLaws.OperationLeaves | src/agenthicc/background/input_inbox.py:158-748 | field by field, what every operation leaves of every record, and that a claim takes the oldest message its owner may have |
| InputInboxLaws.ReceiptsTell | src/agenthicc/background/input_inbox.py:699-755 | the receipts tell of every record once, oldest first, with its fields and with errors cut to 240 characters |
| InputInboxLaws.StoredAsAsked | src/agenthicc/background/input_inbox.py:202-219 | in every run each message was first stored by one enqueue move, with the time of that move as its acceptance time and with its session, text, attempt and owner; time, session and text stay |
| InputInboxLaws.FirstComeFirstServed | src/agenthicc/background/input_inbox.py:333-377 | of two messages that an owner may both have, stored by an earlier and a later move whose clock was not behind, a claim never delivers the later one |
| OperatorInbox.Inbox.Register | src/agenthicc/background/inbox.py:290-380 | the transaction writes exactly the new item, refuses as specified, and returns an existing item unchanged |
| OperatorInbox.Inbox.Activate | src/agenthicc/background/inbox.py:382-405 | a publishing item becomes pending and any other is left alone |
| OperatorInbox.Inbox.Respond | src/agenthicc/background/inbox.py:552-666 | accepts, replays or refuses by the verdict, and writes exactly the accepted response and its key |
| OperatorInbox.Inbox.Expire | src/agenthicc/background/inbox.py:812-903 | the fenced expiry, with its key |
| OperatorInbox.Inbox.SetTerminal | src/agenthicc/background/inbox.py:905-940 | a status change only along the allowed edges |
| OperatorInbox.Inbox.CloseExpired | src/agenthicc/background/inbox.py:526-550 | closes an item whose deadline passed, and no other |
| OperatorInbox.Inbox.MarkDelivered | src/agenthicc/background/inbox.py:775-810 | delivers an accepted response once |
| OperatorInbox.Inbox.AcceptedAnswer | src/agenthicc/background/inbox.py:748-773 | hands over the stored response exactly while the item is accepted and the session still waits, and marks it stale when the session does not |
| OperatorInbox.Inbox.Reconcile | src/agenthicc/background/inbox.py:942-981 | the loop over the open rows, in any order and with a session read of its own for each row, leaves exactly the reconciled table and counts the changes |
| OperatorInboxRuns.NextSteps | src/agenthicc/background/inbox.py:290-981 | every transaction moves each item at most one edge, raises its version by exactly one when it does, and keeps everything registered |
| OperatorInboxRuns.RunInv | src/agenthicc/background/inbox.py:290-981 | every reachable item's version counts its changes, a response is stored exactly from acceptance on, and every key belongs to the accepted response or the expiry of its item |
| OperatorInboxRuns.RunSafe | src/agenthicc/background/inbox.py:552-666 | in every interleaving no item disappears, returns to pending or changes without a higher version; a stored response is never overwritten; keys stay |
| OperatorInboxRuns.EveryAnswerWasLive | src/agenthicc/background/inbox.py:726-746 | every stored response was accepted at a moment when the session waited on that item, attempt and lease, at the named version, before its deadline |
| OperatorInboxRuns.RetryIsSafe | src/agenthicc/background/inbox.py:597-609 | after an acceptance the same key with the same body is a replay that writes nothing, and with another body a conflict, at any later time |
| OperatorInboxRuns.ReplayMeansStored | src/agenthicc/background/inbox.py:597-609 | a replay answers with the stored response exactly when the body is not the text of an expiry |
| OperatorInboxRuns.ExpiryIsReplayed | src/agenthicc/background/inbox.py:812-903 | a run that asks, waits and expires a question without an answer, after which the text of that expiry under the same key is a replay |
| OperatorInboxRuns.ReconcileRepairs | src/agenthicc/background/inbox.py:942-981 | afterwards nothing is half-published; an item is open exactly when it was open, its session was seen waiting on it and it was not pending past its deadline; one that was closed already is unchanged, one closed now is expired if its session waits and stale if not; and of the items whose sessions were seen in one state a session has at most one open |
| OperatorInboxRuns.InterleavedRepair | src/agenthicc/background/inbox.py:944-981 | when anything happens between the listing of a row and its repair: an unchanged row ends as reconciled, an orphaned one ends closed, an answer that came in before the expiry is kept, and a row is published at most once |
| OperatorInboxRuns.PublicationIsCrashSafe | src/agenthicc/background/inbox.py:142-148 | stopping anywhere in register, session transition, activate and then reconciling leaves the item open exactly when the transition was made, stale when only the item was written, and absent otherwise |
| OperatorInboxRuns.ReconcileTwice | src/agenthicc/background/inbox.py:942-981 | reconciling twice is reconciling once exactly when no half-published item of a waiting session is past its deadline |
| OperatorInboxLaws.FitsIsValid | src/agenthicc/background/inbox.py:668-724 | which responses are valid for an input, a question and an approval, in their fields |
| OperatorInboxLaws.WaitsForIsCurrent | src/agenthicc/background/inbox.py:726-746 | when a session waits for an item, in the fields of both |
| OperatorInboxLaws.MoveLeaves | src/agenthicc/background/inbox.py:290-981 | what every transaction leaves of the items and keys, field by field, in every state; an answered approval is delivered as rejected exactly when it says not allowed |
| OperatorInboxLaws.StoredWasAnswered | src/agenthicc/background/inbox.py:552-666 | every stored response was given by a move that named the pending item at its version before its deadline, fitted its kind, and came while the session waited for it |
| OperatorInboxLaws.AnswerArrives | src/agenthicc/background/inbox.py:748-773 | once a response was accepted, the worker gets exactly it, whatever happens in between, for as long as the item is accepted and the session seen waits for it, and else nothing |
| Outbox.Box.Enqueue | src/agenthicc/background/notifications.py:247-341 | inserts one row per destination and the event, or nothing at all |
| Outbox.Box.ClaimDue | src/agenthicc/background/notifications.py:350-430 | fails exhausted leases and leases the first due row under a fresh token; if the payload of its event cannot be read the row is failed under that token and nothing is handed out |
| Outbox.Box.Lease | src/agenthicc/background/notifications.py:350-412 | the transaction of a claim: exhausted leases fail, the first due row is leased |
| Outbox.HeadIsFirst | src/agenthicc/background/notifications.py:363-369 | the claimed row is the first due one by due time, creation and ID, and there is one whenever a row is due |
| Outbox.Box.Finish | src/agenthicc/background/notifications.py:432-462 | commits a result for the holder of the current lease only |
| Outbox.Box.NextDueTime | src/agenthicc/background/notifications.py:464-474 | the loop finds the earliest moment at which an open row is due |
| Outbox.Box.Dispatch | src/agenthicc/background/notifications.py:810-840 | the draining loop terminates, by attempts still allowed and then sleeps still needed; it makes exactly as many claims as the attempts rise, and no more than the attempt limits of all rows minus the attempts already made |
| OutboxRuns.RunInv | src/agenthicc/background/notifications.py:350-462 | in every run the attempts of all rows add up to the claims ever made, which the attempt limits bound; each row respects its own limit |
| OutboxRuns.RunSafe | src/agenthicc/background/notifications.py:247-462 | delivered and failed rows never change, attempts never fall, and no row or event disappears |
| OutboxRuns.ReenqueueAddsNothing | src/agenthicc/background/notifications.py:271-283 | an event that is in adds nothing when enqueued again, however late |
| OutboxRuns.LeaseIsLatest | src/agenthicc/background/notifications.py:395-430 | a live lease is the one the latest claim of its row handed out |
| OutboxRuns.FinishIsFenced | src/agenthicc/background/notifications.py:432-462 | a finish under any token but that of the latest claim changes nothing, and reports a commit exactly when it changed something |
| OutboxRuns.OldTokensStayDead | src/agenthicc/background/notifications.py:432-462 | once a later claim took a delivery over, no older token can finish it, ever |
| OutboxRuns.CeilingDoubles | src/agenthicc/background/notifications.py:756-761 | the ceiling of the backoff doubles with each attempt until the cap |
| OutboxRuns.BackoffBounds | src/agenthicc/background/notifications.py:756-761 | the jittered delay lies between four fifths of the ceiling and the maximum delay |
| OutboxRuns.RetryIsBounded | src/agenthicc/background/notifications.py:764-807 | a retry is decided only below the attempt limit and never later than the maximum delay |
| OutboxLaws.EnqueueAddsRows | src/agenthicc/background/notifications.py:247-341 | exactly which descriptors are taken; a new event keeps all rows and adds for each destination, in order, one pending row that is due at once, without attempts or lease and with its limits in range; everything else changes nothing |
| OutboxLaws.ClaimsTheSoonest | src/agenthicc/background/notifications.py:350-412 | the ready row that is sooner than all others is leased with one attempt more, or failed when it has none left; rows that gave up are failed and every other row stays |
| OutboxLaws.ClaimsNothing | src/agenthicc/background/notifications.py:350-412 | with no row ready, a claim only fails the rows that gave up |
| OutboxLaws.FinishCloses | src/agenthicc/background/notifications.py:432-462 | the row that is sending under this very lease is closed or put back with the result, and every other row stays |
| OutboxLaws.DeliveryEnds | src/agenthicc/background/notifications.py:764-807 | delivered exactly on a success; to be tried again exactly on a network error, a 408, a 425, a 5xx or a 429 where that is wanted, while attempts are left; failed otherwise |
| OutboxLaws.RetryWaits | src/agenthicc/background/notifications.py:764-807 | a retry waits as long as the answer asks for, up to the maximum delay, and else as long as the backoff says |
| OutboxLaws.FirstBackoff | src/agenthicc/background/notifications.py:756-761 | the first backoff is the base delay, spread by the jitter between four fifths and six fifths of it |
| OutboxLaws.NextDueIsEarliest | src/agenthicc/background/notifications.py:464-474 | the next due time is the earliest of the due times of pending rows and the lease ends of sending ones |
| FairQueue.FairQueueOrder | src/agenthicc/background/queue.py:73-122 | the grouping and round loops compute the fair order and terminate |
| FairQueue.QueuePositionMap | src/agenthicc/background/queue.py:125-145 | the position map of that order |
| FairQueueLaws.OrderIsPermutation | src/agenthicc/background/queue.py:73-122 | no pending record is lost, repeated or made up |
| FairQueueLaws.DispatchIsFair | src/agenthicc/background/queue.py:103-122 | in any prefix, two projects that both still wait differ by at most one in items served |
| FairQueueLaws.WaitInOrder | src/agenthicc/background/queue.py:103-122 | the item at index r of its project, of P projects, is among the first P times r plus one |
| FairQueueLaws.StartsAfterLast | src/agenthicc/background/queue.py:105-110 | the round starts at the cyclic successor of the project served last |
| FairQueueLaws.OldWorkWins | src/agenthicc/background/queue.py:61-103 | inside a project a record two aging intervals older than one not dated in the future always comes first |
| FairQueueLaws.ShorterLeadCanLose | src/agenthicc/background/queue.py:16-70 | for every interval and any lead below two of them, some urgent record overtakes a low one that is older by that lead |
| FairQueueLaws.PositionsBijective | src/agenthicc/background/queue.py:125-145 | the position map of any order with distinct IDs reads off that order and names nothing else |
| FairQueueLaws.PositionsOfPending | src/agenthicc/background/queue.py:73-145 | for sessions with distinct IDs the positions are a bijection from the pending sessions onto 1..n that reads off the fair order |
| FairQueuePriority.UrgentGoesFirst | src/agenthicc/background/queue.py:16-70 | of two pending records of one project created at the same time, an urgent one goes before a normal or low one and a normal one before a low one, for every time and positive interval |
| FairQueuePriority.IntervalMakesUp | src/agenthicc/background/queue.py:61-70 | a record at least one interval older than one of the next higher priority that is not dated in the future goes first |
| FairQueuePriority.RuleDecides | src/agenthicc/background/queue.py:61-103 | within a project the order is by the level of the priority plus the full intervals of age, then by creation time, then by ID |
| FairQueuePriority.OrderServes | src/agenthicc/background/queue.py:34-40 | the order holds exactly the sessions that are queued with a pending dispatch |
| Maintenance.Scheduler.Run | src/agenthicc/background/maintenance.py:109-130 | one pass probes, reads, starts and dispatches exactly what is due; its outcome holds exactly the changed records, the number of probes, the watchable workers, and as `next_due_at` the earliest of the pending heartbeat deadlines, the rescan time, the retry times and the lease ends of the snapshot; on an overflow it raises with what its first steps stored |
| Maintenance.Scheduler.ReconcileWorkers | src/agenthicc/background/maintenance.py:134-186 | the loop probes exactly the due tracked workers, forgets the untracked, and notes the pending heartbeat deadlines |
| Maintenance.Scheduler.RecoverInput | src/agenthicc/background/maintenance.py:190-233 | the files are refreshed, each candidate is judged on its own bookkeeping, in any order, up to the first whose delay overflows; retry times, failures, changed records and deadlines are as judged |
| Maintenance.Scheduler.RefreshInbox | src/agenthicc/background/maintenance.py:235-289 | files are re-read only when scanned or named and changed |
| Maintenance.Scheduler.Dispatch | src/agenthicc/background/maintenance.py:293-316 | dispatch is due exactly as specified, and the lease ends ahead are noted |
| Maintenance.DeadlinesComplete | src/agenthicc/background/maintenance.py:109-130 | the noted deadlines are exactly what is still to come after the pass |
| Maintenance.NextDueLiesAhead | src/agenthicc/background/maintenance.py:109-186 | the reported time is later than the pass exactly when no fresh heartbeat has its deadline at this instant and a rescan just made is not to be repeated at once |
| Maintenance.OwnDispatchIsMissed | src/agenthicc/background/maintenance.py:109-130 | the reported time comes after the lease end of a reservation that the pass itself dispatched exactly when, by the state, trigger and answers the pass starts from, no heartbeat, rescan, registered lease, waiting retry or new retry falls due up to that end |
| Maintenance.DispatchReportsNothingDue | src/agenthicc/background/maintenance.py:109-130 | a first pass that reserves a queued session and reports that nothing is due |
| Maintenance.LaterPassSeesLease | src/agenthicc/background/maintenance.py:293-308 | a pass that finds a reservation in its snapshot is due again by the end of its lease |
| Maintenance.DelayDoubles | src/agenthicc/background/maintenance.py:229-233 | retry delays double per failure up to 300 seconds, and there is none from the 1025th failure in a row on |
| Maintenance.RetriesBackOff | src/agenthicc/background/maintenance.py:206-233 | a failed start is counted and not tried again before its delay is over, and another failure doubles the delay; without a delay the retry time stays |
| Maintenance.OverflowEndsPass | src/agenthicc/background/maintenance.py:229-233 | by the state before it, a pass raises exactly when it is to refuse a start for the 1025th time in a row or later; the failure is then counted, the retry time is not moved, and nothing is dispatched |
| Maintenance.SeenWorkersAreLeftAlone | src/agenthicc/background/maintenance.py:151-186 | a pass over sessions already seen, watched and with heartbeats in order probes and reconciles nothing |
| Maintenance.SettledStaysIdle | src/agenthicc/background/maintenance.py:214-219 | a candidate with nothing to start is not examined again while its record and inbox are unchanged |
| MaintenanceLaws.WorkersLookedAt | src/agenthicc/background/maintenance.py:134-186 | exactly which sessions are recovered: those with a worker in a full pass, whose process exited, that are new or in a new attempt, that are unwatched and due for polling, or whose heartbeat stopped or came back; what is remembered of each |
| MaintenanceLaws.FilesRead | src/agenthicc/background/maintenance.py:235-289 | when the inbox is scanned, and for every file whether it is forgotten, read again or kept |
| MaintenanceLaws.StartedExactly | src/agenthicc/background/maintenance.py:190-233 | an input is started exactly if the pass reached its session, its file holds input, no active session has its ID, no retry time lies ahead, its record is found and not settled with this file, a message is pending and there is capacity |
| MaintenanceLaws.SettledExactly | src/agenthicc/background/maintenance.py:214-219 | a candidate is settled with its record and file exactly if it would be examined and has no message pending |
| MaintenanceLaws.FailuresRemembered | src/agenthicc/background/maintenance.py:220-233 | a start that leaves an active session clears the failures, any other counts one more and sets the retry time while the delay can be computed, and without a start both stay |
| MaintenanceLaws.FirstDelay | src/agenthicc/background/maintenance.py:229-233 | the first delay is the polling interval, or 300 seconds if that is shorter |
| MaintenanceLaws.DispatchedExactly | src/agenthicc/background/maintenance.py:293-318 | a pass that does not raise dispatches exactly if it is a full one, the lease of a reservation is over, or a session waits in the queue and the registry changed before or in the pass |
| MaintenanceLaws.OutcomeTells | src/agenthicc/background/maintenance.py:109-130 | what the outcome reports of each session and of each probed worker |
| MaintenanceLaws.NextDueIsEarliest | src/agenthicc/background/maintenance.py:109-130 | the reported time is the earliest of the fresh heartbeat deadlines, the rescan, the retry times of the candidates and the lease ends ahead, in the fields of sessions and memory |
| SearchIndex.Index.Upsert | src/agenthicc/background/index.py:464-477 | the upserts with the triggers they fire leave the specified rows and postings |
| SearchIndex.Index.ReplaceRows | src/agenthicc/background/index.py:441-462 | bulk replacement without triggers and the rebuild leave the specified rows and postings |
| SearchIndex.RunStaysValid | src/agenthicc/background/index.py:97-119 | after any run of upserts and replacements the search table holds exactly the trigrams of the folded stored texts, for any folding |
| SearchIndex.ReplaceIsValid | src/agenthicc/background/index.py:441-462 | a replacement ends in step whatever the search table held before |
| SearchIndex.UpsertsStore | src/agenthicc/background/index.py:165-172 | the last row written for each session is stored and every other session is kept |
| SearchIndex.ReplaceStores | src/agenthicc/background/index.py:441-462 | a replacement keeps exactly the sessions it was given |
| SearchIndex.RowsHeld | src/agenthicc/background/index.py:441-477 | after an upsert a row is held exactly if it is the last one written for its session, or was held and its session was not written; after a replacement exactly the former |
| SearchIndex.MatchIsLiteral | src/agenthicc/background/index.py:535-540 | a trigram phrase of three or more characters matches every row that contains it, and no other whose text has no character that folds like another one of the word |
| SearchIndex.MatchIsFolded | src/agenthicc/background/index.py:535-540 | for any folding, a trigram phrase matches exactly the rows in which the word occurs up to folding |
| SearchIndex.FoldingIsLiteralExactly | src/agenthicc/background/index.py:534-540 | a word is found literally in all lower-cased texts exactly when none of its characters folds like another that such a text may hold |
| SearchIndex.LongSIsFound | src/agenthicc/background/index.py:534-540 | with a folding that takes the long s to s, a word that does not occur is found |
| SearchIndex.SearchIsLiteral | src/agenthicc/background/index.py:534-550 | in every search mode a query selects every row whose text contains every word, and exactly those as long as no character of the text folds like another one of a word |
| SearchIndex.SearchFinds | src/agenthicc/background/index.py:534-550 | for any folding, what a query selects in each of the three modes |
| LikePattern.LikeIsLiteral | src/agenthicc/background/index.py:227-229 | the escaped pattern matches a lower-case text exactly when the word occurs in it, wildcards and backslashes included |
| Reactive.Graph.Set | src/agenthicc/reactive.py:89-95 | every outermost set terminates with every live computed value consistent and the signal at its new value, keeps all other signals and disposed cells, and changes nothing that does not depend on the signal |
| Reactive.Graph.Notify | src/agenthicc/reactive.py:40-59 | calling the subscribers in order repairs all of them, despite nested notifications |
| Reactive.Graph.Recompute | src/agenthicc/reactive.py:137-141 | recomputation with its equality cut-off repairs one cell and everything downstream |
| Reactive.Graph.NewComputed | src/agenthicc/reactive.py:124-130 | a new value is consistent and subscribed to each dependency entry |
| Reactive.Graph.NewSignal | src/agenthicc/reactive.py:67-72 | a new signal leaves every cell as it was |
| Reactive.Graph.Dispose | src/agenthicc/reactive.py:160-169 | disposal keeps every value and the consistency of all other cells |
| Reactive.CleanIsMeaning | src/agenthicc/reactive.py:115-141 | consistent stored values are the reference meanings of the cells |
| Reactive.CleanIsUnique | src/agenthicc/reactive.py:115-141 | the notification order cannot matter: consistent graphs that agree on signals agree everywhere |
| Reactive.CleanInFull | src/agenthicc/reactive.py:115-141 | consistent means that every computed cell that is not disposed holds its function of the present values of its dependencies, in their order |
| Reactive.SetIsDetermined | src/agenthicc/reactive.py:89-95 | what a set leaves is determined by the graph and the value, in whatever order the subscribers are called |
| Frontmatter.WithoutComment | src/agenthicc/agents/definitions.py:169-180 | the scan with its open quote computes the text before the comment |
| Frontmatter.InlineList | src/agenthicc/agents/definitions.py:196-219 | the scan splits at the commas outside quotes, and refuses an unclosed quote |
| Frontmatter.ParseFront | src/agenthicc/agents/definitions.py:222-292 | the loop over the lines is the fold of the line steps, with its refusals |
| Frontmatter.IgnoredExactly | src/agenthicc/agents/definitions.py:222-292 | after any accepted lines a line with content leaves no trace exactly when it is no item and is indented under the last key, that key has nothing after its colon and opens a list, and the indentation reaches the list's |
| Frontmatter.DroppedLine | src/agenthicc/agents/definitions.py:222-292 | taking such a line out changes nothing, whatever lines follow |
| FrontmatterLaws.CommentIsDropped | src/agenthicc/agents/definitions.py:169-180 | a comment starts at the first `#` outside quotes that stands at the start or behind white space, and only there |
| FrontmatterLaws.IdleLine | src/agenthicc/agents/definitions.py:231-234 | a blank line or a comment line can stand anywhere and changes nothing |
| FrontmatterLaws.KeyMayBeSpaced | src/agenthicc/agents/definitions.py:88 | white space may stand between a key and its colon |
| FrontmatterLaws.KeyTwiceIsRefused | src/agenthicc/agents/definitions.py:246-270 | a key given twice is refused, at the margin and in the permissions, whatever is behind its colon |
| FrontmatterLaws.MisplacedIsRefused | src/agenthicc/agents/definitions.py:236-267 | an item without a list, an indented line out of place and a line without a colon are refused |
| FrontmatterLaws.ScalarMeans | src/agenthicc/agents/definitions.py:183-193 | what each scalar reads as, and which are refused |
| FrontmatterLaws.ItemsMakeTheText | src/agenthicc/agents/definitions.py:196-219 | a list is split at exactly the commas outside quotes: the items joined by commas are the text again and none holds such a comma; an unclosed quote is the only refusal |
| FrontmatterLaws.BlankItemIsSkipped | src/agenthicc/agents/definitions.py:213-219 | a blank item is passed over |
| FrontmatterLaws.BreakSplits | src/agenthicc/agents/definitions.py:156-166 | each of ten characters ends a line, and a carriage return takes a line feed along |
| FrontmatterLaws.FencesDecide | src/agenthicc/agents/definitions.py:156-166 | the head lies between a first line `---` and the next one, the body follows, and without both the text is refused |
| BlockLists.TopBlockReads | src/agenthicc/agents/definitions.py:236-240 | after any accepted lines, a new bare key with its items on lines of their own, bare or in double quotes, reads as exactly these items in order and changes no other key |
| BlockLists.NestedBlockReads | src/agenthicc/agents/definitions.py:241-253 | the same for a key of the permissions, whose items stand at least four deep |
| BlockLists.BlockIsInline | src/agenthicc/agents/definitions.py:284-289 | a list reads the same from its lines as from the brackets of the renderer |
| Definitions.ParseDefinition | src/agenthicc/agents/definitions.py:328-520 | the parser with its loops computes the specified result |
| Definitions.ParsedIsValid | src/agenthicc/agents/definitions.py:328-520 | everything the parser accepts is a valid definition |
| DefinitionsMeaning.AssemblesExactly | src/agenthicc/agents/definitions.py:328-520 | the values are accepted with a definition exactly when they stand for it: only the fifteen keys, each field the one its key says or the default of a missing key, within its limits and alphabets, and constraints only for subagents |
| DefinitionsMeaning.ParsesExactly | src/agenthicc/agents/definitions.py:328-520 | a text is accepted as a definition exactly when head and body can be told apart, the lines can be read and their values stand for it |
| Definitions.RenderDefinition | src/agenthicc/agents/definitions.py:543-588 | the appended lines make the specified text |
| Definitions.SortedAscends | src/agenthicc/agents/definitions.py:571-583 | the names of a set of constraints are written in ascending order |
| FrontmatterRoundTrip.ReadQuoted | src/agenthicc/agents/definitions.py:523-536 | a quoted text reads back as itself and hides no comment |
| FrontmatterRoundTrip.ReadListText | src/agenthicc/agents/definitions.py:539-540 | a rendered list reads back as its items when those rendered bare are sealed: no comma outside apostrophes, no apostrophe left open |
| ListReadBack.ListReadsBackExactly | src/agenthicc/agents/definitions.py:196-219 | a rendered list of trimmed items without double quotes reads back, as texts or as names, exactly when every item rendered bare is sealed |
| ListReadBack.ScalarsOfPieces | src/agenthicc/agents/definitions.py:213-219 | reading keeps the commas of the pieces, and if no piece was skipped as blank each gave its scalar |
| DefinitionsRoundTrip.SplitRendered | src/agenthicc/agents/definitions.py:156-166 | rendered lines and prompt are split off unchanged |
| DefinitionsRoundTrip.TopLinesRead | src/agenthicc/agents/definitions.py:264-291 | rendered fields fold to exactly their values |
| DefinitionsReadBack.SealedReadsBack | src/agenthicc/agents/definitions.py:543-588 | a valid definition of printable texts with sealed paths reads back exactly when its description is not empty and its bare name and colour read as text |
| DefinitionsLaw.PathsDecide | src/agenthicc/agents/definitions.py:328-520 | whatever the paths are, the rest of a rendering reads as it is: the paths decide between a refusal and the validation of the other fields with the paths as read |
| DefinitionsLaw.ReadsBackExactly | src/agenthicc/agents/definitions.py:543-588 | a valid definition of printable texts reads back from its rendering exactly when its description is not empty, its bare name and colour read as text and its bare paths are sealed |
| DefinitionsLaw.CommaSplitsPaths | src/agenthicc/agents/definitions.py:523-540 | every definition with the one path `a,b` reads back from its rendering with the two paths `a` and `b` |
| DefinitionsLaw.ApostropheBreaksDefinition | src/agenthicc/agents/definitions.py:523-540 | every definition with the one path `b's` is rendered to a text that does not parse |
| DefinitionsLaw.DroppedText | src/agenthicc/agents/definitions.py:328-344 | two texts that differ in a dropped line parse alike |
| DefinitionsLaw.WordUnderToolsIsDropped | src/agenthicc/agents/definitions.py:259-263 | a text with an indented word under `tools:` parses as the definition without tools |
| ConfigMerge.MergeNamedServers | src/agenthicc/config.py:2157-2176 | the loop with its table of positions computes the named merge |
| ConfigMerge.MergeKeepsOrder | src/agenthicc/config.py:2157-2176 | base entries keep their places and new names follow in first-seen order |
| ConfigMerge.MergeResolves | src/agenthicc/config.py:2157-2176 | a name resolves to its overriding entry if there is one and else to its base entry |
| ConfigMerge.MergeKeepsUnique | src/agenthicc/config.py:2157-2176 | unique names stay unique |
| ConfigMerge.NamedMergeAssociates | src/agenthicc/config.py:2157-2176 | the named merge is associative on all lists |
| ConfigMerge.MergeSections | src/agenthicc/config.py:2135-2154 | the loop over the overriding keys, in any order, computes the merge |
| ConfigMerge.EmptyIsIdentity | src/agenthicc/config.py:2135-2154 | the empty table is the identity on both sides |
| ConfigMerge.PathLookup | src/agenthicc/config.py:2135-2154 | the value of every path of a merge |
| ConfigMerge.LeafWins | src/agenthicc/config.py:2135-2154 | every leaf of the override stands, arrays of servers apart |
| ConfigMerge.ServersMerge | src/agenthicc/config.py:2135-2176 | two arrays under `mcp_servers` are merged by name: a server of both layers has its upper entry at its lower place, one of the upper layer alone is added, all other entries of the lower layer stay in place, and entries without a name are added |
| ConfigMerge.MergeAssociates | src/agenthicc/config.py:2135-2154 | merging is associative exactly when, wherever the middle layer interrupts, the first layer adds nothing to the last |
| ConfigMerge.SameShapeIsSmooth | src/agenthicc/config.py:2135-2154 | layers of the same shape meet that condition |
| ConfigMerge.ScalarBetweenTables | src/agenthicc/config.py:2135-2154 | layers whose middle one puts a scalar between two tables, for which the grouping matters |
| ConfigExtends.ResolveExtends | src/agenthicc/config.py:2452-2494 | the recursion terminates and computes the specified outcome |
| ConfigExtends.ResolvesExactly | src/agenthicc/config.py:2452-2494 | resolution succeeds exactly when no chain from the file closes a cycle or ends in a missing or malformed file; diamonds are accepted |
| ConfigExtends.CycleErrorExactly | src/agenthicc/config.py:2452-2494 | when all named files are readable, the cycle error is raised exactly for files that reach a cycle |
| ConfigExtends.ResolvesToLayers | src/agenthicc/config.py:2481-2494 | the result is the parents, each resolved on its own, laid left to right with the file's values on top |
| ConfigExtends.OwnLeafWins | src/agenthicc/config.py:2481-2494 | a value that a file sets itself is the one it ends up with |
| ConfigExtends.LastSetterDecides | src/agenthicc/config.py:2461-2494 | `extends` names one file by a text and one per entry by a list; each is resolved on its own; what a key holds is decided by the file itself, failing that by the last of the named files that gives it a value, and it holds nothing if none does |
| ConfigExtends.ExtendsIsStripped | src/agenthicc/config.py:2461-2465 | no resolved configuration mentions `extends` |
| ManagedSection.FailsExactly | src/agenthicc/project_bootstrap.py:484-490 | the merge fails exactly on a start marker without an end marker or an end marker without a start marker before it |
| ManagedSection.MergeKeepsOutside | src/agenthicc/project_bootstrap.py:480-497 | what was merged can be read back and all text outside is kept |
| ManagedSection.PutPut | src/agenthicc/project_bootstrap.py:480-497 | merging one section and then another is merging the other alone, and does not fail where the first did not |
| ManagedSection.MergeIsIdempotent | src/agenthicc/project_bootstrap.py:480-497 | merging the same section again changes nothing |
| ManagedSection.GetPut | src/agenthicc/project_bootstrap.py:480-497 | merging the section that is there changes nothing |
| ManagedSection.MergeIntoNothing | src/agenthicc/project_bootstrap.py:481-482 | an absent or blank file becomes the title and the section |
| ManagedSection.MergeAppends | src/agenthicc/project_bootstrap.py:497 | a file without markers keeps all of its text; only the white space at its end gives way to an empty line and the section |
| ManagedSection.MergeInPlace | src/agenthicc/project_bootstrap.py:484-495 | between the first start marker and the first end marker, with the line break behind it, the text is replaced, and nothing else |
| Scopes.RestrictIsMeet | src/agenthicc/security.py:92-128 | restriction is commutative, associative and idempotent, and the greatest lower bound in its own order |
| Scopes.RestrictPermits | src/agenthicc/security.py:80-128 | exactly which tools a restricted scope permits, for any glob |
| Scopes.BelowPermitsLess | src/agenthicc/security.py:80-128 | a lower scope permits no more tools, calls or depth |
| Scopes.RestrictCanLoseCommonTools | src/agenthicc/security.py:92-103 | a tool that both sides permit can be lost |
| Scopes.ScopeManager.Register | src/agenthicc/security.py:167-193 | a registration stores exactly the specified scope and depth |
| Scopes.ScopeManager.UpdateScope | src/agenthicc/security.py:203-212 | an update only restricts a scope that exists |
| Scopes.ScopeManager.CanSpawn | src/agenthicc/security.py:214-224 | says yes exactly when whatever child were registered under the parent at that moment would be within the depth limit of the parent's scope, or of 3 without one |
| Scopes.SpawnMeaning | src/agenthicc/security.py:167-224 | the comparison before a spawn agrees with the depth that registering any child would then store |
| Scopes.RunShrinks | src/agenthicc/security.py:167-212 | over any run that does not register an agent again, its scope only shrinks |
| Scopes.ChildStaysWithin | src/agenthicc/security.py:167-193 | a child never exceeds its parent's scope as of its registration |
| Scopes.ReregistrationCanExpand | src/agenthicc/security.py:182-193 | a second registration can widen a scope |
| Scopes.ReregistrationShrinksExactly | src/agenthicc/security.py:182-193 | a second registration stays inside the old scope exactly when the given and the parent's scope together withhold every tool, target, call and depth that the old one withheld |
| Scopes.ChildCanOutliveParentScope | src/agenthicc/security.py:203-212 | narrowing a parent leaves its children as they were |
| Scopes.UpdateKeepsChildInside | src/agenthicc/security.py:203-212 | an update of a parent keeps a child inside it exactly when the child is inside the scope given, which can be seen before the update |
| Scopes.ChildInsideParentNow | src/agenthicc/security.py:167-212 | after any run without a new registration of either, the child is inside its parent's present scope exactly when it is inside every scope the parent was updated with since |
| Scopes.BelowRun | src/agenthicc/security.py:203-212 | after any run without a new registration, what lies below an agent's scope is exactly what lies below its old scope and every scope it was updated with |
| Scopes.DepthsStayWithin | src/agenthicc/security.py:214-224 | when every spawn asks first, no agent is deeper than the largest limit handed out |
| Scopes.FirstMatchDecides | src/agenthicc/security.py:277-286 | the first matching rule decides, and the default action only without one |
| Scopes.DeniedToParentDeniedToChild | src/agenthicc/security.py:252-286 | whatever a parent's scope denied at registration is denied to the child ever after, whatever the policy says |
| Scopes.RegisterGives | src/agenthicc/security.py:167-193 | the scope and depth that a registration gives an agent, list by list and number by number, and that no other agent is touched |
| Scopes.UpdateGives | src/agenthicc/security.py:203-212 | the same for an update, which leaves the depths |
| Scopes.CheckDecides | src/agenthicc/security.py:252-286 | a tool that matches a denied pattern of the scope, or none of its whitelist, is denied; otherwise the first rule that applies decides, and the default without one |

## Left out

- Files, SQLite, locks, fsync and JSON: each transaction and each log append is one atomic step; torn log lines are not modelled.
- Hashing, UUIDs and clocks: a lease hash and an item ID are injective and never the empty text, lease tokens are fresh, one clock reading is passed to each operation.
- `InputInbox`: `_paths` and its refusal of unsafe session IDs; values of the wrong JSON type.
- `InputInboxRuns`: a settlement that finds nothing to close and the receipts it then reads are two moves of a run, as the log is free between them.
- `OperatorInbox`: the time stamped on a row that `reconcile` publishes is that of the whole pass, where the source reads the clock again; `list_items`, `pending_summary`, `answer_response`, `response_from_text`, `workspace_name`, and the payload limits except the response size.
- `OperatorInbox.Inbox.Reconcile`: no other transaction runs between the rows of one pass; `InterleavedRepair` takes up what does, row by row.
- `Outbox`: what makes a stored payload unreadable, which is a given predicate; `list_deliveries`, webhook networking, destination policy, signing, local notices and the text of `Retry-After` (section 10.2.3 of RFC 9110), which is an already parsed number; destination validity is a given flag.
- `Outbox.Box.Dispatch`: no other process enqueues or claims while it drains, which is what makes draining end.
- `FairQueue`: rounding of the float division in the aging rank; times and intervals are reals.
- `Maintenance`: the supervisor, the store and the directory scan answer as given; file-name suffixes; the order of the changed records; rounding and infinities of floats, except that the delay overflows. A positive poll interval is assumed.
- `SearchIndex`: filters other than the query words, ordering, paging, the cache of decoded sessions, the stored position, SQLite's row ids beyond 64 bits and its limit on the length of patterns. The tokenizer folds character by character by a given function.
- `Reactive`: subscribers other than recompute callbacks, subscribers that raise, compute functions that raise or read what they did not declare, and locking.
- `Definitions`: the line and wording of errors; the JSON schema of `output`, which is an uninterpreted reader; digits outside ASCII; renderings of texts with double quotes, which the renderer rewrites, or with line breaks. Case folding is modelled as far as the fixed names can tell.
- `Definitions.RenderDefinition`: the constraint names are sorted by a selection loop that stands for the built-in sort.
- `ConfigExtends`: the resolution of path texts, which is a given function; a root file reached through a symbolic link; the warning for an `extends` of the wrong type.
- `ConfigMerge`: field coercion, provider profiles, headers, environment overrides and everything after the merge.
- `ManagedSection`: the content of the generated section, of which only the marker shape matters.
- `Scopes`: glob matching itself, which is any predicate, and the conditions of policy rules, whose outcome is given.
- `recovery.py`, `vocabulary.py`, serialization in `model.py`, the TUI, the CLI and the rest of the repository are not part of this model.
