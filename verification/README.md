# Verification of the delivery platform's state machines

A Dafny 4.11 model of the parts of the repository that have to stay right through duplicates, reordering, crashes
and several tabs or workers at once, with proofs about all of their runs. `dafny verify dfyconfig.toml` checks it.

The project follows the repository's own division.

- **The durable receiver** (`Projection`, `Receiver`, `ReceiverStore`, `StreamStatus`, `Recovery`). Events arrive at
  least once and in any order, are stored in an inbox and applied one at a time. Tables are maps in the class
  `ReceiverStore`; every method is one transaction under the scope lock and is proved equal to a specification function
  in `Receiver`. Runs of those functions are compared with the trivial consumer that reads the producer's log in order:
  `ReceiverRefinement` (refinement, watermarks), `ReceiverEvidence` (what is never forgotten), `ReceiverFairness` (no
  starvation), `ReceiverConfluence`, `ReceiverAgreement` and `ReceiverForks` (confluence, exactly when it holds, eventual
  agreement), `RecoveryRuns` (what a recovery call stores, refuses and leads to), `CheckpointReports` (the scope revision
  as a version stamp, reports).
- **The outgoing source lane** (`SourceLane`, `SourceOrder`, `SourceSends`). Optimistic saves, one ordered queue, leases,
  and a trace of what is sent, over any workers, crashes and expiries.
- **Canonical JSON** (`CanonicalJson`, `JsonReader`). The printer that duplicate detection rests on, an independent
  reader, and what equal texts mean. Key order and primitive rules are those of sections 3.2.2 and 3.2.3 of RFC 8785,
  except that a lone surrogate is printed as an escape, as `JSON.stringify` does.
- **The phone's journal** (`LocalCommands`, `LocalWork`, `LocalStore`). Capture, overlays, receipts, downloads, selection
  and exit of accounts. A run is the list of transactions of all tabs in the order in which the database serialised them;
  a crash is a run that stops. `ExecutionOrder`, `LocalEvidence`, `PreviewValidity`, `PreviewRuns`, `PreviewResults`,
  `AccountLifecycle`, `Replay` and `ReplayCoordinator` prove what holds over all of them. The replay's server and the
  other tabs are arbitrary functions of the call number, so nothing is assumed of them but what a theorem names.
- **Two smaller machines**: percentile accounting (`Percentiles`) and the monitoring refresh controller
  (`MonitoringRefresh`).

`Ordering` says what ORDER BY means over a table that is a map, and that it leaves nothing open.

Methods are proved equal to specification functions, and the theorems about runs speak of these. What the specification
functions themselves decide is not taken on trust: `ProjectionRules`, `ReceiverRules`, `LaneRules`, `CommandRules` and
`JournalRules` say, about the fields of rows and states alone, exactly when each transaction goes through, why it is
refused otherwise, and what it leaves.

## Findings

- Confluence of the receiver does not survive every snapshot. A task stream that jumped over an outcome event holds that
  outcome in its state without ever having received the event; if a later correction is applied first, a return request
  that refers to the old outcome waits for ever (`ReceiverAgreement.SnapshotLosesDependency`). The exact condition is that
  every outcome in the state of a task stream came in as an event that is applied or covered by the snapshot
  (`ReceiverForks.OrderMattersExactly`). A caller can make sure of it in the status of every task stream: `receivedThrough`
  has reached `snapshotThrough` (`ReceiverConfluence.StatusTellsGrounded`).
- The preview of a round can be broken by an offline action that is recorded outside the continuation: nothing is checked
  against the round there. `PreviewResults.UncheckedCapture` says exactly when the preview survives, and
  `PreviewResults.UncheckedCaptureCanFail` gives an action that breaks it.
- In the source lane only the first send of each revision is ordered. A worker whose lease was replaced may still send
  revision r after r + 1 was sent (`SourceSends.LateSendHappens`); its answer then changes nothing. It can happen exactly
  once a later command was claimed (`SourceSends.LateExactlyWhen`). A worker that sends only while its own row is pending
  would keep all sends in order (`SourceSends.GuardedRunsAreOrdered`).
- A response of an older revision in the same scope, or an aborted one, leaves the monitoring view in its refreshing or
  loading phase although nothing is under way any more (`MonitoringRefresh.RefreshingWithoutRequest`), and no other
  response does (`MonitoringRefresh.ResponseLeavesPhase`). The next age tick ends it if something was shown before.

## Assumptions

- Each database transaction and each browser transaction is one atomic step, serialised by the scope lock or the
  database; a failed one changes nothing.
- Cursors, snapshot marks and attempt counts start at 0, sequences are positive, event ids and stream positions are
  unique, as the tables of `apps/mock-erp/migrations` declare.
- A semantic hash is the canonical text itself, and the text that `JSON.stringify` makes of an envelope determines the
  envelope.
- Signature, schema, tenant and identity checks are yes/no parameters that precede the transaction. `rejects` is the set
  of events whose projected state the schema refuses or whose write fails.
- A producer is honest when events are what its log says and a snapshot is the fold of a log prefix. For the converse of
  confluence its log also is readable, publishes every event id and every outcome once, and keeps return requests out of
  task streams, as `apps/api/src/corrections/service.ts`, `outcomes/service.ts` and `returns/service.ts` do.
- During a replay run no other tab captures into the same account, which is what the journal lock is for; other
  transactions of other tabs may come between any two of the run.

## Model

| member | source | states |
|---|---|---|
| `Projection.ProjectEvent` | packages/api-client/src/projection.ts:7-30 | works on a copy step by step and returns exactly what the specification `Project` gives, errors included |
| `Projection.FoldIsWellFormed` | packages/api-client/src/projection.ts:13-29 | over every event sequence: at most one outcome per attempt, one notice per key, no list longer than 1000 |
| `Projection.RevisionsRise` | packages/api-client/src/projection.ts:13-16 | along every log the outcome of an attempt never disappears and is replaced only by a strictly higher revision |
| `Projection.ReturnsConserve` | packages/api-client/src/projection.ts:20-23 | after a return request, of each item exactly what the moves carried as received, as lost and as damaged has gone there out of `unresolved`, which never falls below zero; nothing else about the items changes |
| `Projection.OutcomesComeFromEvents` | packages/api-client/src/projection.ts:10-16 | every outcome in a state was there before or is the one the event carries |
| `ProjectionRules.RefusedExactlyWhen` | packages/api-client/src/projection.ts:14-22 | an event is refused exactly for an outcome whose attempt has this or a higher revision, a correction of another outcome, or a move that the request, its item and its unresolved quantity do not allow, each with its own error |
| `ProjectionRules.LimitExactlyWhen` | packages/api-client/src/projection.ts:29 | in a well-formed state the limit refuses exactly a new attempt beyond 1000 outcomes, a request of more than 1000 items, and a new key beyond 1000 notices |
| `ProjectionRules.AcceptedChanges` | packages/api-client/src/projection.ts:10-28 | each event changes its own part of the state: the new outcome or notice comes last and takes the place of the one of its attempt or key, the others keep their order |
| `ReceiverStore.ReceiverStore.StoreEvent` | apps/mock-erp/src/inbox.ts:15-32 | one locked transaction: duplicate, payload mismatch, sequence collision, late wire body and new row, exactly as specified by `Store`, and the table constraints hold afterwards |
| `ReceiverStore.ReceiverStore.CheckDependencies` | apps/mock-erp/src/projection.ts:10-20 | a return request is applicable exactly when every requested outcome is in its task state or in some transition |
| `ReceiverStore.ReceiverStore.TryApply` | apps/mock-erp/src/projection.ts:36-53 | the savepoint: the event is projected and recorded completely, or the row alone notes the failure |
| `ReceiverStore.ReceiverStore.ApplyOne` | apps/mock-erp/src/projection.ts:29-54 | one row of the page: dependency missing, applied, or failed |
| `ReceiverStore.ReceiverStore.ApplyInboxOnce` | apps/mock-erp/src/projection.ts:23-58 | the page in turn up to the first row that is not held up, equal to the specification `ApplyInbox`; of all awaiting rows that are no later in the retry order than the one taken in, every other is a return request for an outcome not seen yet |
| `ReceiverStore.ReceiverStore.AdoptSnapshot` | apps/mock-erp/src/recovery.ts:12-24 | refuses a snapshot that does not fit the stream, ignores one that is not ahead, and otherwise jumps cursor, state and snapshot mark |
| `ReceiverStore.ReceiverStore.OpenStream` | apps/mock-erp/src/recovery.ts:27 | creates the stream at cursor 0 and leaves an existing one alone |
| `ReceiverRules.StoreExactlyWhen` | apps/mock-erp/src/inbox.ts:19-23 | payload mismatch, sequence collision, duplicate or new row, each exactly when the stored rows say so |
| `ReceiverRules.StoreLeaves` | apps/mock-erp/src/inbox.ts:22-28 | what each of these leaves: one note, at most the late wire body, or one new row in an opened stream |
| `ReceiverRules.PageInOrder` | apps/mock-erp/src/projection.ts:26-28 | fewer attempts first, then the earlier arrival, then the smaller event id; only a full page of 100 leaves awaiting rows out, each no earlier than the whole page |
| `ReceiverRules.RowTurn` | apps/mock-erp/src/projection.ts:31-54 | whether a row is held up, taken in or put back, and exactly what each leaves on the row, in its stream and in the history |
| `ReceiverRules.PageIsWorked` | apps/mock-erp/src/projection.ts:29-57 | the rows in front that are held up are marked, the next one is tried, and the rest of the page stays as it is |
| `ReceiverRules.TakenInIsFirst` | apps/mock-erp/src/projection.ts:26-47 | the row taken in comes first of all awaiting rows, but for return requests whose outcome was not seen yet |
| `ReceiverRules.AdoptExactlyWhen` | apps/mock-erp/src/recovery.ts:13-23 | a snapshot is taken over exactly when everything in it is of the stream and it lies ahead of the cursor |
| `ReceiverStore.ReceiverStore.ConsumerStatus` | apps/mock-erp/src/projection.ts:59-72 | a status exists exactly for known streams and describes the stored rows |
| `StreamStatus.Watermarks` | apps/mock-erp/src/projection.ts:64-65 | the loop over the rows finds the largest gap-free received and applied prefixes |
| `StreamStatus.LatestTimes` | apps/mock-erp/src/projection.ts:68 | the latest receipt and application times over all rows of the stream |
| `StreamStatus.FirstProblem` | apps/mock-erp/src/projection.ts:66-67 | the problem of the earliest pending row that has one |
| `StreamStatus.ReadStatus` | apps/mock-erp/src/projection.ts:64-70 | every field of the checkpoint is what the declarative description of the stream says |
| `ReceiverEvidence.NothingIsForgotten` | apps/mock-erp/src/inbox.ts:17-28 | whatever arrives, honest or not, no run changes a stored event, its bytes, an applied mark or a transition, and no cursor goes back |
| `ReceiverRefinement.StepKeepsInv` | apps/mock-erp/src/projection.ts:23-58 | every transaction, honest snapshots included, keeps the invariant that ties streams, rows and history to the producer log |
| `ReceiverRefinement.Refinement` | apps/mock-erp/src/projection.ts:23-58 | after every run of deliveries, repetitions, reorderings, snapshots and applications each stream state is the fold of the log prefix up to its cursor |
| `ReceiverRefinement.CompleteIsCaughtUp` | apps/mock-erp/src/projection.ts:65-67 | the applied prefix never passes the cursor, and reaches the snapshot mark exactly when it reaches the cursor |
| `ReceiverRefinement.GapIsReal` | apps/mock-erp/src/projection.ts:67 | if no pending row sits right behind the cursor then the next event was never received |
| `ReceiverRefinement.WatermarksMeaning` | apps/mock-erp/src/projection.ts:65-70 | order of the watermarks, completeness exactly when applied = projected, reported gaps are real, and a quiet stream has all four equal |
| `ReceiverFairness.UnsuccessfulCallPays` | apps/mock-erp/src/projection.ts:26-56 | a call that applies nothing keeps a ready row ready and lowers its debt, the sum over the other eligible rows of max(0, own attempts + 1 - theirs) |
| `ReceiverFairness.NoStarvation` | apps/mock-erp/src/projection.ts:26-56 | more calls than the debt of a ready row cannot all apply nothing, whatever the other rows do |
| `ReceiverConfluence.Confluence` | apps/mock-erp/src/projection.ts:10-58 | two runs that can go no further, except for what the State schema refuses for ever, end with the same streams and the same transitions, when every outcome in the state of a task stream came in as an event that is applied or covered by the snapshot |
| `ReceiverConfluence.StepKeepsGrounded` | apps/mock-erp/src/projection.ts:23-58 | deliveries, applications and openings keep that condition; only a snapshot can end it |
| `ReceiverConfluence.StatusTellsGrounded` | apps/mock-erp/src/projection.ts:65-70 | a caller can make sure of the condition: in the status of every task stream `receivedThrough` has reached `snapshotThrough` |
| `ReceiverConfluence.CompleteHistoriesGround` | apps/mock-erp/src/projection.ts:65-70 | the condition holds whenever every history is complete |
| `ReceiverConfluence.NoSnapshotIsComplete` | apps/mock-erp/src/recovery.ts:19-22 | without snapshot adoption every history is complete |
| `ReceiverConfluence.StatusTellsComplete` | apps/mock-erp/src/projection.ts:70 | complete histories are what `historyComplete` in every status read says |
| `ReceiverAgreement.SampleIsReachable` | apps/mock-erp/src/recovery.ts:12-24 | the counterexample state is reached by an honest run with one adopted snapshot |
| `ReceiverAgreement.SnapshotLosesDependency` | apps/mock-erp/src/projection.ts:10-20 | confluence fails after a snapshot: applying the correction first leaves a return request waiting for ever that could have been applied |
| `ReceiverAgreement.WorkEnds` | apps/mock-erp/src/projection.ts:23-58 | repeating the worker call reaches a receiver in which nothing can be applied |
| `ReceiverAgreement.EventualAgreement` | apps/mock-erp/src/projection.ts:23-58 | once all events of causally ordered, readable logs are delivered, finitely many calls end exactly where the trivial consumer ends, with every event in the history |
| `ReceiverForks.ApplyNext` | apps/mock-erp/src/projection.ts:26-56 | whichever event can be applied may be the next one applied, if the writes of the others fail |
| `ReceiverForks.UngroundedForks` | apps/mock-erp/src/projection.ts:10-58 | an outcome in the state of a task stream that came in as no applied or covered event: the producer may go on, with a readable extension of its log, so that two maximal runs of the worker end in different histories |
| `ReceiverForks.OrderMattersExactly` | apps/mock-erp/src/projection.ts:10-58 | under every continuation of the log, every delivery and every schema the order of application makes no difference, if and only if every outcome in the state of a task stream came in as an event that is applied or covered |
| `ReceiverForks.SampleOrderMatters` | apps/mock-erp/src/projection.ts:10-58 | a reachable receiver for which the order matters |
| `Recovery.StorePage` | apps/mock-erp/src/recovery.ts:33 | one replay page, event by event, equal to the specification `StoreFrom` |
| `RecoveryRuns.PageMeaning` | apps/mock-erp/src/recovery.ts:33 | exactly the events up to the first that is out of place, not admitted or in conflict are stored, nothing else changes, and the refusal says which it was |
| `RecoveryRuns.PageNotes` | apps/mock-erp/src/inbox.ts:21-22 | a conflict leaves exactly one note, of the event that met it; nothing else is noted |
| `Recovery.FetchPages` | apps/mock-erp/src/recovery.ts:30-36 | the page loop, equal to the specification `FetchFrom` |
| `RecoveryRuns.FetchMeaning` | apps/mock-erp/src/recovery.ts:30-36 | at most ten requests, each behind what was stored before; whole answers as long as they promise more, a part of the one that ends the fetch, and exactly one reason for the end |
| `Recovery.FetchMissing` | apps/mock-erp/src/recovery.ts:27-40 | opens the stream, asks behind its unbroken part, and turns to the snapshot, equal to the specification `Missing` |
| `RecoveryRuns.MissingMeaning` | apps/mock-erp/src/recovery.ts:37-40 | the snapshot is adopted exactly when the history is reported gone, the snapshot fits and lies ahead of the cursor; each failure arises for its own reason |
| `Recovery.ApplyMany` | apps/mock-erp/src/recovery.ts:41 | the worker called until nothing moves or a thousand times, equal to the specification `WorkedThrough` |
| `Recovery.UntilMeaning` | apps/mock-erp/src/recovery.ts:41 | never more calls than the bound, each but the last moves something, and fewer only when the last moved nothing |
| `Recovery.WorkMeaning` | apps/mock-erp/src/recovery.ts:41 | the worker is called a thousand times, or until a call takes nothing in |
| `Recovery.Reconcile` | apps/mock-erp/src/recovery.ts:25-43 | fetch, apply, report: the tables and the failure are those of the specification `Reconciled`, and a status describes the tables left behind |
| `RecoveryRuns.ReconcileMeaning` | apps/mock-erp/src/recovery.ts:25-43 | the stream is then received without a hole through its old unbroken part and every event of the accepted answers; refusals and snapshot exactly as the answers give them |
| `RecoveryRuns.ReconcileIsRun` | apps/mock-erp/src/recovery.ts:25-43 | whatever a call did, refused or not, is a run of transactions that are honest when the API is |
| `RecoveryRuns.TruthfulReconcile` | apps/api/src/outbox/reads.ts:33-41 | against a producer that answers with the next hundred events of its log a call is never refused, receives the next thousand, and is complete exactly when no more were missing |
| `RecoveryRuns.RecoveryAgrees` | apps/mock-erp/src/recovery.ts:25-43 | whatever was missed: enough recovery calls for each stream against such a producer, then finitely many worker calls, end exactly where the trivial consumer ends |
| `RecoveryRuns.SampleIsRecoverable` | apps/mock-erp/src/recovery.ts:25-43 | a log with a correction and a return request for the corrected outcome meets all that recovery asks of a log |
| `CheckpointReports.ReportTable.PrepareReport` | apps/mock-erp/src/recovery.ts:46-54 | resend the unconfirmed command, keep silent, or store a new command |
| `CheckpointReports.ReportTable.MarkReported` | apps/mock-erp/src/recovery.ts:58 | only the command that was confirmed becomes reported |
| `CheckpointReports.ReportExactlyWhen` | apps/mock-erp/src/recovery.ts:49-54 | nothing is sent exactly when the last report is confirmed and no older than the status; an unconfirmed one goes out again, and otherwise a new one does |
| `CheckpointReports.ConfirmExactlyWhen` | apps/mock-erp/src/recovery.ts:58 | exactly the report of the confirmed command becomes reported |
| `CheckpointReports.CheckpointIsUnique` | apps/mock-erp/src/projection.ts:59-72 | what a status read reports is determined by the tables |
| `CheckpointReports.RevisionIsVersionStamp` | apps/mock-erp/src/projection.ts:33-52 | two status reads of a stream at the same scope revision are the same checkpoint, however far apart |
| `CheckpointReports.SilenceIsUpToDate` | apps/mock-erp/src/recovery.ts:48-50 | deciding not to send means the last command is confirmed and carries the current checkpoint |
| `CheckpointReports.UnconfirmedStays` | apps/mock-erp/src/recovery.ts:49 | an unconfirmed command is offered unchanged until it is confirmed |
| `SourceLane.SourceStore.SaveSource` | apps/mock-erp/src/source.ts:29-48 | the checks in order, the idempotent repetition, the optimistic revision check and the inserts, equal to `Save` |
| `SourceLane.SourceStore.ClaimHead` | apps/mock-erp/src/source.ts:71-80 | claims the head of the queue when it is due and not leased, closing an expired attempt and opening the next; the rules of `LaneRules.ClaimExactlyWhen` follow |
| `SourceLane.SourceStore.CompleteClaim` | apps/mock-erp/src/source.ts:93-97 | settles or releases only while the lease is still this one, equal to `Complete` |
| `SourceOrder.StepKeepsInv` | apps/mock-erp/src/source.ts:36-97 | every save, claim, send and completion keeps queue order, lease accounting, revision chains and the trace of sends |
| `SourceOrder.SettledIsPrefix` | apps/mock-erp/src/source.ts:71-97 | settled commands are a prefix of the ordinals |
| `SourceOrder.RecordOrder` | apps/mock-erp/src/source.ts:36-97 | for every record the verdict on revision r is stored before the command for revision r + 1 is first sent |
| `SourceSends.PendingIsNotOvertaken` | apps/mock-erp/src/source.ts:71-97 | while a command is pending no later one was claimed or sent, in any run |
| `SourceSends.LateExactlyWhen` | apps/mock-erp/src/source.ts:71-97 | the send of a claim can still come after the send of a later command if and only if a later command was ever claimed, which needs this command to be settled |
| `SourceSends.GuardedRunsAreOrdered` | apps/mock-erp/src/source.ts:71-97 | if workers send only while their command is pending, all sends of all workers go through the queue in order |
| `SourceSends.LateSendHappens` | apps/mock-erp/src/source.ts:71-97 | a run of the code as it is that sends revision 1 of a record again after revision 2 |
| `SourceOrder.EditsStay` | apps/mock-erp/src/source.ts:42-45 | every edit of every saved command stays recorded as exactly one revision of its record |
| `SourceOrder.AttemptAccounting` | apps/mock-erp/src/source.ts:75-79 | the attempt count equals the attempt rows; exactly one is unfinished while a lease is set and none otherwise |
| `SourceOrder.ReplacedWorkerIsFenced` | apps/mock-erp/src/source.ts:94-96 | a worker whose lease was replaced changes nothing |
| `LaneRules.ClaimExactlyWhen` | apps/mock-erp/src/source.ts:73-79 | the first pending row is handed out exactly when it is due and under no lease, or one that ran out; then this row alone is leased and counted, its open attempt closed as expired and the next one opened |
| `LaneRules.LeaseExcludesOthers` | apps/mock-erp/src/source.ts:74 | from a claim until its lease runs out or its worker completes it, no worker gets any claim, whatever is saved, sent or completed meanwhile |
| `LaneRules.ClaimExcludesOthers` | apps/mock-erp/src/source.ts:71-80 | the same from the moment the claim is handed out, in every run |
| `LaneRules.CompleteExactlyWhen` | apps/mock-erp/src/source.ts:93-97 | a completion takes effect exactly while its command is pending under its lease, and then leaves exactly this row and this attempt answered |
| `LaneRules.SaveExactlyWhen` | apps/mock-erp/src/source.ts:30-40 | a submission under an unused id is saved exactly when it is well stated and every record is at the expected revision; the first thing wrong names the error |
| `LaneRules.UsedIdExactlyWhen` | apps/mock-erp/src/source.ts:38-39 | a used id is accepted exactly for the same submission of the same actor |
| `LaneRules.SaveStores` | apps/mock-erp/src/source.ts:41-46 | the command at the end of the queue, the next revision of each of its records, and nothing else |
| `SourceOrder.SettledStays` | apps/mock-erp/src/source.ts:94-96 | a settled row, its decision, problem and result body included, is never overwritten |
| `CanonicalJson.CanonicalSortsKeys` | packages/api-client/src/validation.ts:34-38 | the printed text is the plain printing of the value with its keys sorted at every depth |
| `CanonicalJson.SortedKeysAscend` | packages/api-client/src/validation.ts:37 | in every object at every depth a key stands before the keys that follow: after a common beginning it ends first or goes on with the smaller code unit |
| `CanonicalJson.SameMeansSortedAlike` | packages/api-client/src/validation.ts:37 | two values differ only in key order exactly when their key-sorted forms are equal |
| `JsonReader.StringReadsBack` | packages/api-client/src/validation.ts:35 | every string literal, surrogates and escapes included, reads back as the code units it was printed from |
| `JsonReader.Spelling` | packages/api-client/src/validation.ts:35-37 | the brackets, separators and words are the characters of JSON |
| `JsonReader.ShortEscapes` | packages/api-client/src/validation.ts:35 | the seven code units with short escapes and these escapes |
| `JsonReader.EscapeForm` | packages/api-client/src/validation.ts:35 | the other control characters and unpaired surrogates are written as four lower-case hexadecimal digits, every other unit as itself |
| `JsonReader.PrintedIsWellFormed` | packages/api-client/src/validation.ts:35 | whatever string is printed, its text has no unpaired surrogate |
| `JsonReader.PlainStaysPlain` | packages/api-client/src/validation.ts:35 | a string that needs no escape is printed as it is, surrogate pairs included |
| `JsonReader.PrintedReadsBack` | packages/api-client/src/validation.ts:35-37 | every printed value reads back, whatever delimiter follows |
| `JsonReader.CanonicalReadsBack` | packages/api-client/src/validation.ts:34-38 | reading a canonical text recovers the key-sorted value |
| `JsonReader.CanonicalForm` | packages/api-client/src/validation.ts:34-38 | two values print the same canonical text exactly when they are equal up to object key order |
| `JsonReader.PrintedKeysAscend` | packages/api-client/src/validation.ts:37 | read back from the printed text, the keys of every object ascend by code units |
| `LocalCommands.ProjectCurrent` | apps/web/src/local-work.ts:247-260 | the loop over a copy of the confirmed state, equal to the fold `Project`, whose steps `CommandRules` pins down |
| `CommandRules.AcceptedExactlyWhen` | apps/web/src/local-work.ts:230-253 | one more command is accepted exactly when its format is known and, for offline work, no branch is at work, it names a remaining target in the versions that are current, and the step fits: a heading finds no activity, an arrival a heading at its attempt, a full or partial result an arrival there, a no-answer any activity there, a refusal none elsewhere, and results are allowed by the target |
| `CommandRules.RefusedExactlyWhen` | apps/web/src/local-work.ts:230-251 | each refusal arises exactly for its own reason |
| `CommandRules.AcceptedMoves` | apps/web/src/local-work.ts:253-258 | a command of another page changes nothing; offline work counts up once and sets the activity, its arrival, or takes the attempt off the targets, which keep their order |
| `ExecutionOrder.ResultsFollowArrival` | apps/web/src/local-work.ts:234-257 | a full or partial result stands directly behind the arrival at the same attempt, and that behind the heading for it, unless they already stand in the confirmed state |
| `ExecutionOrder.OneResultEach` | apps/web/src/local-work.ts:231-257 | no attempt receives two results |
| `ExecutionOrder.RevisionCounts` | apps/web/src/local-work.ts:248-257 | the revision grows by the number of offline commands; owner, driver, plan and branch activity stay |
| `ExecutionOrder.OneStopAtATime` | apps/web/src/local-work.ts:235-257 | between two headings the first stop receives its result |
| `ExecutionOrder.EverythingWasAllowed` | apps/web/src/local-work.ts:231-243 | every command is about a confirmed target in the confirmed version, and every result is one that the target allows |
| `ExecutionOrder.TargetsLeft` | apps/web/src/local-work.ts:257 | the remaining targets are exactly those without a recorded result |
| `LocalStore.LocalStore.SelectAccount` | apps/web/src/local-work.ts:43-57 | refuses while an exit is under way, for an ended session, and for another account; otherwise opens the account |
| `LocalStore.LocalStore.AssertSelected` | apps/web/src/local-work.ts:63-67 | available exactly for the selected, non-exiting, unblocked account |
| `LocalStore.LocalStore.Block` | apps/web/src/local-work.ts:68-73 | blocks the selected account only |
| `LocalStore.LocalStore.UnreceivedWork` | apps/web/src/local-work.ts:76-86 | exactly the actions and overlays of the account without received evidence |
| `LocalStore.LocalStore.Prepare` | apps/web/src/local-work.ts:87-97 | seals the exit unless something is unreceived |
| `LocalStore.LocalStore.Finish` | apps/web/src/local-work.ts:98-104 | ends only the exit that was prepared for this account |
| `LocalStore.LocalStore.Save` | apps/web/src/local-work.ts:106-129 | admits owned rounds that are not older than the stored copy, and drops exactly the covered overlays |
| `LocalStore.LocalStore.ShowPreview` | apps/web/src/local-work.ts:143-156 | the overlays of the round in order, leaving out what a refused predecessor holds back, projected over the confirmed state |
| `LocalStore.LocalStore.CaptureLocked` | apps/web/src/local-work.ts:165-200 | all refusals in order, and otherwise counter, action and overlay together; an id that is already stored is accepted exactly for the same bytes and refused as changed content otherwise, and what a success returns has the given bytes or was absent before and is recorded from the given envelope |
| `JournalRules.ReusedId` | apps/web/src/local-work.ts:171-175 | for an id that is already stored the capture succeeds exactly for the stored bytes, fails as changed content otherwise, and changes nothing either way |
| `JournalRules.CaptureTurnsAway` | apps/web/src/local-work.ts:168-170 | an account that is not open, an envelope of another account or phone, and an unknown format are refused in this order |
| `JournalRules.CaptureMustWait` | apps/web/src/local-work.ts:177-183 | work that waits, a round that is not downloaded for this generation, and other waiting actions have their own refusals |
| `JournalRules.FreshCaptureExactlyWhen` | apps/web/src/local-work.ts:176-199 | a new action is stored exactly when it continues what the phone shows of its round, or nothing waits outside the continuation, and its sequence is safe and free |
| `JournalRules.CaptureStores` | apps/web/src/local-work.ts:184-199 | the action with its own text, its overlay and the raised counter, and nothing else |
| `JournalRules.OverlaysInOrder` | apps/web/src/local-work.ts:139-142 | the overlays of an account by sequence, and by id where sequences are equal |
| `JournalRules.ReadExactlyWhen` | apps/web/src/action-reader.ts:5-17 | a stored action can be read exactly when its format is known and its text spells the envelope |
| `JournalRules.SelectExactlyWhen` | apps/web/src/local-work.ts:43-58 | an account opens exactly when no exit is under way, its session has not ended and no other account is selected; the error tells whether that one still has unreceived work |
| `JournalRules.BlockMeans` | apps/web/src/local-work.ts:68-73 | blocking shuts the selected account, and only it |
| `JournalRules.PrepareExactlyWhen` | apps/web/src/local-work.ts:87-97 | an exit is sealed exactly when every action and overlay of the account has its evidence received; the account is then blocked and its session ended |
| `JournalRules.FinishExactlyWhen` | apps/web/src/local-work.ts:98-104 | an exit finishes exactly when it is the one that was sealed |
| `JournalRules.DownloadExactlyWhen` | apps/web/src/local-work.ts:106-127 | a download is taken in exactly when the account is open, the started round is its own on this phone and nothing newer is stored; it replaces the stored copy and the accepted overlays that its revision shows |
| `JournalRules.RetireExactlyWhen` | apps/web/src/local-work.ts:216-225 | retiring drops the stored copy of the round and its overlays that have a receipt |
| `JournalRules.AcknowledgeExactlyWhen` | apps/web/src/local-work.ts:201-213 | a receipt is stored exactly when it is the server's for a recorded action and no other receipt of it is stored; only accepted offline work keeps its overlay |
| `LocalStore.LocalStore.StoreReceipt` | apps/web/src/local-work.ts:201-213 | stores a matching receipt once and drops the overlay of what is refused or no offline work |
| `LocalStore.LocalStore.Retire` | apps/web/src/local-work.ts:216-224 | drops the download and the received overlays of the round only |
| `LocalEvidence.StepKeepsInv` | apps/web/src/local-work.ts:43-224 | every transaction keeps the five clauses on actions, overlays, receipts, ownership and sequences |
| `LocalEvidence.AccountIsolation` | apps/web/src/local-work.ts:43-104 | after every run everything unreceived belongs to the one selected, non-exiting account |
| `LocalEvidence.ExitNeedsReceipts` | apps/web/src/local-work.ts:87-97 | an exit is refused exactly while the selected account has an action without a receipt |
| `LocalEvidence.EvidenceStays` | apps/web/src/local-work.ts:171-208 | no run changes the bytes of an action or a stored receipt |
| `LocalEvidence.NothingIsLost` | apps/web/src/local-work.ts:120-127 | every captured action keeps its bytes and always has its receipt or its overlay |
| `LocalEvidence.FreshCaptureIsLast` | apps/web/src/local-work.ts:176-197 | a fresh capture gets a sequence above all earlier ones and depends on the last pending action |
| `LocalEvidence.CapturedAsGiven` | apps/web/src/local-work.ts:184-194 | a stored action is the one recorded, with only sequence, predecessors without repetition and base versions filled in; an import is stored unchanged |
| `LocalEvidence.LastPendingIsLatest` | apps/web/src/local-work.ts:141 | the predecessor of a new capture is a pending action that no other comes after |
| `LocalEvidence.DownloadsNeverGoBack` | apps/web/src/local-work.ts:120-122 | over every run the stored copy of a round is never replaced by an older one until it is retired |
| `LocalEvidence.OverlayWaitsForCover` | apps/web/src/local-work.ts:123-127 | the overlay of accepted offline work stays, over every run, until a download covers its revision or its round is retired |
| `LocalEvidence.EndedSessionStaysOut` | apps/web/src/local-work.ts:50 | no select reopens the account with the session that ended, over any run |
| `LocalEvidence.UpdateChecksAgree` | apps/web/src/safe-update.ts:3-8 | the check in the page and the check in the worker agree on every journal |
| `PreviewValidity.OverlaySplits` | apps/web/src/local-work.ts:147-154 | what is held back is a suffix: everything from the first overlay with a refused predecessor on |
| `PreviewRuns.StepKeepsLive` | apps/web/src/local-work.ts:143-224 | every allowed transaction of any tab keeps the preview of the download valid |
| `PreviewRuns.PreviewNeverFails` | apps/web/src/local-work.ts:143-156 | for a fixed download the preview never fails, after any captures and receipts |
| `PreviewResults.CaptureExtendsPreview` | apps/web/src/local-work.ts:176-200 | a capture extends the preview by exactly its own step when nothing is held back, and otherwise leaves it as it is |
| `PreviewResults.UncheckedCapture` | apps/web/src/local-work.ts:183 | outside the continuation, for fresh captures and byte-preserving imports alike, the preview survives if and only if the action depends on a refused one, is no offline work, or fits the confirmed state |
| `PreviewResults.UncheckedCaptureCanFail` | apps/web/src/local-work.ts:183 | a concrete arrival without heading that is stored and breaks the preview |
| `AccountLifecycle.BindSession` | apps/web/src/account-lifecycle.ts:6-13 | a session of another account blocks the one in use; its own opens it |
| `AccountLifecycle.BindExactlyWhen` | apps/web/src/account-lifecycle.ts:6-13 | a session of another account blocks the one in use and opens nothing; one of the account itself opens it, unless it is being left or was left with this very session |
| `AccountLifecycle.ExitAccount` | apps/web/src/account-lifecycle.ts:24-34 | early check, seal, logout, finish, with other tabs active in between and the logout free to fail |
| `AccountLifecycle.ExitSeals` | apps/web/src/account-lifecycle.ts:21-23 | from the seal to the finish no tab captures, receives or selects anything, through any crash |
| `AccountLifecycle.ExitCanBeRetried` | apps/web/src/account-lifecycle.ts:23 | a sealed exit can always be completed |
| `AccountLifecycle.LeavingIsClean` | apps/web/src/account-lifecycle.ts:24-34 | leaving keeps all evidence, leaves nothing unreceived and closes the account to its ended session |
| `ReplayCoordinator.ReplayCoordinator.MustWait` | apps/web/src/replay.ts:49-59 | an action waits for a journal dependency without a receipt or an external one the server calls pending in this call; it need not wait only when every dependency has a receipt or the server said, in this call, that it is no longer pending |
| `ReplayCoordinator.ReplayCoordinator.Collect` | apps/web/src/replay.ts:44-61 | the first at most 50 ready actions, in order: nothing ready is left out before the last of a full batch, nor at all from one that is not full |
| `ReplayCoordinator.ReplayCoordinator.TakeResponse` | apps/web/src/replay.ts:64-77 | of an answer that is taken to the end every entry is for an action of the batch, no two are for the same, and each receipt matches its action and is in the journal; a foreign or repeated entry ends the run; the report counts what was received |
| `ReplayCoordinator.ReplayCoordinator.SendAll` | apps/web/src/replay.ts:41-79 | terminates; batches go forwards through the journal one after the other, no action is in two of them, and for each every dependency was received, or confirmed by the server while that batch was put together, before it was sent |
| `ReplayCoordinator.ReplayCoordinator.RunLocked` | apps/web/src/replay.ts:34-85 | nothing is sent, called or changed unless the account is the selected one, the session confirmed by the server is of this account, and neither an exit is under way nor the session ended, with the error of the first condition that fails; the run keeps all evidence whatever the server and other tabs do; every receipt of every answer is in the journal at the end, and the report counts exactly these; what remains was sent, or waits for something in the journal or called pending during the run; with a server that receives everything and lower-pointing dependencies nothing remains; a run that has begun ends with an error only because a call failed, an answer was not about what was sent, the account became unavailable, the journal refused a receipt, or the final refresh failed when nothing remains |
| `ReplayCoordinator.RemainingGotNone` | apps/web/src/replay.ts:64-83 | an action that was sent and still remains after a completed run got no receipt in the answer to its batch |
| `Replay.SentOnlyWhenFree` | apps/web/src/replay.ts:48-60 | a sent action had no receipt, and for whatever it depends on there was one, or it was not in the journal and the server said, while the batch was put together, that it was no longer pending |
| `ReplayCoordinator.TalliedMeans` | apps/web/src/replay.ts:73-74 | over all answers of a run every receipt counts once as received, and once for review if it is not accepted |
| `ReplayCoordinator.MessageMeans` | apps/web/src/replay.ts:75 | the message is that of the last entry without a receipt |
| `ReplayCoordinator.LastRoundMeans` | apps/web/src/replay.ts:24-29 | the actions handed on are the accepted ones of the round that the account's latest action belongs to |
| `ReplayCoordinator.ReplayCoordinator.BeforeStart` | apps/web/src/replay.ts:20-32 | a new start is handed on only with no action unreceived and no overlay, with exactly the accepted actions of the last round in journal order, and only under a session of this account; it is refused only for what ends the run or for work that remains |
| `ReplayCoordinator.NothingRemains` | apps/web/src/replay.ts:80-83 | after a run in which everything sent was received, lower-pointing dependencies leave nothing behind |
| `ReplayCoordinator.ObligingIsCooperative` | apps/web/src/replay.ts:62-77 | there are servers that receive everything, whatever session they confirm and however they decide |
| `ReplayCoordinator.OpenedIsEnterable` | apps/web/src/replay.ts:35-39 | an account that was just opened may be entered with the session that opened it |
| `Percentiles.RankCounts` | scripts/performance-accounting.ts:4 | the nearest-rank percentile is at most t exactly when at least the rounded-up fraction of the samples is |
| `Percentiles.RoundingIsHarmless` | scripts/performance-accounting.ts:4-10 | the literals .5, .95 and .99 and their products with the length are rounded, and yet the place looked at is the exact fraction of the samples, rounded up, for every array |
| `Percentiles.RankIsMonotone` | scripts/performance-accounting.ts:4 | sample-wise bounds carry over to percentiles although each list is sorted on its own |
| `Percentiles.ReportBrackets` | scripts/performance-accounting.ts:8-13 | every percentile of the real latencies lies between the two reported ones |
| `Percentiles.LowerBelowUpper` | scripts/performance-accounting.ts:10-13 | each reported lower percentile is at most the upper one |
| `Percentiles.SummaryDescribes` | scripts/performance-accounting.ts:3-18 | each named number is the smallest value that at least 50, 95 or 99 of every hundred of its latencies do not exceed |
| `Percentiles.BoundsAreTight` | scripts/performance-accounting.ts:8-9 | both bounds of a sample are latencies that fit the measurement, so none narrower would hold |
| `Percentiles.SamplesAreCounted` | scripts/performance-accounting.ts:6-7 | which samples count as attempted, as usable and as recovered, and how often |
| `Percentiles.CountsAddUp` | scripts/performance-accounting.ts:11-12 | attempted, completed, errors and timeouts belong together |
| `Percentiles.VerdictMeans` | scripts/performance-accounting.ts:11-15 | when the verdict is a separate condition, too few samples, or errors |
| `Percentiles.MetMeans` | scripts/performance-accounting.ts:11-14 | the target counts as met exactly for at least 100 healthy samples, all usable, of which at least 95 percent, rounded up, certainly stayed within it |
| `MonitoringRefresh.Controller.Refresh` | apps/web/src/monitoring-refresh.ts:61-67 | begins a request, replacing the one under way only when full |
| `MonitoringRefresh.Controller.Resume` | apps/web/src/monitoring-refresh.ts:68-85 | the end of a request: accepted, failed, aborted or superseded |
| `MonitoringRefresh.Controller.AcceptAnswer` | apps/web/src/monitoring-refresh.ts:86-98 | passes an older revision over, refuses an unchanged answer without the confirmed data, and otherwise shows the answer |
| `MonitoringRefresh.Controller.StartPolling` | apps/web/src/monitoring-refresh.ts:46-53 | a stopped controller starts with a full request; a running one stays as it is |
| `MonitoringRefresh.Controller.StopPolling` | apps/web/src/monitoring-refresh.ts:54-60 | stops timers and requests and moves to a new epoch |
| `MonitoringRefresh.Controller.Age` | apps/web/src/monitoring-refresh.ts:99-103 | turns the view stale or fresh by age |
| `MonitoringRefresh.RefreshExactlyWhen` | apps/web/src/monitoring-refresh.ts:61-67 | a request is begun unless the controller is stopped or, for the poll timer, one is under way |
| `MonitoringRefresh.ResponseMeans` | apps/web/src/monitoring-refresh.ts:68-98 | how the current request ends: passed over, shown, noted as failure or aborted, and the next poll set in every case |
| `MonitoringRefresh.WaitDoubles` | apps/web/src/monitoring-refresh.ts:81 | the wait doubles with each failure up to ten seconds, and a success resets it |
| `MonitoringRefresh.StepKeepsInv` | apps/web/src/monitoring-refresh.ts:46-98 | of all unresolved requests only the current one is live; while running there is a request or a timer, never both |
| `MonitoringRefresh.SupersededIsInert` | apps/web/src/monitoring-refresh.ts:70-74 | a superseded or stopped request changes nothing whenever its response arrives |
| `MonitoringRefresh.ReplacingSupersedes` | apps/web/src/monitoring-refresh.ts:54-66 | a stop and a full refresh supersede every unresolved request |
| `MonitoringRefresh.OnlyTheCurrentCounts` | apps/web/src/monitoring-refresh.ts:70-80 | a response changes something only if it belongs to the current request of a running controller |
| `MonitoringRefresh.PollingGoesOn` | apps/web/src/monitoring-refresh.ts:78-84 | a running controller never stops polling |
| `MonitoringRefresh.RefreshIsMonotone` | apps/web/src/monitoring-refresh.ts:86-98 | over every run the shown revision never decreases while the scope key is unchanged |
| `MonitoringRefresh.ResponseLeavesPhase` | apps/web/src/monitoring-refresh.ts:68-98 | the response of the current request leaves the view refreshing or loading, with nothing under way, if and only if it was so before and the response is an abort or an older revision of the shown scope |
| `MonitoringRefresh.AgeEndsPhase` | apps/web/src/monitoring-refresh.ts:99-103 | the next age tick ends that exactly when something was shown before |
| `MonitoringRefresh.RefreshingWithoutRequest` | apps/web/src/monitoring-refresh.ts:86-98 | a run that ends refreshing with no request under way |

## Left out

- HTTP routes and clients, pages, browser storage persistence, drafts, the `active` and `downloaded` reads, message texts.
- Sessions, encryption, signatures, hashing and JSON Schema: opaque checks. The semantic rules of `eventIdentity` are part
  of the admission parameter and not modelled one by one.
- Wall-clock times: receipt and application times are parameters; back-off, leases and due dates are yes/no parameters.
  `capturedAt` and `savedAt` are not kept.
- The round-robin of `runReceiverWorkerOnce` over streams and dependencies; each of its steps is a modelled transaction.
- `sourceStatus` and `publicSourceStatus`, which only read.
- Numbers in canonical JSON are known by the text the language prints for them; `undefined` and non-finite numbers, which
  are no JSON, are not values of the model.
- The 32-bit width of the source lane's revision column and of the scope revision.
- SourceOrder.RecordOrder: speaks of first sends; `SourceSends` says when a repeated one can come late.
- ReceiverForks.OrderMattersExactly: is about continuations without a further snapshot, because adopting one can end the
  condition itself.
- PreviewRuns.PreviewNeverFails: is about a fixed download with fresh captures in the continuation and no offline work
  outside it, because byte-preserving imports keep their own sequence and dependencies and a newer download carries a
  server state that the phone cannot vouch for. Round ids are neither empty nor the word that a missing id prints as.
- LocalEvidence.EndedSessionStaysOut: covers the latest ended expiry only, because that is all the partition stores.
- ReplayCoordinator.ReplayCoordinator.RunLocked: one scan of the journal for the next batch is one step; other tabs act
  between scans, sends and receipts, not in the middle of a scan. What the final refresh downloads is not part of the run.
- Property order inside a captured envelope: an envelope and its text correspond one to one. Payload numbers given as
  strings are not modelled.
- LocalStore.LocalStore.CaptureLocked: the two unique indexes that a late insert can violate are checked before the
  writes instead of by rolling them back, which leaves the same journal.
- AccountLifecycle.BindSession: its read of the selection and the transaction that follows are one step.
- Percentiles.RankCounts: `p * N` is computed over the reals; `RoundingIsHarmless` shows for the fractions of the report
  that the rounded product leads to the same place. Differences of time stamps are real numbers. `maxClockUncertaintyMs` is
  left out.
- The listener calls, the query and the abort signal of the monitoring controller; an aborted fetch is one possible outcome of it.
- Activating the service worker and reloading the page after the update check.
