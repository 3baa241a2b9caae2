# Verification of the service-job backend

A Dafny model of the parts of the backend whose correctness rests on several files at once, with proofs about
every reachable state and every run. Each transaction that locks its row is one atomic step; uploads, stale reads
and the statements of a password change are separate steps that interleave with everything else.

## What is modelled

**The job workflow** (`JobCycle`, `JobModel`, `Workflow`, `Summaries`). A job is created, started, given a
checklist, worked step by step, stopped for STOP approvals, signed, closed, reopened, corrected and closed again.
The state holds the job row, the assigned template rules, step rows with attempt counters, approvals, measurements,
photos, signatures, per-cycle snapshots and the stored objects. Open blocking risks, the risk policy, the customer
and vehicle rows, the technician and the clock change freely from outside. A photo or signature upload is three
steps: register, put, finalize. `WorkflowInv` and `WorkflowEvidence` prove an invariant of every step and run.
`WorkflowRows`, `WorkflowMoves` and `WorkflowUploads` say, without naming a transaction's own function, when an event
changes a row of each table and into what; `WorkflowLaws` draws conclusions for runs. `WorkflowTheorems`, `WorkflowGate`,
`WorkflowHistory`, `WorkflowReview`, `WorkflowProgress`, `WorkflowFinish` and `WorkflowClosable` state what else follows:
`WorkflowClosable.ClosableExactly` says which jobs can still be closed. `WorkflowFrame` says which tables an event can
change. `JobStore` holds the same tables as fields of a class, updates them statement by statement with the loops of the
source, and proves every transaction equal to its transition. Its `Valid()` is reachability, kept by every transaction
(`WorkflowReached`), so each of these theorems holds of its tables.
The template, session, outbox and audit classes promise the same of theirs.

**The audit hash chain** (`Text`, `Canonical`, `AuditChain`, `AuditLog`). Both canonical serializers over JSON
values, the entry text, the append under the head-row lock with commits and rollbacks in any order, the paged
verifier and the head cross-check. SHA-256 is an arbitrary function from texts to 64-digit values, and results
read "equal, or here are two texts with one digest". The workflow is proved for every digest of summaries; for that
of the server two different summaries with one digest are two such texts (`Summaries.SameDigestCollides`).

**Session families** (`Sessions`, `SessionLaws`). Login, rotation after a stale read, replay revocation, logout and password
change, with the locked transactions split into their statements. A request reads without a lock and writes later; a log
of answers, which no table keeps, records what it is served. Stored times are whole seconds.

**Checklist templates** (`Templates`, `TemplateLaws`, `TemplateStore`). Versions, ordered steps, the copy and renumbering loops,
publication, archiving, deletion, and the references jobs hold.

**Smaller cores**: evidence reconciliation (`Reconcile`) and its worker pool (`MapPool`), the leased SMS outbox
(`SmsOutbox`, `SmsLaws`) with workers that may be slow or die at any moment, the fixed-window limiter (`RateLimit`) and the image header walk (`Jpeg`).

## What the code does differently from what it says

- The range check of a measurement rounds the double product `v * 1000` (ties up), the DECIMAL(12,3) column the decimal
  itself (ties away from zero). A value accepted on a bound can so be stored just beyond it, and the gate then refuses
  the finished checklist: -0.0005 against a minimum of 0, 4.0005 against a maximum of 4. The exact condition on the two
  roundings is `WorkflowGate.AcceptedValueReadsBack`; values of at most three decimal places never fall into it.
- After `redoStep` an ordinary step needs fresh evidence to be completed, yet the gate, the object check and the
  signed summary keep looking at its first attempt (`WorkflowTheorems.RelevantIsCurrent`). If that attempt loses
  evidence the job can never be closed again (`WorkflowHistory.OrdinaryFailureIsFinal`). An approved STOP step cannot be
  redone before the first completion, so lost evidence strands the job there too (`WorkflowClosable.ClosableExactly`).
- Template steps may require up to 20 photos while an attempt holds at most 10: such a step can never be completed.
- From QUALITY_REVIEW the only way out is `confirmQuality`, and nothing can be signed there: once a listed photo or the
  signature is lost, the job stays in that status for ever. `WorkflowReview.ReviewCompletesExactly` is the exact condition.
- A JSON payload does not survive storage as hashed if it has an undefined property or is itself a text that parses
  as JSON (`AuditLog.SurvivesExactly`). Audit rows numbered 0 are never read by the verifier, and a repeated row right
  after a full page is not seen either (`AuditChain.ZeroRowsAreNeverRead`, `AuditChain.DuplicateHiddenExactly`).
- A request that read a session row before it was revoked or superseded, and then loses the rotation, is served on that
  row however late its write runs (`Sessions.DeadTokenServesOnlyEarlierReads`).
- A delivery that outlives its lease, or whose worker dies during the provider call, is sent again without an attempt
  being counted, so `max_attempts` bounds the sends of undisturbed rows only (`SmsOutbox.SendsAreBounded`); a late answer
  rewrites a terminal row (`SmsOutbox.TerminalExactly`).
- The JPEG walk takes the two bytes behind a TEM marker or a fill byte for a segment length. It refuses the file if that
  length leads to its end or beyond, as it does right before the frame header of a file under 48 kilobytes; otherwise it
  goes on where it landed and may or may not find the frame (`Jpeg.MisreadOutcome`, `Jpeg.MisreadRecovers`).
- A lossless WebP file shorter than 30 bytes is refused though its header takes 25 (`Jpeg.WebpInspection`).

## Model

| member | source | states |
|---|---|---|
| `WorkflowTheorems.AttemptLedger` | src/modules/checklist/stop.service.ts:126-131 | In every reachable state a STOP step has exactly one approval for each earlier attempt, decided, and one for the current attempt exactly when it is not pending, with the matching decision; no other approval exists |
| `WorkflowTheorems.RelevantIsCurrent` | src/modules/jobs/completion.service.ts:139-149 | The attempt the gate, the object check and the summary look at is 1 for every ordinary step, and for a done step it is the current attempt exactly if the step is a STOP or was never redone |
| `WorkflowTheorems.WorkflowCoherence` | src/modules/checklist/stop.service.ts:82-108 | The job waits for a STOP exactly when one step waits and exactly when one undecided approval refers to a waiting step on its attempt; it is REJECTED exactly when one step is; completed_at is set exactly when all steps are done; in cycle 1 the done steps come first |
| `WorkflowTheorems.ConsistencyErrorsUnreachable` | src/modules/checklist/stop.service.ts:92-105 | No transaction ever raises NO_PENDING_STOP, STOP_STEP_STATE_INVALID, NO_REJECTED_STEP or NO_CHECKLIST from a reachable state |
| `WorkflowTheorems.ReopenCycleAgrees` | src/modules/jobs/job-cycle.ts:16-25 | In every reachable workable, waiting or rejected state the test on the two whole-second timestamps holds exactly when the cycle is above 1 |
| `WorkflowTheorems.NeverInProgressAgain` | src/modules/jobs/job-cycle.ts:28-30 | After a completion no run of transactions brings the job back to DRAFT, IN_PROGRESS or CANCELLED |
| `WorkflowEvidence.StepKeeps` | src/modules/checklist/execution.service.ts:339-561 | Every transaction, upload step and outside change keeps the whole workflow invariant |
| `WorkflowEvidence.RunKeeps` | src/modules/jobs/completion.service.ts:585-773 | So does every run, of any length and interleaving |
| `WorkflowInv.CompleteKeeps` | src/modules/checklist/execution.service.ts:368-561 | Completing a step, ordinary or STOP, keeps the invariant: coherence, ledger, evidence and done prefix |
| `WorkflowInv.ApproveKeeps` | src/modules/checklist/stop.service.ts:111-164 | Approving the pending STOP keeps the invariant |
| `WorkflowInv.RejectKeeps` | src/modules/checklist/stop.service.ts:229-275 | Rejecting the pending STOP keeps the invariant |
| `WorkflowInv.ReworkKeeps` | src/modules/checklist/stop.service.ts:174-226 | Reworking a rejected STOP keeps the invariant |
| `WorkflowInv.RedoKeeps` | src/modules/checklist/execution.service.ts:571-627 | Redoing a step in a reopened cycle keeps the invariant |
| `WorkflowInv.PendingStopIsThere` | src/modules/checklist/stop.service.ts:92-107 | Whenever the job waits for a STOP, lockPendingStop finds an undecided approval on the current attempt of a waiting step |
| `WorkflowEvidence.CloseKeeps` | src/modules/jobs/completion.service.ts:599-651 | Closing keeps the invariant: the snapshot list grows by the current cycle, citing the accepted signature |
| `WorkflowEvidence.ReopenKeeps` | src/modules/jobs/completion.service.ts:666-718 | Reopening keeps the invariant while it advances the cycle and supersedes the READY signatures |
| `WorkflowGate.WholeThousandthsAreExact` | src/modules/checklist/execution.service.ts:335-337 | A whole number of thousandths that fits the column is accepted and stored as itself, whatever the double product of the multiplication is |
| `WorkflowGate.ClearValueReadsBack` | src/modules/checklist/execution.service.ts:335-337 | So is every value that is not within a thousandth of a thousandth of a tie: the thousandths of the range check and of the column agree |
| `WorkflowGate.AcceptedValueReadsBack` | src/modules/jobs/completion.service.ts:192-197 | A value accepted at submission is out of range when read back if and only if the accepted thousandths are the minimum and the column holds one less, or they are the maximum and the column holds one more, for every double product within its rounding error |
| `WorkflowGate.StepMeasurementGate` | src/modules/jobs/completion.service.ts:180-203 | For a step submitted on its relevant attempt the measurement test of the gate fails exactly if a required value was rounded out of its range at the minimum or at the maximum |
| `WorkflowGate.StepPhotoGate` | src/modules/jobs/completion.service.ts:154-168 | For such a step enough photos were accepted, and the photo test fails exactly if more of them were lost since than the attempt had to spare |
| `WorkflowGate.FinishedChecklistGate` | src/modules/jobs/completion.service.ts:84-233 | A finished checklist is let through exactly if the photo and measurement tests pass, no risk is open and the cycle is signed; the photo test passes exactly if no step lost too many photos, the measurement test exactly if no value was rounded out |
| `WorkflowGate.MeasurementsAlwaysPass` | src/modules/checklist/execution.service.ts:423-470 | Over every run whose submitted values are clear of ties, as all decimals of at most three places are, the measurement test of a finished checklist passes |
| `WorkflowGate.OneValueGate` | src/modules/checklist/execution.service.ts:433-457 | For any required rule and any value its check accepts and its column can hold, a one-step job finishes its checklist, and the gate passes it exactly if the value was not rounded out |
| `WorkflowGate.TieBlocksCompletion` | src/modules/checklist/execution.service.ts:433-457 | Both ways it happens: -0.0005 against a minimum of 0, stored as -0.001, and 4.0005 against a maximum of 4, whose product is 4000.4999999999995 and which is stored as 4.001 |
| `WorkflowGate.TooManyRequiredPhotos` | src/modules/photos/photos.service.ts:147-154 | A step that requires more than 10 photos stays pending on attempt 1 in every reachable state, so its job is never completed |
| `WorkflowProgress.SubmittableExactly` | src/modules/checklist/execution.service.ts:392-408 | When it is the turn of a pending step and its input would be taken, some run submits the attempt if and only if the step requires at most 10 photos, whatever uploads are under way |
| `WorkflowHistory.EvidenceFreezes` | src/modules/photos/photos.service.ts:198-242 | From any reachable state, once a step has left PENDING on an attempt, no run makes a photo of that step and attempt READY that was not READY before, or changes its hash or size |
| `WorkflowHistory.EvidenceLimits` | src/modules/photos/photos.service.ts:147-154 | A step and attempt never has more than 10 PENDING or READY photos, and every READY photo was stored at its recorded size |
| `WorkflowHistory.ObjectCheckPasses` | src/modules/jobs/completion.service.ts:256-303 | No transaction deletes an object that counted evidence relies on: the completion-time object check holds in every reachable state |
| `WorkflowHistory.OrdinaryFailureIsFinal` | src/modules/jobs/completion.service.ts:139-168 | An ordinary step that was submitted once and fails the gate fails it for ever: no further cycle of the job is ever closed |
| `WorkflowClosable.ClosableExactly` | src/modules/jobs/completion.service.ts:585-651 | A job that is being worked on, in whatever state, can get one more snapshot if and only if no step is stuck: every step is feasible (at most 10 photos, a storable value for each required rule), no ordinary step fails the gate on its submitted first attempt, and no STOP step fails it once approved in the first cycle |
| `WorkflowClosable.CanClose` | src/modules/jobs/completion.service.ts:385-651 | The run that closes it: pending STOPs rejected and reworked, steps supplied, submitted, approved or redone in order, the job signed, closed and confirmed |
| `WorkflowClosable.HopelessRun` | src/modules/jobs/completion.service.ts:139-203 | With a stuck step no run adds a snapshot |
| `WorkflowFinish.FinishStep` | src/modules/checklist/execution.service.ts:339-627 | Any step that is not stuck and whose turn it is can be finished so that it passes the gate, without a change to any other step |
| `WorkflowReview.ReviewCompletesExactly` | src/modules/jobs/completion.service.ts:726-773 | A job in QUALITY_REVIEW can be completed if and only if the cycle has a READY signature, the photo and measurement tests pass and the steps, evidence, values and stops on record are those that were signed: then five events complete it, otherwise every run leaves it in QUALITY_REVIEW, unless it exhibits two different summaries with one digest |
| `WorkflowReview.LossStrandsTheReview` | src/modules/jobs/completion.service.ts:538-545 | Losing any photo the summary lists, even a spare one, or the READY signature, makes the review impossible to complete |
| `WorkflowReview.LeavingReview` | src/modules/jobs/completion.service.ts:739-772 | Every run that leaves QUALITY_REVIEW does so by a confirmation that finds nothing to refuse, on rows in which evidence and signatures only shrank |
| `WorkflowHistory.SignedEqualsFrozen` | src/modules/jobs/completion.service.ts:552-571 | At most one live signature per cycle; snapshots exactly for cycles 1..cycle of a completed job and 1..cycle-1 otherwise; each cites a signature of its cycle with equal digest and hash, and freezes the summary that was signed, or two different summaries with one digest are exhibited |
| `WorkflowHistory.ClosingFreezesTheWork` | src/modules/jobs/completion.service.ts:599-651 | A job becomes COMPLETED only with all steps done, no open risk, an approved policy and a READY signature over the rows as they are; the new snapshot is exactly those rows |
| `WorkflowHistory.FrozenForever` | src/modules/jobs/completion.service.ts:552-555 | Over every run, snapshots are only appended and a signature never changes what it is over |
| `WorkflowHistory.SnapshotsAreFinished` | src/modules/jobs/completion.service.ts:84-233 | Every snapshot of every reachable state freezes finished work: all steps done, at least the required photos listed for each step, no blocking risk open |
| `WorkflowRows.AcceptedExactly` | src/modules/checklist/execution.service.ts:371-480 | A submission is accepted if and only if work goes on, the step waits, every earlier step is done, the READY photos of the attempt suffice, every value names a rule of the step, every required rule has one, and each value that counts lies in its range when rounded up at ties and fits its column when rounded away from zero |
| `WorkflowRows.ClosesExactly` | src/modules/jobs/completion.service.ts:84-233 | Closing is refused nothing if and only if every step is done, has its READY photos and in-range values on its judged attempt, no risk is open, the policy is approved and a READY signature of the cycle covers the summary of the rows |
| `WorkflowRows.SummaryIsTrue` | src/modules/completion/summary.service.ts:47-116 | In every reachable state the summary describes the rows field by field, with the judged attempt of every step |
| `WorkflowMoves.JobRowMoves` | src/modules/jobs/completion.service.ts:585-773 | The job row under any event: the status diagram with the exact condition of every edge and no other edge, the cycle, the closing and reopening times, the technician, and the installation field by field |
| `WorkflowMoves.ChecklistRowsMove` | src/modules/checklist/execution.service.ts:339-627 | Every step row under any event, and the checklist over it: stamped with the time its last open step is done, unstamped when one is opened again, its rules never changed |
| `WorkflowMoves.ApprovalRowsMove` | src/modules/checklist/stop.service.ts:82-275 | The approvals under any event: one more for a submitted STOP step, on its attempt, and a decision for the undecided one |
| `WorkflowMoves.MeasurementRowsMove` | src/modules/checklist/execution.service.ts:423-480 | The stored values under any event: a submission adds exactly the values of its request, the last for each rule, each under its rule and attempt |
| `WorkflowUploads.PhotoRowsMove` | src/modules/photos/photos.service.ts:120-251 | Every photo row under any event: registered on the attempt of a waiting step with at most nine live ones, READY exactly if the step still waits on that attempt when the stored object is finalized |
| `WorkflowUploads.SignatureRowsMove` | src/modules/jobs/completion.service.ts:387-534 | Every signature row under any event: registered over the rows as they are, READY exactly if work goes on in its cycle, superseded by a later one of its cycle or by reopening |
| `WorkflowUploads.RegistersExactly` | src/modules/jobs/completion.service.ts:387-425 | Which answer the first signature transaction gives, for each of its refusals and for success, if and only if |
| `WorkflowUploads.SnapshotRowsMove` | src/modules/jobs/completion.service.ts:552-571 | The snapshots under any event: one more exactly when a cycle is finished, over the rows as they are, citing the READY signature that covers them |
| `WorkflowUploads.ObjectsMove` | src/modules/photos/photos.service.ts:185-251 | Each stored object under any event: written by its upload, deleted exactly if its row did not become READY with it |
| `WorkflowLaws.CompletedBy` | src/modules/jobs/completion.service.ts:599-773 | A job becomes COMPLETED by closing it in the first cycle and by confirming its review in any later one, never otherwise |
| `WorkflowLaws.ReviewIsEntered` | src/modules/jobs/completion.service.ts:617-631 | The review is entered by closing a reopened job, exactly if nothing stands against closing, and nothing but the status changes |
| `WorkflowLaws.LaterCyclesAreConfirmed` | src/modules/jobs/completion.service.ts:726-773 | Every run from an open later cycle that freezes a snapshot confirms a quality review on the way |
| `WorkflowLaws.ShownIsSigned` | src/modules/jobs/completion.service.ts:398-404 | A signature registered with a displayed digest carries that digest and covers the rows of that moment, in every later state of every run |
| `WorkflowLaws.SignedAndFrozenAreTrue` | src/modules/completion/summary.service.ts:126-183 | What a registered signature is over and what a new snapshot freezes describe the rows of that moment |
| `WorkflowLaws.RefusedForCause` | src/modules/jobs/completion.service.ts:585-773 | From a reachable state a transaction is refused only for a rule of the system it breaks, and its error names that rule |
| `Summaries.EvidenceIs` | src/modules/completion/summary.service.ts:69-72 | The evidence of a step in the summary is exactly what the gate counts: its READY photos of the attempt, each once, by id, with hash and size |
| `Summaries.MeasuredIs` | src/modules/completion/summary.service.ts:73-76 | Its values are exactly those stored for the attempt, ordered by rule |
| `Summaries.StopsAre` | src/modules/completion/summary.service.ts:91-93 | The approvals are all there, each once, ordered by step and attempt |
| `Summaries.SummaryTextInjective` | src/modules/completion/summary.service.ts:100-115 | The canonical text of a summary determines the whole summary |
| `Summaries.ScalarsAreNamed` | src/modules/completion/summary.service.ts:100-115 | Each scalar of the summary stands in the digested text under its own name |
| `Summaries.ListsAreNamed` | src/modules/completion/summary.service.ts:100-115 | So do its steps, its STOP decisions and its open risks |
| `Summaries.StepsAreNamed` | src/modules/completion/summary.service.ts:77-90 | So does each field of a step, its order counted from one |
| `Summaries.SameDigestCollides` | src/modules/completion/summary.service.ts:100-115 | Under the digest of the server, the hash of the canonical text, two different summaries with one digest are two different texts with one hash |
| `Canonical.CanonicalizeInjective` | src/modules/audit/audit-chain.ts:32-40 | Two valid JSON values have one canonical text if and only if they are equal up to object key order |
| `Canonical.StringifyInjective` | src/modules/completion/canonical.ts:18-31 | The same for the digest serializer, up to properties whose value is undefined |
| `Canonical.SerializersAgree` | src/modules/completion/canonical.ts:27-28 | On values without undefined properties both serializers produce the same text |
| `Canonical.PrintUnique` | src/modules/audit/audit-chain.ts:33-39 | A printed value is determined by any text it starts, whatever follows: escapes and unterminated numerals included |
| `Canonical.QuoteUnique` | src/modules/audit/audit-chain.ts:35 | A quoted string is determined by any text it starts |
| `Text.DecimalTextInjective` | src/modules/completion/summary.service.ts:87 | The text of a DECIMAL(12,3) value determines the value |
| `JobStore.JobStore.constructor` | src/modules/jobs/jobs.service.ts:251-300 | createJob: a DRAFT job of cycle 1 without checklist or evidence; from here on every transaction promises tables that some run leads to |
| `WorkflowReached.Reached` | src/modules/jobs/completion.service.ts:585-773 | An event, committed or refused, leads from a reachable state to a reachable state: with it every theorem on reachable states holds of the class |
| `JobStore.JobStore.PatchInstallation` | src/modules/jobs/jobs.service.ts:358-407 | Each field the patch names takes the value the patch gives for it, each other field keeps its own |
| `JobStore.JobStore.Assign` | src/modules/checklist/execution.service.ts:267-326 | The insert loop creates one PENDING row on attempt 1 for each step, or an error leaves everything unchanged |
| `JobStore.JobStore.Validate` | src/modules/checklist/execution.service.ts:429-459 | The validation loop fails no rule exactly if every rule is met, and then stores one row for each rule that received a value |
| `JobStore.JobStore.StoreMeasurements` | src/modules/checklist/execution.service.ts:472-480 | The inserts succeed exactly if every value fits its column; otherwise none remains |
| `JobStore.JobStore.CheckStep` | src/modules/checklist/execution.service.ts:371-470 | The checks before the first write, in the order of the code: its error is the error of the transition |
| `JobStore.JobStore.Complete` | src/modules/checklist/execution.service.ts:339-561 | Succeeds exactly if the rows allow the submission, and equals the complete-step transition: measurements, step, approval, job and checklist |
| `JobStore.JobStore.Redo` | src/modules/checklist/execution.service.ts:571-627 | Succeeds exactly in REOPENED for a done step, which then waits on its next attempt, and the checklist loses its stamp |
| `JobStore.JobStore.Approve` | src/modules/checklist/stop.service.ts:111-142 | Succeeds exactly while the job waits: the undecided approval and its step take the decision, nothing else in either table, and the job goes back to IN_PROGRESS in the first cycle and to REOPENED in a later one |
| `JobStore.JobStore.Reject` | src/modules/checklist/stop.service.ts:229-243 | The same for the rejection, after which the job stands REJECTED |
| `JobStore.JobStore.Rework` | src/modules/checklist/stop.service.ts:174-204 | Succeeds exactly while the job stands REJECTED: the rejected step waits on its next attempt and the job goes back to where its cycle works |
| `JobStore.JobStore.FindPendingStop` | src/modules/checklist/stop.service.ts:82-108 | While the job waits it finds the one undecided approval, whose step waits on that very attempt; otherwise it reports that the job does not wait, and nothing else |
| `JobStore.JobStore.StartUpload` | src/modules/photos/photos.service.ts:120-183 | First upload transaction: equals the register transition |
| `JobStore.JobStore.FinishUpload` | src/modules/photos/photos.service.ts:198-251 | Second upload transaction: READY only while the step still waits on the registered attempt, else FAILED and the object deleted |
| `JobStore.JobStore.RelevantAttempts` | src/modules/completion/summary.service.ts:32-38 | The map built from rows in descending attempt order gives, for every step, the highest approved-or-pending attempt, or 1 |
| `JobStore.JobStore.ValidateCompletion` | src/modules/jobs/completion.service.ts:84-233 | Each condition flag equals its test, and the reasons are empty exactly if the job can complete |
| `JobStore.JobStore.MissingPhotos` | src/modules/jobs/completion.service.ts:154-168 | One reason for exactly the steps that fail the photo test |
| `JobStore.JobStore.InvalidMeasurements` | src/modules/jobs/completion.service.ts:180-203 | No reason exactly if every step passes the measurement test |
| `JobStore.JobStore.EvidenceTargets` | src/modules/jobs/completion.service.ts:256-285 | The objects looked at are exactly those behind the photos the gate counts and the newest accepted signature |
| `JobStore.JobStore.EvidenceObjectsOk` | src/modules/jobs/completion.service.ts:287-303 | The object check succeeds exactly if every such object is there at its recorded size |
| `JobStore.JobStore.CollectMaterial` | src/modules/completion/summary.service.ts:47-116 | The summary describes the rows: every scalar is that of its row, each step shows its newest approved-or-pending attempt, the READY photos and the stored values of that attempt and no others, and every STOP approval once; in every reachable state the attempt is the current one of a done STOP step and the first of any ordinary step |
| `JobStore.JobStore.StartSignature` | src/modules/jobs/completion.service.ts:387-453 | While work goes on with every step done: SUMMARY_STALE exactly if a digest was displayed and is not that of the rows; SIGNATURE_EXISTS exactly if not stale and a live signature is under way or over the rows as they are; otherwise one more signature over the rows, with the displayed digest, and the live one superseded, no other |
| `JobStore.JobStore.FinishSignature` | src/modules/jobs/completion.service.ts:467-497 | Second signature transaction: READY only while the job is workable in the same cycle |
| `JobStore.JobStore.CheckClosing` | src/modules/jobs/completion.service.ts:538-545 | The checks both closing transactions repeat under the lock, in their order |
| `JobStore.JobStore.TakeSnapshot` | src/modules/jobs/completion.service.ts:552-571 | At most one snapshot per cycle, built from the rows as they are |
| `JobStore.JobStore.CloseTx` | src/modules/jobs/completion.service.ts:599-651 | Succeeds exactly from IN_PROGRESS or REOPENED when nothing stands against closing; a reopened job then goes to QUALITY_REVIEW without a snapshot, any other becomes COMPLETED now with one snapshot more, which describes its rows; equals the close transition |
| `JobStore.JobStore.Confirm` | src/modules/jobs/completion.service.ts:739-773 | Succeeds exactly from QUALITY_REVIEW when nothing stands against closing, and then completes the job now with one snapshot more, which describes its rows |
| `JobStore.JobStore.Reopen` | src/modules/jobs/completion.service.ts:666-718 | Succeeds exactly for a completed job: the next cycle, the time, and every READY signature of the cycle that ended superseded, no other |
| `AuditChain.BuildCanonicalInjective` | src/modules/audit/audit-chain.ts:66-82 | The text hashed for an entry determines every hashed field, payloads up to key order |
| `AuditChain.BuildCanonicalRespects` | src/modules/audit/audit-chain.ts:66-82 | Entries that agree in every field have one text, so key reordering by the database does not break the chain |
| `AuditChain.PagedIsLinked` | src/modules/audit/audit-verify.ts:60-106 | For any rows in order and any page size the paged walk accepts exactly if the rows it sees form an intact chain |
| `AuditChain.VerifyPage` | src/modules/audit/audit-verify.ts:72-102 | The row loop returns the verdict of its page and the link to go on with |
| `AuditChain.VerifyChain` | src/modules/audit/audit-verify.ts:60-106 | The page loop stops at the first visible row that breaks the chain or accepts, for every page size; with distinct numbers every row above 0 is visible |
| `AuditChain.PageSizeIrrelevant` | src/modules/audit/audit-verify.ts:65-104 | With distinct sequence numbers the paged verdict equals that of one pass, for every page size |
| `AuditChain.PagingSeesVisible` | src/modules/audit/audit-verify.ts:65-104 | For any rows in order, paging equals one pass over the rows that are not behind a full page with the same last number |
| `AuditChain.DuplicateHiddenExactly` | src/modules/audit/audit-verify.ts:65-71 | A row put into an intact chain behind row k with number k goes unnoticed if and only if k is a multiple of the page size |
| `AuditChain.ZeroRowsAreNeverRead` | src/modules/audit/audit-verify.ts:64-71 | Rows numbered 0 in front of a table change nothing the verifier reads |
| `AuditChain.VerdictIsLinked` | src/modules/audit/audit-verify.ts:60-106 | One pass accepts exactly the chains whose numbers, links and hashes all fit |
| `AuditChain.SameHeadSameHistory` | src/modules/audit/audit-chain.ts:88-95 | Two intact chains with one head hash have equal length and agree in every hashed field, or two different hashed texts of theirs with one digest are found |
| `AuditChain.AcceptedSameHead` | src/modules/audit/audit-verify.ts:60-106 | So do any two tables the paged verifier accepts, each with its own page size, among the rows it reads |
| `AuditLog.SurvivesExactly` | src/modules/audit/audit.service.ts:170-171 | A payload reads back as it was hashed exactly if it has no undefined property and is not itself a text that parses as JSON |
| `AuditLog.AppendedRowHash` | src/modules/audit/audit.service.ts:151-182 | The appended row passes the hash test exactly if its payloads survive storage or two texts collide |
| `AuditLog.CommittedChainsAccepted` | src/modules/audit/audit.service.ts:132-183 | However appends interleave, commit or roll back, every committed chain is accepted and its head matches, if the payloads survive |
| `AuditLog.VerifyAuditChains` | src/modules/audit/audit-verify.ts:108-142 | The whole verification succeeds exactly if every chain is linked and every head row names the last entry; the mismatch list holds exactly the other heads |
| `AuditLog.CommittedLogVerifiesExactly` | src/modules/audit/audit-verify.ts:108-142 | In every run each committed row comes from an append, numbers are used once and heads match; and a chain verifies if and only if for each of its rows the payloads survive, or two texts with one digest are exhibited |
| `AuditLog.RowsMoveExactly` | src/modules/audit/audit.service.ts:124-183 | Over every reachable state and event: an append adds one row that carries its entry to the rows of its own transaction unless another transaction holds the chain, a commit puts the rows of its transaction behind the committed ones, a rollback drops them, and no other row moves |
| `AuditLog.CommittedAppendIsKept` | src/modules/audit/audit.service.ts:124-183 | Every append that does not wait and whose transaction commits next has its row, at its place, among the committed rows of every later state, whatever happens before, between and after |
| `AuditLog.RolledBackAppendIsGone` | src/modules/audit/audit.service.ts:124-183 | If the transaction rolls back instead, the committed rows are those from before and no row of the chain is under way |
| `AuditLog.AuditStore.AppendChained` | src/modules/audit/audit.service.ts:132-183 | Waits exactly while another transaction holds uncommitted rows of the chain, and otherwise adds one row that carries the entry to those of its own transaction; no committed row and no other chain changes |
| `Sessions.FamilyIsOneChain` | src/modules/auth/session.service.ts:108-180 | However stale reads, rotations, logouts and password changes interleave, a family is one chain: sequence 0..n, each row superseded by the next, only the last not, one absolute expiry, all revoked or none |
| `Sessions.RevokedFamilyStaysDead` | src/modules/auth/session.service.ts:194-196 | After one row of a family is revoked, every row it ever has is revoked |
| `Sessions.RotationHappensOnce` | src/modules/auth/session.service.ts:157-180 | Of any number of racing requests one makes the successor: over every run a rotated row points to the same row, which alone follows it in the family, and no later rotation of it writes anything |
| `Sessions.DeadTokenServesOnlyEarlierReads` | src/modules/auth/session.service.ts:108-149 | Once a token is revoked, expired or past its grace period no read of it is served again; and over every run the requests still served on it are exactly those that had read it before and whose write runs later, lost rotations included |
| `Sessions.ServedWasGoodWhenRead` | src/modules/auth/session.service.ts:108-149 | Every answer ever given was for a row that was good when it was read, to the second; it was given on that row or on its one successor, and within the cap counted from the login |
| `Sessions.ReplayDoomsTheFamily` | src/modules/auth/session.service.ts:124-128 | After a replay or a logout, in every later state the revocation of the family is under way or every row of it is revoked |
| `Sessions.LiveSessionsUseTheCurrentPassword` | src/modules/auth/auth.service.ts:260-316 | Except between the hash update and the revocation of one password change, every live session was created under the current password of its user |
| `Sessions.SessionStore.ResolveToken` | src/modules/auth/session.service.ts:108-149 | On the row as it is read: not good, nothing; good but rotated out longer ago than the grace period, one revocation on the way and no answer; good otherwise, an answer at once or exactly one write to make, a rotation if and only if the row is current and older than the rotation period, a touch if and only if it is current, not due and idle for over a minute |
| `Sessions.SessionStore.Write` | src/modules/auth/session.service.ts:127-149 | The write of a pending request at whatever later time; unless it was a replay the request is answered, on the successor if it won and on its old row if it lost |
| `Sessions.SessionStore.InsertSession` | src/modules/auth/session.service.ts:70-93 | A new family: the row is its own root, with the cap of the kind of login |
| `Sessions.SessionStore.RotateSession` | src/modules/auth/session.service.ts:157-180 | Inserts the successor and marks the current row, or changes nothing if the row is superseded or revoked |
| `Sessions.SessionStore.Login` | src/modules/auth/auth.service.ts:76-124 | Succeeds exactly with the right password on a usable account, and then adds one row that starts a family: the long cap with rememberMe and the short one without it |
| `Sessions.SessionStore.ChangePassword` | src/modules/auth/auth.service.ts:249-316 | Succeeds exactly on a usable account with the current password and a new one that differs; afterwards every earlier row of the user is revoked and one new login row has the short cap |
| `SessionLaws.ReadExactly` | src/modules/auth/session.service.ts:108-149 | What a read makes of any row: a revocation is on the way if and only if the row is good and past its grace period; every other good row is served, now or by the one write the read leaves |
| `SessionLaws.GoodTokenIsServed` | src/modules/auth/session.service.ts:117-148 | A request with a good token within its grace period is answered in every run, whatever other requests, rotations or revocations come between |
| `SessionLaws.RevokedForCause` | src/modules/auth/session.service.ts:124-196 | Over every run a live session is revoked only after a replay in its family, a logout from it or a password change of its user, unless a revocation was under way already |
| `SessionLaws.SessionRowsMove` | src/modules/auth/session.service.ts:70-196 | Every session row under any event: rotated, touched or revoked exactly by the write that names it, and every new row is a successor with the cap of its predecessor or a login with the cap of its kind |
| `SessionLaws.RequestRowsMove` | src/modules/auth/session.service.ts:127-196 | The requests under way and the answers under any other event than a read: a write that runs is answered, with the successor if it made one, and a logout puts a revocation on the way |
| `SessionLaws.UserRowsMove` | src/modules/auth/auth.service.ts:76-316 | The user rows under any event: which credentials start a transaction, and when the password changes to what |
| `Templates.StepOrdersAreOneToN` | src/modules/checklist/templates.service.ts:342-497 | In every reachable state the steps of every version have the orders 1..N, each once |
| `Templates.OneDraftOnePublished` | src/modules/checklist/templates.service.ts:503-573 | Two versions of a template never share a number, and never a status other than ARCHIVED |
| `Templates.PublishedNeverChanges` | src/modules/checklist/templates.service.ts:315-326 | A version out of DRAFT keeps its steps, rules, order and number over every run and is never deleted |
| `Templates.JobRulesNeverChange` | src/modules/checklist/execution.service.ts:287-312 | So the version a job was assigned never changes |
| `Templates.DefensiveErrorsUnreachable` | src/modules/checklist/templates.service.ts:661-678 | TEMPLATE_IN_USE is never raised, and a published version is never empty at assignment |
| `Templates.DeletableExactly` | src/modules/checklist/templates.service.ts:636-683 | A template can be deleted exactly while all its versions are drafts |
| `Templates.NewVersionCopies` | src/modules/checklist/templates.service.ts:256-296 | A new version holds the steps of the latest one, in the same order |
| `Templates.DeleteRelists` | src/modules/checklist/templates.service.ts:438-445 | Deleting a step and renumbering leaves exactly the other steps of the version, ordered 1..N, and no other version changed |
| `Templates.SwapRelists` | src/modules/checklist/templates.service.ts:476-481 | Moving a step keeps the orders 1..N and every other version |
| `TemplateStore.TemplateStore.CopySteps` | src/modules/checklist/templates.service.ts:271-295 | The copy loop appends one row for each step, with its order and content |
| `TemplateStore.TemplateStore.NewVersion` | src/modules/checklist/templates.service.ts:244-309 | Equals the create-version transition |
| `TemplateStore.TemplateStore.Delete` | src/modules/checklist/templates.service.ts:433-445 | The renumbering loop, which skips rows already in place, equals renumbering all of them |
| `TemplateStore.TemplateStore.DeleteTx` | src/modules/checklist/templates.service.ts:641-683 | Children first; succeeds for a live template exactly while all its versions are drafts, and never reports TEMPLATE_IN_USE |
| `TemplateStore.TemplateStore.AssignTx` | src/modules/checklist/execution.service.ts:287-312 | Succeeds exactly if the template has a published version; the loop inserts one execution row for each of its steps |
| `TemplateStore.TemplateStore.PublishTx` | src/modules/checklist/templates.service.ts:503-573 | Succeeds exactly for a draft with a step; the version ends PUBLISHED, the published one before it ARCHIVED, no other changes |
| `TemplateStore.TemplateStore.Move` | src/modules/checklist/templates.service.ts:463-497 | The step and the neighbour one place up, or one down, change places; at either end nothing changes |
| `TemplateLaws.VersionRowsMove` | src/modules/checklist/templates.service.ts:205-683 | Every version under any event: published, archived or deleted exactly when the transaction may, and every new one a draft with the next number |
| `TemplateLaws.StepRowsMove` | src/modules/checklist/templates.service.ts:244-497 | Every step under any event: what each edit changes; a deleted step closes its gap, a moved one changes places, a new version gets copies in order |
| `TemplateLaws.ReferencesMove` | src/modules/checklist/execution.service.ts:287-312 | The template names and the references of jobs under any event: a job takes the published version and one row for each of its steps in order |
| `Reconcile.DryRunChangesNothing` | src/modules/evidence/reconcile.service.ts:262-305 | A dry run changes no row and reports no transition |
| `Reconcile.SameFindings` | src/modules/evidence/reconcile.service.ts:269-291 | A dry run and an apply run report the same findings in the same order |
| `Reconcile.SecondRunChangesNothing` | src/modules/evidence/reconcile.service.ts:121-170 | A second apply run in the same mode changes nothing |
| `Reconcile.DeepRunIsRight` | src/modules/evidence/reconcile.service.ts:216-244 | After a deep apply run every READY row matches its object in size and recorded hash, or is reported as a storage error |
| `Reconcile.OnlyAllowedMoves` | src/modules/evidence/reconcile.service.ts:121-260 | An apply run gives every row exactly its fate: legacy evidence becomes READY if and only if its object, recorded hash and type match, READY evidence fails if and only if its object is gone or differs, pending evidence after fifteen minutes, a storage error changes nothing, FAILED evidence is never revived |
| `Reconcile.FindingsExactly` | src/modules/evidence/reconcile.service.ts:262-305 | A run, dry or not, reports a finding for exactly the rows something is wrong with |
| `Reconcile.EvidenceTable.Transition` | src/modules/evidence/reconcile.service.ts:121-170 | A transition fires only from the expected status |
| `Reconcile.EvidenceTable.Pass` | src/modules/evidence/reconcile.service.ts:271-288 | A pass visited in any order moves exactly the selected rows by their verdicts and keeps the order of records |
| `Reconcile.ReconcileEvidence` | src/modules/evidence/reconcile.service.ts:262-291 | Three passes over two tables: rows, records and findings |
| `MapPool.Run` | src/modules/evidence/reconcile.service.ts:87-100 | In every schedule each item is started once and in order, its result lands in its slot, and no more than the limit are in flight |
| `SmsOutbox.SendsAreBounded` | src/sms/sms.worker.ts:50-150 | In every interleaving, with workers dying at any moment and time passing any lease, the provider calls of a row are bounded by its attempts, the uncounted calls and those under way; and a row none of whose deliveries was overtaken or died in its call has at most one delivery, no uncounted call and at most max_attempts calls |
| `SmsOutbox.OvertakenIsSentAgain` | src/sms/sms.worker.ts:37-43 | From every reachable state in which a delivery is under way after its lease, three events send the row a second time beside it without an attempt |
| `SmsOutbox.DyingSendsRepeat` | src/sms/sms.worker.ts:37-43 | Workers that keep dying during the call send a row n times without one attempt, for every n the age of the message allows |
| `SmsOutbox.NoRowIsStuck` | src/sms/sms.worker.ts:37-43 | A row in PROCESSING has a lease, and once it is over recovery and a claim by any worker take the row over |
| `SmsOutbox.TerminalForever` | src/sms/sms.worker.ts:80-136 | A SENT, DELIVERED, FAILED or CANCELLED row that no worker holds never changes again |
| `SmsOutbox.TerminalExactly` | src/sms/sms.worker.ts:80-136 | A terminal row keeps its status in every run if and only if no worker still holds it, or those that do can only find it expired and it is CANCELLED: a late answer rewrites any other |
| `SmsOutbox.RetryDelayBounds` | src/sms/sms.worker.ts:31-34 | Every retry delay is between 4 and 360 seconds |
| `SmsOutbox.BackoffDoubles` | src/sms/sms.worker.ts:31-34 | Before jitter the delay doubles with each failed attempt until it stays at five minutes |
| `SmsOutbox.RetryWaits` | src/sms/sms.worker.ts:138-147 | A retried row waits 4 to 360 seconds, and nobody claims it before |
| `SmsOutbox.SupersededIsNeverSent` | src/sms/outbox.service.ts:69-93 | A new code cancels the queued codes of its recipient, and unless a worker holds such a row no run ever sends or changes it again; all other rows stay |
| `SmsOutbox.Outbox.RecoverStale` | src/sms/sms.worker.ts:37-43 | Afterwards every row in PROCESSING has a lease that still runs; only rows whose lease was over changed, to RETRY with their attempts kept |
| `SmsOutbox.Outbox.ClaimBatch` | src/sms/sms.worker.ts:50-78 | One conditional claim for each candidate, in order |
| `SmsOutbox.Outbox.BeginDelivery` | src/sms/sms.worker.ts:84-110 | Too old, undecipherable, or handed to the provider |
| `SmsOutbox.Outbox.ConcludeDelivery` | src/sms/sms.worker.ts:110-150 | What becomes of the row for each provider answer |
| `SmsOutbox.Outbox.EnqueueOtp` | src/sms/outbox.service.ts:69-94 | Cancels the queued rows of the recipient and inserts the new one |
| `SmsLaws.OutboxRowsMove` | src/sms/sms.worker.ts:37-150 | Every outbox row under any event: above all an ambiguous or permanent answer ends FAILED, and a retryable one is queued again, after its delay, exactly while attempts are left |
| `SmsLaws.DeliveryRowsMove` | src/sms/sms.worker.ts:50-150 | The deliveries under any event: taken by a claim as the row was read, over when the message is too old or undecipherable, when the provider has answered or when the worker dies |
| `RateLimit.AnyIntervalAdmitsTwiceTheLimit` | src/redis/redis.ts:180-194 | With a clock that does not go back, no closed interval of one window length admits more than twice the limit, whatever the key held before |
| `RateLimit.TwiceTheLimitIsReached` | src/redis/redis.ts:180-194 | For every window and limit that bound is reached; and all but one of these requests may fall within any shorter time across the end of the window, down to a millisecond |
| `RateLimit.WindowAdmitsFirst` | src/middleware/rate-limit.middleware.ts:104-111 | Within a window exactly the first limit requests are admitted |
| `RateLimit.RetryAfterIsEnough` | src/middleware/rate-limit.middleware.ts:67-74 | A client that waits as long as its rejection says opens a new window |
| `RateLimit.MemoryRedis.LiveEntry` | src/redis/redis.ts:166-174 | Deletes and hides exactly an entry at or past its expiry |
| `RateLimit.MemoryRedis.IncrWindow` | src/redis/redis.ts:180-194 | Opens a window, counts within it or repairs a missing expiry; no other key changes |
| `RateLimit.MemoryRedis.Limit` | src/middleware/rate-limit.middleware.ts:76-112 | Admit or reject by the counter; a skipped key or an unreachable store follows its rule |
| `Jpeg.JpegDimensions` | src/utils/image.ts:35-60 | Terminates on every buffer, reads only inside it, and computes the walk |
| `Jpeg.WalkFindsTheFrame` | src/utils/image.ts:35-60 | After SOI and any segments and standalone markers without TEM or fill bytes the result is exactly the width and height of the frame header (section B.2.2 of ITU-T T.81) |
| `Jpeg.MisreadOutcome` | src/utils/image.ts:43-57 | The first fill byte or TEM of any header sends the walk to the offset its next two bytes give as a length; the file is refused if that lies within ten bytes of its end or beyond, and otherwise the walk goes on there |
| `Jpeg.MisreadRecovers` | src/utils/image.ts:38-57 | If no byte 0xFF stands between that offset and the end of the items it lies in, and the later items are plain, the dimensions are right all the same |
| `Jpeg.FrameIsLost` | src/utils/image.ts:43-57 | A fill byte or TEM right before the frame header loses the frame: the file is refused unless 49162 bytes or more follow |
| `Jpeg.LongSegmentAbsorbs` | src/utils/image.ts:51-57 | A fill byte before a segment without 0xFF whose length reaches the misread one does no harm |
| `Jpeg.JpegInspection` | src/utils/image.ts:92-110 | A well-formed JPEG header is accepted with its own dimensions exactly if they are positive and within the bounds |
| `Jpeg.PngInspection` | src/utils/image.ts:29-33 | A PNG header of any width and height is read back as it was written, and accepted exactly if the dimensions are positive and within the bounds |
| `Jpeg.WebpInspection` | src/utils/image.ts:62-86 | So is a WebP header in each of the three formats, exactly if the file is at least 30 bytes long; a shorter lossless file is refused |
| `Jpeg.AcceptedIsBounded` | src/utils/image.ts:17-27 | Any accepted image starts as its type does and is within 12000 by 12000 and 25 million pixels |

## Left out

- Branch scope, roles and `canExecuteJob`: who may call a transaction is not modelled, only what it does.
- The status and gate checks `closeJob` and `confirmQuality` make before taking the lock: they are repeated under it.
- `risk.service` and the risk policy: the open blocking risks and the policy flag change freely, so a proof never relies on how STOP rejections raise or resolve risks.
- Snapshot content beyond the summary, its digest and the cited signature: risk rows, the closing user and assignment status are not part of the stored record here.
- A digest is compared as the code compares it; the summary behind a digest is kept beside each signature by the model only, and `Confirmable` compares summaries, which is the same up to two different summaries with one digest.
- Loss of stored objects: the storage itself never loses an object in the workflow model; losing one is the separate event that marks its row FAILED.
- Names, units, notes, timestamps and user ids of step, photo and approval rows, and all user-facing messages.
- Doubles: a submitted value is a decimal together with the double product `v * 1000`, which may be any number within a thousandth of the exact product (the two roundings together are smaller for every value that could fit its column); which of these numbers IEEE 754 picks is not part of this model. JSON numbers are their decimal texts.
- Text encoding: texts are sequences of characters; the UTF-8 step before hashing and lone surrogates are not part of this model, nor are Dates and non-finite numbers in payloads.
- The legacy rows without a chain id and the checkpoints of the audit log.
- Password reset by an administrator (`users.service` is not part of this model) and the rollback of a password change that fails midway.
- Session and outbox retention clean-up, cookies and CSRF tokens.
- Template names being unique up to case, and measurement definitions as rows of their own: they are part of their step.
- `mapPool` when an item throws: every item's function returns.
- Storage or rows that change while reconciliation is under way: it is modelled on fixed storage and a fixed clock.
- SMS: encryption of the body is a yes-or-no outcome, the provider an arbitrary answer, and the database and server clocks are one clock in seconds.
- The Redis server itself: only the in-memory store is modelled; other writers of a limiter key are covered by an arbitrary initial entry.
- Pixel data and everything behind the header of an image.
- Routes, validators, catalogues, GPS, metrics, migrations and listings, which hold no state machine.
