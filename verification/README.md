# async-gateway: a verified model

`async-gateway` accepts asynchronous tasks on behalf of callers, creates them at an
upstream, polls or receives callbacks until they end, and answers queries in the
upstream's own shape. Many workers, the accepting request itself, a scheduler, an
inspector, callbacks, client queries and administrators act on the same task row, and the
only thing that orders them is the conditional update of one row.

This project models that lifecycle, the pacing and quota arithmetic, and what callers
see, and proves what holds of them in every run and for every input.
`dafny verify dfyconfig.toml` checks all of it.

## How it is laid out

- `Wrappers`, `Reals`, `Text`, `Json`, `Dotted`: shared shapes, real and string operations,
  JSON documents with the reader and the writer that templates use on them, dotted names.
- `StateMachine`, `TaskRow`, `Errors`, `Templates`, `Deadline`: the transition table, one
  task row with every conditional write on it, the classification of upstream answers, the
  template fields the lifecycle reads, the deadline budget.
- `Protocol`: the lifecycle as a protocol of racing actors. A write, an upstream call and
  a load are one step each. An actor keeps the row it loaded, may act on it when it is
  stale, and may crash between any two steps; messages may be lost, duplicated or
  spurious. `Outcomes` says what each answer leaves of a row, in status codes, exceptions
  and declared values; `Creates`, `Cancels`, `Attempts`, `RowInvariants`, `UpstreamIds`,
  `FailedTasks`, `Waits`, `Transfers` and `Contract` prove what every run keeps.
- `Output`: the response to a query, and when the status a caller reads in it is right.
- `TaskStore`, `Handlers`, `Interleaving`: the same from the side of the program.
  `TaskStore` is the task table with the DAO methods, the inspector's sweeps and the
  dispatch loop; `Handlers` holds the handlers as programs over it, and shows that each
  step they take is a step that the protocol offers, with any other actor's rows in
  between; `Interleaving` makes one run out of the steps of any number of them.
- `Histogram`, `Polling`, `Limits`: percentiles, the poll interval with its rate-limit
  multiplier, the token bucket and the two-level slots.
- `Expression`, `Routing`, `Audit`, `Accept`, `CanonicalBody`, `TemplateChange`: the path
  language, paths rendered and routed, the hash chain, idempotent acceptance with its
  keys, template changes.

Methods stand where the source updates state or loops, each proved against a
specification function; the lemmas are about those functions.

## Where the code differs from what it says

- A task in status `failed` is promised another submission (docs/IMPLEMENTATION.md lines
  158-159, docs/async-gateway-architecture-v3.md line 78). `mark_submit_intent` accepts
  only `accepted`, so the handler that is sent to it always misses. `FailedNeverRecovers`
  proves that such a task can only be cancelled or declared dead.
- `attempts` can end one above `max_attempts` even when handlers never overlap, because
  the exhaustion test reads the row loaded before the increment, and one higher for each
  handler that overlaps: `OneOverTheLimit`, `OverTheLimit`.
- A submit handler checks for a cancel once more after the submission, to keep a cancelled
  task from running on (handlers.py lines 406-408). It looks at the row it loaded before
  the call, which in the background submitter never had one: `CheckNeverFires`. A cancel
  that overtakes the create ends the task without its id while the create executes:
  `CancelledButCreated`.
- A transfer that breaks is to be tried five times. The retry is scheduled with the attempt
  that broke instead of the next one, so every transfer is the first, and the limit is
  never reached: `AttemptsNeverCount`, `TransfersNeverGiveUp`.
- A task that is still running can be read as ended before any poll, when its create brings
  a declared end value: `ReadsAsEndedEarlyIff`.
- A crash between releasing an intent and noting the extension lets the deadline move by
  one more cap, any number of times: `DeadlineBoundIsTight`.
- A pool timeout, a proxy error or a request the client itself rejects has sent nothing,
  and still goes to confirmation: `RetriedOnlyIfNotExecuted` names these exceptions.
- One overdue `submit_unknown` or `failed` row makes `scan_deadlines` raise, and its whole
  batch is rolled back: `ScanDeadlines`. The "stay unknown" write of the compensation
  always raises: `StayingUnknownRaises`.
- The answer read back can disagree with the task: `ContractHoldsIff` gives the exact
  condition on a row, `KeepsContractIff` the one on a template. Validation accepts
  templates on which it fails, and each failure has a run:
  an index in the status path, or a rewrite value that is no declared failure
  (`UnsubmittedRun`); a value declared both a success and an expiry (`ConfusingRun`); a
  cancel at the upstream, with "cancelled" declared a failure (`StaleCancelRun`); a
  snapshot that is an array (`ArraySnapshotRun`).
- A write that is refused at an index step has already replaced what stood in its way, so
  what its path read is gone: `RefusedWriteDestroys`.
- With the same method for create and cancel, a rendered cancel path can be routed to the
  create branch: `CancelRoundTripIff`, `CancelCanCreate`.
- A template path whose id stands in the query part is accepted and rendered, but
  normalizing cuts the id off the pattern, and the request it rendered raises:
  `GetRoundTripIff`, `QueryParameterRaises`. A create path with a query part makes the
  derived cancel path reach create, or raise: `DerivedCancelIsSafeIff`,
  `DerivedCancelCanCreate`.
- Two confirmations on one task can leave the later one's id: `IdCanBeOverwritten`, and
  `IdIsWrittenOnceIff` for when they cannot. An empty id in a create answer is written and
  then counts as none: `EmptyIdReachesPoll`.
- Of the fields listed for review by two people, those that are objects escape it: a
  changed header or success value is a key below the listed name. `ReviewIff`,
  `SuccessValuesEscape` (docs/async-gateway-architecture-v3.md line 186).
- A case-insensitive field is compared that way only when its declared name has no capital
  letter: `FoldsIffLowerName`.
- A request body is read through dotted names even where its own keys hold dots. Two
  bodies that differ under such keys have one derived key and one digest, and the second
  request gets the first one's task: `CanonicalSameIff`, `DottedBodiesCollide`.
- An idempotency key is meant to be unique within a window, but windows are buckets: two
  requests any short time apart, with a window boundary between them, create two tasks.
  `SecondIsNewIff`.
- A bucket's label is its lower edge, where a comment of `_percentile` calls it the upper
  one, so that percentiles fall short of the samples by up to ten seconds:
  `QuantileNearSample`.
- A refused accept is told how long to wait; that wait is enough only from a rate of 0.001
  on and for a cost within the burst: `RetrySucceedsIff`.

## Model

| member | source | states |
|---|---|---|
| Creates.CreatesAreBounded | src/async_gateway/tasks/handlers.py:312-489 | over every interleaving of submitters, crashes, duplicates and repairs, creates that may have executed are at most one plus the verdicts of "not created" |
| Creates.CreateBoundIsTight | src/async_gateway/tasks/handlers.py:867-878 | where a confirmation can reach a verdict, for every number of such verdicts there is a run that reaches the bound |
| Creates.UnconfirmedCreatesOnce | src/async_gateway/tasks/handlers.py:844-924 | where it cannot, that is unless tasks are confirmed by client key and have one, at most one create may have executed |
| Creates.OnlyVerdictsReopen | src/async_gateway/tasks/handlers.py:867-878 | the only step of any actor that brings a task from unknown back to accepted is a verdict of "not created" |
| Creates.ReopeningsWereDenied | src/async_gateway/tasks/handlers.py:835-929 | in every run each reopening goes back to a query by client key that the same confirmation made, about a row that was unknown for less than its lifetime, had no id and was not being cancelled, and that was answered 404, 400, or 2xx with an object whose id is empty |
| Creates.DenialReopens | src/async_gateway/tasks/handlers.py:867-878 | and with such an answer in hand, and no other, a confirmation reopens a row that is still unknown, with its intent free and due at once |
| Creates.TokensAreConserved | src/async_gateway/db/dao.py:160-205 | no act of any actor yields more free or held intents than it took, except a verdict; a create that may have executed uses one up |
| Cancels.CancelStopsCreates | src/async_gateway/tasks/handlers.py:288-291 | in every run, the creates that may execute after a cancel was requested number at most the handlers that were then on their way to one; no later handler or reopening adds any |
| Cancels.CancelIsFinal | src/async_gateway/tasks/handlers.py:808-817 | with no handler on its way, none executes any more |
| Cancels.OvertakenCreate | src/async_gateway/gateway/routes.py:294-298 | a run that reaches the bound: an inline submitter overtaken by the cancel |
| Cancels.CheckNeverFires | src/async_gateway/tasks/handlers.py:406-408 | in every run the row a background submitter holds for its check after the submission shows no cancel |
| Cancels.CancelledButCreated | src/async_gateway/tasks/handlers.py:952-959 | a run, for every template, that ends with the task cancelled, without an upstream id, and its create executed |
| Outcomes.BeforeCreate | src/async_gateway/tasks/handlers.py:281-315 | a submit handler looks at the deadline first, then at the cancel, the credential and the slot, and takes the intent only then |
| Outcomes.CreateAnswered | src/async_gateway/tasks/handlers.py:358-412 | a create answered 2xx: submitted under the id it shows, or to be confirmed when it shows none |
| Outcomes.CreateRefused | src/async_gateway/tasks/handlers.py:414-470 | any other code: 429, 401 and 403 free the intent and refund the attempt, other 4xx but 409 end the task, the rest is to be confirmed |
| Outcomes.CreateBroken | src/async_gateway/tasks/handlers.py:347-489 | no answer: only a connection that was never made is tried again, while attempts are left; everything else is to be confirmed |
| Outcomes.BeforePoll | src/async_gateway/tasks/handlers.py:509-548 | a poll looks at the deadline first, then at the pause, the id and the slot |
| Outcomes.PollReportsEnd | src/async_gateway/tasks/handlers.py:674-721 | a poll that reports a declared value ends the task accordingly, a success before an expiry before a failure, which is retried while attempts are left; the raw status and the snapshot are kept |
| Outcomes.PollReportsProgress | src/async_gateway/tasks/handlers.py:630-672 | any other value keeps the task polled, with status and snapshot noted, and none at all makes it unrecognized |
| Outcomes.PollRefused | src/async_gateway/tasks/handlers.py:565-628 | the third 404 in a row and any 409 send the task to confirmation with its id; every other 4xx or 5xx leaves its status, snapshot and attempts alone |
| Outcomes.PollBroken | src/async_gateway/tasks/handlers.py:565-628 | a poll without an answer changes no status, and a refused target is the end |
| Outcomes.BeforeConfirm | src/async_gateway/tasks/handlers.py:807-858 | a confirmation looks at the cancel first, then at the id, then at the lifetime and the strategy, and asks only then |
| Outcomes.AfterConfirm | src/async_gateway/tasks/handlers.py:859-929 | 404 and 400 free the intent of the task, a 2xx object submits it under the id it shows, anything else raises and changes nothing |
| Outcomes.BeforeCancel | src/async_gateway/tasks/handlers.py:939-960 | a task with an upstream task is cancelled there first, an accepted one without is cancelled at once, any other keeps its status |
| Outcomes.AfterCancel | src/async_gateway/tasks/handlers.py:969-982 | 2xx, 404 and 409 count as cancelled; anything else keeps the task as it is, with a later try |
| Outcomes.CallbackReportsEnd | src/async_gateway/gateway/routes.py:443-500 | a callback with a declared value ends the task where callbacks are the primary source, and elsewhere only brings the next poll forward |
| Outcomes.CallbackIsNoted | src/async_gateway/gateway/routes.py:430-442 | any other callback is noted and changes neither status nor schedule |
| Outcomes.TransferEnds | src/async_gateway/tasks/handlers.py:1047-1073 | a fetched result lands, a refused one is given up, a broken one at the fifth attempt |
| Transfers.AttemptsNeverCount | src/async_gateway/tasks/handlers.py:1050-1056 | in every run every transfer is the first attempt, and so is what the row records |
| Transfers.BrokenFetchIsRetried | src/async_gateway/tasks/handlers.py:1047-1056 | so in every run a broken fetch leaves the row waiting for another transfer |
| Transfers.TransfersNeverGiveUp | src/async_gateway/workers/inspector.py:173-183 | for every template that can show success and result side by side and every number there is a run with that many broken fetches whose task still waits for the first attempt |
| Errors.RetriedOnlyIfNotExecuted | src/async_gateway/domain/errors.py:68-183 | a failed create hands its intent back only when it certainly did not execute; for status codes also whenever it did not, for exceptions with four named ones left over |
| TaskRow.WritesFollowWhitelist | src/async_gateway/db/dao.py:207-242 | whatever write with whatever arguments, a status changes only along a whitelisted edge |
| TaskRow.AdvanceRaisesIff | src/async_gateway/db/dao.py:226-231 | an explicit source raises whatever the row holds, exactly when one of the sources has no edge to the target |
| TaskRow.StayingUnknownRaises | src/async_gateway/tasks/handlers.py:879-885 | the compensation's "stay unknown" write always raises |
| TaskRow.WritesOwnColumns | src/async_gateway/db/dao.py:137-158 | which writes can change which columns, and by how much: attempts, deadline, id, raw status and snapshot, result, status, intent, time of update |
| StateMachine.TerminalNeverFlips | src/async_gateway/domain/state_machine.py:29-46 | on a whitelisted history an ended task stays ended, up to closing an unconfirmed death, and the three-valued answer is constant |
| RowInvariants.RunsWalkTheWhitelist | src/async_gateway/db/dao.py:137-158 | the status history of every run is such a history |
| RowInvariants.VerdictIsFrozen | src/async_gateway/domain/state_machine.py:105-112 | once a task has ended, its status, raw status, snapshot and upstream id never change again in any run |
| RowInvariants.RowInvHolds | src/async_gateway/db/dao.py:232-242 | in every reachable state unknown rows know since when, ended rows and only they have an end time, only live or succeeded rows are scheduled, and rows past submission have an upstream id |
| RowInvariants.ActorsAreSafe | src/async_gateway/tasks/handlers.py:655-734 | every write any actor issues, however stale its row, sets the columns that the target status promises |
| FailedTasks.FailedNeverRecovers | src/async_gateway/tasks/handlers.py:270-319 | along every run a failed task stays failed, is cancelled or dies; it is never submitted again |
| FailedTasks.FailedStep | src/async_gateway/domain/state_machine.py:36-38 | no act of any actor takes the edges from failed to submitted or unknown |
| UpstreamIds.PollsHaveIds | src/async_gateway/tasks/handlers.py:531-539 | in every run in which no empty id was written, rows past submission have an id and no poll finds its row without one |
| UpstreamIds.EmptyIdReachesPoll | src/async_gateway/tasks/handlers.py:359-386 | for every template and an upstream that answers with an empty id there is a run in which a poll starts on a row without one |
| UpstreamIds.PollsAlwaysHaveIdsIff | src/async_gateway/tasks/handlers.py:531-539 | so that all runs of a template are free of such polls exactly when ids are those of tasks that the upstream made |
| UpstreamIds.IdIsWrittenOnceIff | src/async_gateway/db/dao.py:175-205 | in all runs without a verdict of "not created" an id once written is the id for good, exactly when the upstream names only tasks it made, no confirmation can reach a verdict, or the id is looked for in an array, which confirmations do not read |
| UpstreamIds.IdIsWrittenOnce | src/async_gateway/db/dao.py:357-391 | the first half: with such an upstream, because only one create executed |
| UpstreamIds.UnconfirmedIdIsWrittenOnce | src/async_gateway/tasks/handlers.py:822-832 | the second half, where no confirmation can reach a verdict, whatever the upstream reports: a confirmation can only write back the id it loaded |
| UpstreamIds.UnnamedIdIsWrittenOnce | src/async_gateway/tasks/handlers.py:916-919 | the same wherever confirmations cannot name ids |
| UpstreamIds.IdsAreRead | src/async_gateway/tasks/handlers.py:359-386 | whenever the id column changes in a run, the new id is the text at the id path of a 2xx create answer, or of a 2xx object that answered a confirmation and is not empty there, or was loaded from the column |
| UpstreamIds.IdCanBeOverwritten | src/async_gateway/tasks/handlers.py:859-866 | otherwise there is a run in which two confirmations leave the second one's id on a submitted task |
| UpstreamIds.AcceptedRowsHaveNoId | src/async_gateway/tasks/handlers.py:859-866 | without such a verdict no accepted row carries an upstream id, whatever the upstream reports |
| Attempts.AttemptsAreBounded | src/async_gateway/tasks/handlers.py:471-489 | without such a verdict and with at most k submit handlers at a time, attempts stay between zero and the limit plus k |
| Attempts.OneOverTheLimit | src/async_gateway/tasks/handlers.py:474-482 | for every limit there is a run without overlap that ends one above it |
| Attempts.OverTheLimit | src/async_gateway/tasks/handlers.py:474-482 | the bound is reached for every limit from one on and every overlap k: k handlers that loaded the row at one below the limit are refused in turn, and one more starts |
| Attempts.ZeroLimitAllowsOne | src/async_gateway/tasks/handlers.py:474-482 | with a limit of zero there is never more than one attempt, whatever overlaps |
| Attempts.SettledNeverDecreases | src/async_gateway/db/dao.py:51-63 | between two moments with the row accepted, the attempts not in flight never go down |
| Attempts.RefundIsExact | src/async_gateway/tasks/handlers.py:417-447 | a 429, 401 or 403 puts the count back exactly where it was before its intent |
| Deadline.DeadlineIsSaturatedSum | src/async_gateway/tasks/handlers.py:58-67 | when no note is lost the budget moves by the waits, at most the cap, and the record says by how much |
| Deadline.LostNotesWidenTheCap | src/async_gateway/tasks/handlers.py:114-126 | each lost note can add at most one more cap, and the record itself stays within the cap |
| Deadline.LostNotesReachTheBound | src/async_gateway/tasks/handlers.py:114-126 | any number n of lost notes and one kept one reach n + 1 caps |
| Deadline.CapsAreMultiples | src/async_gateway/tasks/handlers.py:58-67 | n caps are n times the cap |
| Waits.ReleaseIsWait | src/async_gateway/tasks/handlers.py:85-126 | the release and the note that the protocol offers change the deadline columns as one wait of the budget, noted or not |
| Waits.RunIsBudget | src/async_gateway/tasks/handlers.py:85-126 | in every run with one submit handler at a time and no verdict of "not created", crashes at any point included, the two deadline columns are those of the budget after the waits served |
| Waits.DeadlineColumnIsExact | src/async_gateway/db/dao.py:723-745 | if none of its notes is lost, the deadline is at every moment of the run the original plus the waits, at most the cap, and an accepted row with no note pending records that total |
| Waits.NoCrashNoLoss | src/async_gateway/tasks/handlers.py:114-126 | in the model, with one DAO call a step, a note is lost only to a crash before it |
| Waits.DeadlineColumnIsBounded | src/async_gateway/db/dao.py:723-745 | otherwise the deadline never moves by more than one cap and one for each lost note |
| Waits.DeadlineBoundIsTight | src/async_gateway/tasks/handlers.py:108-126 | for every number of such crashes there is a run that reaches this |
| Output.BuildNativeQueryResponse | src/async_gateway/gateway/output.py:187-253 | the step-by-step rewrite of the snapshot computes the specified response |
| Output.ShownExactly | src/async_gateway/gateway/output.py:187-253 | for every template and row, the status a response reads as is a function of the columns and the paths, whatever its writes replace or destroy; what that function is on each kind of row is stated below without it |
| Output.PendingReadsQueued | src/async_gateway/gateway/output.py:148-184 | a task that has not ended and has no upstream status yet reads as exactly "queued" |
| Output.RunningShowsSnapshot | src/async_gateway/gateway/output.py:187-253 | one whose snapshot shows a status is answered with the snapshot, unchanged |
| Output.RunningReadsRaw | src/async_gateway/gateway/output.py:184-222 | one whose snapshot shows its raw status, or none, reads as that raw status |
| Output.SuccessReads | src/async_gateway/gateway/output.py:168-171 | a success reads as the upstream's own success value, or as the first declared one |
| Output.FailureReadsAs | src/async_gateway/gateway/output.py:172-179 | any other end, unless the upstream reported it, reads as the rewrite value, or without one as the first declared failure |
| Output.ResultReads | src/async_gateway/gateway/output.py:224-235 | the result field of a stored success holds the link, or null with a hint beside it |
| Output.PassedThroughResultReads | src/async_gateway/gateway/output.py:236-236 | a result that is passed through stays where the upstream put it |
| Output.FailureFieldsRead | src/async_gateway/gateway/output.py:237-253 | a task that ended otherwise shows no stored result, and its error field gives its own message, or without one the declared code |
| Output.ContractHoldsIff | src/async_gateway/gateway/output.py:157-184 | for every template that validation accepts, the status read back agrees with an ended task exactly when the snapshot is an object, a status that has to be written has a path without index, no other field is written over it, the value standing for a failure reads as one, and no stale cancel status is in it; an array agrees exactly when it shows the right status itself |
| Output.CoherentContractIff | src/async_gateway/gateway/output.py:157-184 | with a writable status and coherent values, exactly when the snapshot is an object and no stale cancel status is in it |
| Output.ErrorOverStatus | src/async_gateway/gateway/output.py:237-246 | where the error path is the status path, exactly when the failure reason is a declared failure |
| Output.ResultOverStatus | src/async_gateway/gateway/output.py:226-231 | where the result path is, the result is read as the status |
| Contract.StaleCancelRun | src/async_gateway/tasks/handlers.py:963-978 | a run, for every template with a writable status that can cancel and declares "cancelled" a failure: polled while running, then cancelled upstream, the task reads as still running |
| Contract.ArraySnapshotRun | src/async_gateway/tasks/handlers.py:762-788 | a run, for every template with a writable status: a poll answered by an array is kept as the snapshot, and the closed task shows no status |
| Contract.UnsubmittedRun | src/async_gateway/gateway/output.py:47-68 | a run, for every template: a task that times out before it is submitted is read back as a failure exactly when the status path has no index, the rewrite value is a failure and no success, and the error is not written over the status |
| Contract.ConfusingRun | src/async_gateway/templates/validator.py:173-190 | a run, for every value declared both a success and an expiry that a create can bring: the task times out and is read back as a success |
| Contract.ApartMeansCanBring | src/async_gateway/tasks/handlers.py:359-386 | any value can be brought where id and status are read at places apart |
| Contract.KeepsContractIff | src/async_gateway/gateway/output.py:157-184 | a template keeps the contract on object snapshots in all its runs exactly when its status can be written, its rewrite value is a failure and no success, it cannot cancel or does not declare "cancelled" a failure, and no value that a create can bring is both a success and an expiry |
| Contract.OutputContract | src/async_gateway/tasks/handlers.py:674-734 | in every run an ended task is read back as it ended under the exact condition of ContractHoldsIff |
| Contract.CoherentOutputContract | src/async_gateway/tasks/handlers.py:674-734 | with a writable status and coherent values, if and only if its snapshot is an object and no stale cancel status is in it |
| Contract.UnendedReads | src/async_gateway/gateway/output.py:180-184 | in every run a task that has not ended reads as its raw status, or as "queued" before it has one |
| Contract.UndeclaredReadsAsRunning | src/async_gateway/gateway/output.py:148-184 | so it is read neither as a success nor as a failure while that value is not declared one |
| Contract.ReadsAsEndedEarlyIff | src/async_gateway/tasks/handlers.py:363-386 | some run of a template has a running task read as ended, exactly if "queued" is declared an end or a create can bring a value that is |
| Contract.AnswersNeverFlip | src/async_gateway/gateway/output.py:142-154 | two queries at any two moments after the end read back the same status |
| Json.TryExtract | src/async_gateway/templates/expression.py:113-152 | the walk with a current node finds a value exactly where the path has one |
| Json.IndexReads | src/async_gateway/templates/expression.py:113-152 | an element is read by its place from the front or, with a negative index, from the end, and no other index reads anything |
| Json.WriteThenRead | src/async_gateway/gateway/output.py:47-68 | a completed write is what a read at its path yields |
| Json.WriteTwice | src/async_gateway/gateway/output.py:47-68 | of two writes at one path the second wins |
| Json.WriteFrame | src/async_gateway/gateway/output.py:57-65 | a read that parts from the written path where both are key steps sees no difference, except through a node that the write replaced |
| Json.WriteWhatIsThere | src/async_gateway/gateway/output.py:47-68 | writing back what is read changes nothing |
| Json.TouchedRead | src/async_gateway/gateway/output.py:57-68 | what a write, completed or refused, leaves at every path it reaches: the value, an object on the way to it, or nothing |
| Json.RefusedWriteDestroys | src/async_gateway/gateway/output.py:57-68 | a write refused at an index leaves nothing to read at its path |
| Templates.SnapshotReads | src/async_gateway/tasks/handlers.py:724-734 | the snapshot of a poll shows the status as text, and everything else as the body has it |
| Templates.RestoredReads | src/async_gateway/tasks/handlers.py:737-759 | the result is put back as it came where there is one, and nothing else changes |
| TaskStore.Store.MarkSubmitIntent | src/async_gateway/db/dao.py:160-173 | the table afterwards is the specified one, and the answer says whether the intent was free |
| TaskStore.Store.MarkSubmitted | src/async_gateway/db/dao.py:175-205 | lands only on an accepted row with an intent |
| TaskStore.Store.Advance | src/async_gateway/db/dao.py:207-242 | raises exactly when a source has no edge to the target, and otherwise writes exactly when the row has one of the sources |
| TaskStore.Store.ReleaseSubmitIntent | src/async_gateway/db/dao.py:692-736 | clears the intent, refunds without going below zero and moves the deadline as asked |
| TaskStore.Store.RelocateCompensate | src/async_gateway/db/dao.py:357-391 | an advance from unknown with the columns of a confirmation |
| TaskStore.Store.LeaseDispatch | src/async_gateway/db/dao.py:669-689 | leases only a row that is still due |
| TaskStore.Store.Select | src/async_gateway/db/dao.py:394-490 | a limited scan returns distinct qualifying rows, and all of them when they fit |
| TaskStore.Store.ScanDeadlines | src/async_gateway/workers/inspector.py:77-96 | times out every overdue active row, up to 200, and touches no other, or, exactly when one of those it read waits for confirmation or has failed, changes nothing at all |
| TaskStore.Store.ScanAcceptedStalls | src/async_gateway/workers/inspector.py:47-74 | every stalled accepted row, up to 200: without an intent it is queued for submission unchanged, with one it goes to confirmation and is queued for that; nothing else changes |
| TaskStore.Store.BoundUnknowns | src/async_gateway/workers/inspector.py:99-135 | one tick with at most 200 rows past their lifetime leaves no row unknown that long, closes only unknown rows and never raises; where all unknown rows are on one channel, due and within their lifetime, it leaves exactly as many as the cap allows |
| TaskStore.Store.CapVictims | src/async_gateway/workers/inspector.py:108-118 | rows are added only from channels over their cap, and for a single such channel with all due rows its own, as many as it is over |
| TaskStore.Store.CountUnknownByChannel | src/async_gateway/db/dao.py:462-472 | each channel's count is the number of its unknown rows |
| TaskStore.Store.ReconcileOrphans | src/async_gateway/workers/inspector.py:155-170 | every submitted row that nothing has touched for too long, up to 200, goes to confirmation with its id and is queued for it; nothing else changes |
| TaskStore.OrphanKeepsId | src/async_gateway/db/dao.py:794-817 | such a row keeps its upstream id, and the next dispatch would confirm it too |
| TaskStore.Store.DispatchPendingTransfers | src/async_gateway/workers/inspector.py:173-183 | every due succeeded row without a result, up to 100, is sent to a transfer with the attempt it records |
| TaskStore.Store.SetResultRef | src/async_gateway/db/dao.py:264-283 | lands once, on a succeeded row without a result |
| TaskStore.Store.DispatchDue | src/async_gateway/workers/scheduler.py:70-93 | every due active row without a held intent, up to the batch, is leased for at least a second and sent: submitted, running and unrecognized rows to a poll, unknown ones to confirmation, failed and intent-free accepted ones to submission, none anywhere else; no other row changes |
| TaskStore.LeaseHolds | src/async_gateway/db/dao.py:678-689 | a leased row is not due again before the lease ends |
| TaskStore.StallSplits | src/async_gateway/workers/inspector.py:54-69 | of a stalled row, submission is queued exactly when it has no intent, confirmation exactly when it now waits for it |
| TaskStore.DeadlineCloses | src/async_gateway/workers/inspector.py:83-91 | an overdue row raises exactly when it waits for confirmation or has failed, and otherwise times out |
| TaskStore.BoundedUnknowns | src/async_gateway/workers/inspector.py:119-135 | closing all rows past the lifetime, and any other unknown ones, leaves none past it |
| TaskStore.SweepKeepsRowInv | src/async_gateway/workers/inspector.py:47-183 | every sweep, and the dispatch, keeps the invariants of every row |
| Handlers.Worker.Send | src/async_gateway/tasks/handlers.py:134-136 | the call by name has the effect of the write it names |
| Handlers.Worker.SubmitUpstream | src/async_gateway/tasks/handlers.py:270-344 | each step is one the protocol offers to a submit handler, whatever rows other actors leave in between |
| Handlers.Worker.HandleSubmitResult | src/async_gateway/tasks/handlers.py:347-489 | the same for every outcome of the create |
| Handlers.Worker.ReleaseForUpstreamWait | src/async_gateway/tasks/handlers.py:85-126 | the release and its note are the protocol's, with the same extension and deadline |
| Handlers.Worker.InlineSubmit | src/async_gateway/gateway/accept.py:188-255 | the same for the submitter inside the accepting request, which goes on with a reloaded row |
| Handlers.Worker.PollUpstream | src/async_gateway/tasks/handlers.py:495-553 | the same for a poll |
| Handlers.Worker.HandlePollResult | src/async_gateway/tasks/handlers.py:556-721 | the same for every answer to a poll |
| Handlers.Worker.CompensateOrphan | src/async_gateway/tasks/handlers.py:796-929 | the same for a confirmation, which carries the answer of its query |
| Handlers.Worker.CancelUpstream | src/async_gateway/tasks/handlers.py:933-982 | the same for a cancel |
| Handlers.Worker.StoreResult | src/async_gateway/tasks/handlers.py:1010-1078 | the same for a transfer |
| Handlers.Worker.ApplyCallback | src/async_gateway/gateway/routes.py:418-500 | the same for a callback |
| Handlers.Consume | src/async_gateway/tasks/handlers.py:1081-1099 | a message to any of the six handlers has no effect unless the row is in a status of its handler, and otherwise the handler runs as a thread that the protocol may start on that row, with whatever it finds around it |
| Handlers.FinalizeTask | src/async_gateway/tasks/handlers.py:988-1004 | writes no row, and queues a transfer exactly when one would write |
| Handlers.HopIsMove | src/async_gateway/tasks/handlers.py:129-136 | wherever a run stands with a handler's row and thread, the handler's next step is a move of that run |
| Handlers.AloneIsRun | src/async_gateway/tasks/handlers.py:270-344 | a handler that nobody interrupts is a run, from the row it met to the row it left |
| Interleaving.InterleavingIsRun | src/async_gateway/tasks/handlers.py:1081-1099 | however the steps of any number of handlers and of other actors are interleaved, the result is a run, in which each handler is where its steps brought it |
| Interleaving.WorkersCreateOnce | src/async_gateway/tasks/handlers.py:312-489 | so handler programs run side by side sent together at most one create that may have executed, plus one for each verdict of "not created" |
| Interleaving.WorkersFinish | src/async_gateway/tasks/handlers.py:129-136 | a handler whose steps are all taken stands in the run where its program ended |
| Handlers.DispatchedIsOwned | src/async_gateway/workers/scheduler.py:42-67 | a due row is sent to the one handler of submit, poll and confirm that acts on its status, and never to a cancel |
| Handlers.OwnedByOne | src/async_gateway/tasks/handlers.py:270-281 | every active row belongs to exactly one of submit, poll and confirm, an ended one to none |
| Histogram.Percentile | src/async_gateway/infra/polling.py:55-65 | a percentile of the bucket counts is the bucket of the raw sample of that rank, never below one bucket |
| Histogram.QuantileNearSample | src/async_gateway/infra/polling.py:51-65 | a reported percentile is never above the raw sample of its rank and less than ten seconds below it, except that samples under ten seconds report ten; the rank is the least that covers the share asked for |
| Histogram.QuantilesAscend | src/async_gateway/infra/polling.py:301-311 | percentiles are ordered as their ranks are |
| Histogram.SortKeeps | src/async_gateway/infra/polling.py:301-305 | the reference order of the samples is ascending and a permutation of them |
| Histogram.CumIsCount | src/async_gateway/infra/polling.py:59-64 | the running total after a bucket is the number of raw samples up to it |
| Polling.SortedItems | src/async_gateway/infra/polling.py:302-303 | lists every bucket once, in ascending order |
| Polling.Controller.RecordDuration | src/async_gateway/infra/polling.py:293-296 | the histograms remain those of the recorded samples |
| Polling.Controller.GetStats | src/async_gateway/infra/polling.py:301-311 | the statistics are those of the recorded samples |
| Polling.Controller.BaseInterval | src/async_gateway/infra/polling.py:318-321 | depends on the samples alone, whatever rate limits came before |
| Polling.Controller.NextPoll | src/async_gateway/infra/polling.py:313-316 | the interval of the samples under the channel's multiplier |
| Polling.Controller.NoteRateLimited | src/async_gateway/infra/polling.py:323-330 | raises one channel's multiplier, remembers when, pauses until the given time, and keeps every multiplier between one and the ceiling |
| Polling.Controller.DecayIfClean | src/async_gateway/infra/polling.py:337-342 | steps down exactly when the channel has been quiet long enough |
| Polling.Controller.PausedFor | src/async_gateway/infra/polling.py:344-345 | positive exactly until the pause ends, and then the time left |
| Polling.Controller.Reset | src/async_gateway/infra/polling.py:366-374 | forgets the rate limits, and the samples only when asked |
| Polling.PercentilesAscend | src/async_gateway/infra/polling.py:55-65 | P10 is at most P50 is at most P95 |
| Polling.StatsAreUsable | src/async_gateway/infra/polling.py:110-111 | the interval never divides by zero on recorded samples |
| Polling.IntervalMonotone | src/async_gateway/infra/polling.py:105-113 | on a warm channel the interval grows with the elapsed time |
| Polling.IntervalDoublesPerMedian | src/async_gateway/infra/polling.py:110-113 | it is the base, doubled for each median duration that has passed, up to 256 times the base, within the bounds |
| Polling.FirstAndColdIntervals | src/async_gateway/infra/polling.py:106-109 | the first poll of a warm channel waits its tenth percentile, a cold channel the initial interval on every poll |
| Polling.WaitAfterRateLimits | src/async_gateway/infra/polling.py:313-330 | after n medians and k rate limits in a row a channel waits the base doubled n + k times, within the bounds |
| Polling.LimitedDoubles | src/async_gateway/infra/polling.py:118-119 | k rate limits in a row make the multiplier two to the k, or the ceiling |
| Polling.NextIntervalBounds | src/async_gateway/infra/polling.py:115-116 | the paced interval stays in range and never undercuts the unpaced one |
| Polling.NextIntervalMonotone | src/async_gateway/infra/polling.py:313-316 | more elapsed time and more rate limiting both make it longer |
| Polling.MultiplierStays | src/async_gateway/infra/polling.py:118-122 | up and down keep the multiplier between one and the ceiling |
| Polling.BackToOne | src/async_gateway/infra/polling.py:121-122 | from multiplier m, any number of clean periods from 9(m - 1) on brings it back to exactly one |
| Polling.NotSooner | src/async_gateway/infra/polling.py:121-122 | with fewer than (m - 1) / 0.1m clean periods it is still above one |
| Limits.AcceptRateLimiter.TryAcquire | src/async_gateway/infra/concurrency.py:225-233 | granted exactly when the refilled bucket holds the cost, which is then all that is taken; the wait is the specified one, and the bucket stays between empty and full |
| Limits.WindowBound | src/async_gateway/infra/concurrency.py:218-233 | in any window of any run the cost granted is at most the burst plus the rate times the window |
| Limits.NothingIsLost | src/async_gateway/infra/concurrency.py:225-233 | while the bucket never overflows, what was in it and what flowed in has been granted or is still there |
| Limits.WhatIsThereIsGranted | src/async_gateway/infra/concurrency.py:225-231 | requests that together cost no more than the bucket holds are all granted |
| Limits.FlowIsConstant | src/async_gateway/infra/concurrency.py:227-228 | the refill is a supply at the constant rate |
| Limits.FlowRises | src/async_gateway/infra/concurrency.py:227-228 | that supply never falls |
| Limits.RetrySucceedsIff | src/async_gateway/infra/concurrency.py:232-233 | after the stated wait and no grant in between the same request is granted exactly when its cost fits the burst and the rate is not below 0.001 |
| Limits.ConcurrencyLimiter.TryAcquire | src/async_gateway/infra/concurrency.py:165-175 | granted exactly when both counts are below their limits, the channel named exactly when it has none left; both counters go up by one or none does |
| Limits.ConcurrencyLimiter.ReleaseSlot | src/async_gateway/infra/concurrency.py:177-180 | each of the two counters down by one unless it is zero |
| Limits.ConcurrencyLimiter.CalibrateChannel | src/async_gateway/infra/concurrency.py:182-188 | lowers the channel counter to what is active when it is above, changes no other, and returns by how much |
| Limits.CountsInBounds | src/async_gateway/infra/concurrency.py:159-188 | over any run of acquires, releases, duplicates and calibrations every counter stays between zero and its limit |
| Limits.ChannelBelowTenants | src/async_gateway/infra/concurrency.py:159-188 | the channel counter never exceeds the sum over its tenants |
| Limits.BalancedIsExact | src/async_gateway/infra/concurrency.py:165-180 | with only held slots released and no calibration, the counters are exactly the slots held, per tenant and in sum |
| Limits.RefusedIffFull | src/async_gateway/infra/concurrency.py:165-180 | and an acquire is refused exactly when the channel or the tenant holds its full limit, the channel named exactly when it does |
| Limits.FirstAreGranted | src/async_gateway/infra/concurrency.py:165-175 | a tenant that only acquires holds a slot for every acquire, up to the smaller limit |
| Limits.KeysApart | src/async_gateway/infra/concurrency.py:116-117 | counters of different channels or tenants have different key texts, for names without a closing brace |
| Limits.KeysCanMeet | src/async_gateway/infra/concurrency.py:116-117 | with one they can share a key |
| Audit.AuditWriter.Append | src/async_gateway/db/audit.py:75-143 | adds one record, linked to the one before it and with the hash of its own text, changes none, and keeps the chain intact |
| Audit.AuditWriter.VerifyChain | src/async_gateway/db/audit.py:145-164 | accepts exactly when each of the first `limit` records is linked, and otherwise names the first that is not |
| Audit.TailPinsLog | src/async_gateway/db/audit.py:75-94 | two intact logs with the same last hash, and no collision among the hashed texts, have the same length and agree on every hashed field |
| Audit.TamperingShows | src/async_gateway/db/audit.py:150-162 | changing a hashed field of one record breaks the chain |
| Audit.UnhashedFieldsAreFree | src/async_gateway/db/audit.py:84-93 | role, subject type and detail are not pinned |
| Audit.BarsBlurFields | src/async_gateway/db/audit.py:84-93 | a separator inside a field lets two different records hash alike, whatever the hash |
| Expression.Compile | src/async_gateway/templates/expression.py:70-110 | the compiler's loop computes the specified path, and rejects exactly what has none |
| Expression.PrintThenCompileIff | src/async_gateway/templates/expression.py:70-110 | a printed path compiles back to itself exactly when its text holds no forbidden token and it is not too long |
| Expression.PrintedPathReads | src/async_gateway/templates/expression.py:113-144 | reading a document through a printed path reads it through the path |
| Expression.ForbiddenIff | src/async_gateway/templates/expression.py:70-82 | exactly the texts that hold one of the six tokens somewhere are forbidden |
| Expression.AcceptedPaths | src/async_gateway/templates/expression.py:70-110 | an accepted path begins with the root sign, has at most 32 steps, and holds none of them |
| Routing.GetRoundTripIff | src/async_gateway/gateway/routing.py:42-64 | the rendered query path of an id is routed to the query of that id exactly when no query part begins before the id, and raises otherwise |
| Routing.QueryParameterRaises | src/async_gateway/templates/validator.py:159-164 | a template that is accepted, renders every id, and raises on each query it rendered |
| Routing.CancelRoundTripIff | src/async_gateway/gateway/routing.py:47-56 | the rendered cancel path is routed to create exactly when it is the create path under the same method, else to the cancel of its id exactly when no query part begins before the id, and else raises |
| Routing.CancelCanCreate | src/async_gateway/gateway/routing.py:47-48 | a template and an id for which it is |
| Routing.DerivedCancelIsSafeIff | src/async_gateway/templates/derive.py:158-162 | a derived cancel path is routed to the cancel of its id exactly when the create path has no query part; otherwise to create under the same method, and raises under another |
| Routing.DerivedCancelCanCreate | src/async_gateway/templates/schema.py:193-202 | a create path for which every cancel creates a task |
| Routing.SafeIdsRender | src/async_gateway/templates/render.py:48-65 | where no dot touches the id, every id that the sanitizer admits renders |
| Routing.RendersIff | src/async_gateway/templates/render.py:48-79 | and no other: exactly ids of 1 to 256 unreserved characters without two dots in a row, the rest is refused as unsafe |
| Routing.RouteMeans | src/async_gateway/gateway/routing.py:42-64 | create is the create method on the create path, query is GET on the query path around some segment, cancel is the cancel method on the cancel path around some segment unless it is a create |
| Routing.OtherMethodsAreNotRouted | src/async_gateway/gateway/routing.py:42-64 | no other method reaches a route |
| Routing.NormalForm | src/async_gateway/gateway/routing.py:30-34 | a normalized path begins with a slash, has no query part and ends in a slash only when it is one |
| Routing.MatchThenRender | src/async_gateway/gateway/routing.py:37-39 | a path that was routed to an id is the path that the template prints for it, up to normal form |
| Routing.PatternIsNormalForm | src/async_gateway/gateway/routing.py:30-38 | the pattern is the normal form of the template path, which may have lost its id |
| Accept.OneRowPerKey | src/async_gateway/db/models.py:157-158 | over any interleaving of accepts two rows with one key and bucket are the same row |
| Accept.AnswersNameOneTask | src/async_gateway/gateway/accept.py:103-159 | all answers that name a task, for one key and bucket, name the same one |
| Accept.ConflictIffDifferent | src/async_gateway/gateway/accept.py:313-318 | a request answered from an existing row is refused exactly when both have a digest and the digests differ, and the fallback for a vanished row is never reached |
| Accept.ReusedKeyIsRefusedIff | src/async_gateway/gateway/accept.py:111-159 | of two requests with one key and bucket the second is refused exactly when both have a digest and they differ, and else gets the first one's task; there is one row |
| Accept.TaskIndex.AcceptCreate | src/async_gateway/gateway/accept.py:111-159 | look-up, insert and second look-up are the steps of the interleaving, also when another request wins the race; an existing row is replayed or refused by its digest, and without one the request's own row is added |
| Accept.DerivedKeysNeverConflict | src/async_gateway/gateway/idempotency.py:71-76 | two requests with the same derived key have the same credential and the same body digest |
| Accept.BucketsAreWindows | src/async_gateway/gateway/idempotency.py:91-94 | two moments in one bucket are less than one window apart |
| Accept.BucketsDifferIff | src/async_gateway/gateway/idempotency.py:91-94 | and are in different buckets exactly when a multiple of the window lies between them, however close they are |
| Accept.SecondIsNewIff | src/async_gateway/gateway/accept.py:103-159 | of two requests with one key the second creates a task of its own exactly then |
| CanonicalBody.CanonicalOf | src/async_gateway/gateway/idempotency.py:49-64 | the loop over the fields computes the specified canonical form |
| CanonicalBody.GetDotted | src/async_gateway/gateway/idempotency.py:40-46 | the walk along a dotted name finds the value there, or null |
| CanonicalBody.CanonicalSameIff | src/async_gateway/gateway/idempotency.py:49-64 | without declared fields and normalization two bodies have one canonical form exactly when they have the same keys and agree on those without a dot |
| CanonicalBody.DeclaredFieldsCountIff | src/async_gateway/gateway/idempotency.py:49-58 | with declared fields exactly when they agree on each of those |
| CanonicalBody.TextsCountAlikeIff | src/async_gateway/gateway/idempotency.py:59-63 | under trimming blanks around a text do not count, in a folded field the case of letters does not, and nothing else is overlooked |
| CanonicalBody.DottedKeyIsIgnored | src/async_gateway/gateway/idempotency.py:40-46 | whatever the rules, a key that holds a dot can hold anything |
| CanonicalBody.DottedBodiesCollide | src/async_gateway/gateway/idempotency.py:51-58 | two different bodies with one canonical form |
| CanonicalBody.FoldsIffLowerName | src/async_gateway/gateway/idempotency.py:55-62 | a field declared case-insensitive is folded exactly when its name has no capital letter |
| TemplateChange.Flatten | src/async_gateway/templates/registry.py:99-108 | every field stands under its dotted key, nothing else does, and without dots in keys the dump holds exactly the values at every depth |
| TemplateChange.ClassifyChange | src/async_gateway/templates/registry.py:111-139 | the changed names are exactly the deepest ones whose values differ; no-op exactly when the configurations are equal, in place exactly when nothing outside the judging rules changed, and then all requests are the same; reviewed by two exactly as below |
| TemplateChange.ReviewIff | src/async_gateway/templates/registry.py:50-74 | two reviewers are asked for exactly when a field changed that has a listed beginning, or a listed field changed and no key below it did |
| TemplateChange.EditBelowEscapes | src/async_gateway/templates/registry.py:118-119 | a change of keys below one listed field asks for none |
| TemplateChange.SuccessValuesEscape | src/async_gateway/templates/registry.py:124-128 | such a change for every two sets of success values |
| TemplateChange.NoLeavesMeansSame | src/async_gateway/templates/registry.py:115-119 | dropping the containers of changed keys never hides a change |
| TemplateChange.InPlaceMeansSame | src/async_gateway/templates/registry.py:121-129 | a change classified in place leaves every field outside the judging rules as it was |
| TemplateChange.SameMeansInPlace | src/async_gateway/templates/registry.py:34-48 | a change confined to the judging rules is classified in place |
| TemplateChange.SameFieldsSameRequests | src/async_gateway/templates/render.py:82-122 | equal fields outside the judging rules render the same create, get and cancel requests for every body, callback address and id |

## Left out

- HTTP itself, DNS, address checks, redaction, callback signatures and credentials: an upstream call is any outcome, a credential is there or not.
- SQL, the Redis scripts, the queues and the worker loop: a table is a map, a script is one step, any handler may start at any time.
- Clocks, credentials, pauses and slots: what a handler finds is part of its thread and may be anything; only when a sweep or a lease comes to a row is left open, so the runs include those of the code. Whether the stored request body is still there, and whether an inline submitter gets a slot, is open too.
- Row columns nothing here depends on: row version, poll and confirm counters, error codes, result summaries; error texts are free.
- Callbacks that match no task, and their reconciliation; fetching and storing result bytes, audit side effects, metrics, health, the admin surface other than closing a task.
- In-place aliasing of documents: `set_path_on_doc` works on a value and returns the edited one.
- UpstreamIds.PollsHaveIds: says nothing of runs in which an empty id is written; `EmptyIdReachesPoll` shows that those are the exception.
- UpstreamIds.IdIsWrittenOnce: assumes that the upstream names only tasks it made; `IdIsWrittenOnceIff` says when that is needed.
- UpstreamIds.PollsAlwaysHaveIdsIff: asks that the id is not the whole create answer.
- UpstreamIds.IdIsWrittenOnceIff: asks that too, since the text of a whole answer is not modelled.
- Routing.RouteMeans: leaves aside paths whose normal form ends in a newline, which the end sign of a pattern overlooks, and templates with the id in the query part, which `GetRoundTripIff` and `CancelRoundTripIff` cover.
- Polling.WaitAfterRateLimits: asks for a base interval of at least the minimum, and not below the millionth the ceiling divides by.
- Handlers.Consume: a transfer is asked for with attempt 1 or the one the row records, which `AttemptsNeverCount` shows to be 1 at all times.
- Waits.RunIsBudget: says nothing of overlapping submit handlers, each of which writes the deadline from its own copy of the row.
- Output.ContractHoldsIff: assumes that result and error path are not the status path itself, for which `ErrorOverStatus` and `ResultOverStatus` say what is read, and that the text of a whole container is no declared success, failure or expiry.
- Contract.OutputContract: assumes besides that the result path does not reach the status, since a stored snapshot has the raw result written into it.
- Contract.KeepsContractIff: assumes what OutputContract does, and that the id is not the whole create answer, for there to be a run that submits.
- `str` of a list or an object is one fixed text here, so a declared value that spells out a container is not modelled; an error path that does not compile raises, and enters here compiled.
- TaskStore.Store.BoundUnknowns: says how far the cap brings one crowded channel down; with several over their caps the victim list is shared, and what each loses depends on the order they are counted in.
- TaskStore.Store.Select: leaves the order of a scan open.
- Handlers.Worker.SubmitUpstream: concurrency slots are taken and given back outside this model.
- Polling.NextIntervalBounds: asks for settings with base and minimum interval not negative and at most the maximum, and a positive minimum or sample threshold.
- Histogram.Percentile: reals for floats; the seven-day expiry and the five-minute cache of the Redis version are not modelled.
- Limits.WindowBound: reals for floats, and one bucket as in the in-memory limiter.
- Audit.TailPinsLog: needs fields without the separator and no collision among the texts hashed for the two logs; timestamps enter as the canonical text.
- CanonicalBody.TextsCountAlikeIff: letters are folded in the ASCII range only, and blanks are those of Latin-1.
- Expression.Compile: evaluation time and result size are not limited; digits are ASCII.
- Routing.GetRoundTripIff: template paths hold one `{id}` and no other opening brace; joining with the base address is not modelled.
- Explicit idempotency keys enter as the stripped text; key text for task-level retries is not modelled.
- Accept.AnswersNameOneTask: rows are never deleted while their window lasts; capacity checks come before.
- Accept.DerivedKeysNeverConflict: needs no collision between the two digests' first 32 characters.
- TemplateChange.ClassifyChange: equal configurations count as no-op when no key holds a dot, since colliding dotted keys would depend on the order of a dictionary.
- Canary choice between template versions, YAML loading, validation and derivation of templates: a resolved template is the input.
