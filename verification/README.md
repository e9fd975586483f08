# Verification of the HR backend's state machines

A model in Dafny of the backend's protocols and of its algorithmic core, with proofs. Tables are maps, a
repository transaction is one atomic step, and where a service runs several statements each is a step of its
own with other callers in between. Each protocol comes in three layers: the transactions on values, theorems
over every run of them, and classes whose methods change the tables in place as the source does and are
proved to compute the same steps. What ends up in a row or an answer is tied to the inputs by results that
speak of them column by column.

| files | what they model |
|---|---|
| `Numbering.dfy` | printed sequence numbers: order, parsing, block allocation, batch suffixes |
| `TestTasks.dfy`, `TaskRepository.dfy` | active-test tasks, one-time links, grading jobs, reference counts; the expiry scan and the create retry |
| `Answers.dfy`, `AnswerService.dfy` | the answer protocol behind a link |
| `QuestionBank.dfy`, `QuestionReview.dfy`, `BankRepository.dfy` | review batches: generate, import, confirm, void, resubmit |
| `QuestionService.dfy`, `QuestionRuns.dfy`, `BankService.dfy`, `QuestionStories.dfy` | optimistic locking between a service's reads and its write; what runs keep; runs that defeat a check |
| `SessionFeatures.dfy` | the concurrent idempotent upsert |
| `OperationLog.dfy`, `OperationLogRecorder.dfy` | the bounded drop-oldest channel and its batching consumer; clean-up |
| `Evaluator.dfy`, `EvaluatorService.dfy` | evaluate, reuse, delete and evaluate again |
| `ProfileSets.dfy`, `ProfileBuilder.dfy` | budgeted packing by density, period statistics |
| `BatchAccounting.dfy`, `BatchRepository.dfy` | counters against person rows |
| `Suggestions.dfy`, `DashboardQuery.dfy`, `SuggestService.dfy` | the pick of batches for suggestions and its lock row |
| `Weakness.dfy` | weakness ranking under an epsilon comparison |
| `SessionWindows.dfy` | paging, deduplication, attribution to periods |
| `Base.dfy`, `Sorting.dfy`, `Folding.dfy` | an option type, sorting by a strict order, accumulation in any order |

`dafny verify dfyconfig.toml` checks everything.

## Where the code falls short of its intent

The model follows the code. Each item names the exact condition and, where something fails, a run.

- Windows with the same start and different ends. `dimension_score.go:48-50` asks for them to be isolated. The
  reads and the delete match both bounds, but the unique key has neither the end nor the source, so evaluating one
  window takes over rows of the other, and of active tests: `Evaluator.SameStartSurvivesIff`.
- Repeated submits. `answer.go` lets a repeated submit of a completed task succeed, but the expiry check comes
  first unless the task is in progress, so the repeat is refused once the link has expired.
  `Answers.AcceptedTokens` has the exact condition.
- Replaced links. The link is read before the task, so a token replaced between the two reads is still accepted:
  `Answers.ReplacedTokenIsAccepted`, exactly when by `Answers.AcceptedUnlessReplaced`.
- Replies. The count and the insert are two statements without a lock, so two overlapping replies to one task store
  the same number: `Answers.OverlappingRepliesCollide`, exactly when by `Answers.ReplyInOrderIff`. All other results
  on answers are for calls on one task that follow one another.
- The current link. Generation times are read before the resend transaction, so of two racing resends the one
  that commits last may carry the older time, and the newest link is then a dead one:
  `TestTasks.RacingResendsShowDeadLink`, exactly when by `TestTasks.ResentLinkIsCurrentIff`.
- Reject reasons. The comment on the column says only rejected questions have one; a question waiting in a
  resubmission keeps it, which is what lets a void restore it: `QuestionRuns.ResubmitThenVoidRestores`.
- Versions. The lock relies on clients sending versions they were shown. For a resubmission a later version defeats
  it: `QuestionRuns.ResubmitLockIff`, at the price shown by `QuestionRuns.GuessedVersionMiscounts`.
- Deletion and references. The version does not cover the reference count:
  `QuestionStories.DeletedWhileReferenced`, exactly when by `QuestionRuns.DeletionIsSafeIff`.
- Confirming. The batch and its questions are two reads, so a resubmission in between makes the count comparison
  fail: `QuestionStories.CountCheckFires`, exactly when by `BankService.CountCheckFiresIff`. One that comes after the
  questions were read is admitted unseen: `QuestionStories.AdmittedUnseen`, exactly when by
  `BankService.ConfirmSettlesListedAndJoined`.
- The expiry scan. Each candidate's transaction re-checks only the status, so a task resent after the scan was read
  is expired with its new link: `TaskRepository.ScanUndoesResend`, exactly when by `TaskRepository.ExpiryIsJustifiedIff`.
- Drop the oldest. An eviction takes the oldest entry queued at that instant, which with several producers can be
  younger than the entry it makes room for: `OperationLog.EvictionMayDropYounger`. It takes one that was queued
  when the call met the full channel exactly when `OperationLog.EvictsQueuedEntryIff` says.
- The epsilon. Beyond a bound on head counts the comparator is no order: `Weakness.CompareCanCycle`; it is exact
  for two head counts exactly as long as `Weakness.EpsilonSeparatesIff` says.

## How calls overlap

Parameters named for a gap (`rivals`, `gaps`, `gap1`, `beforeTask`, `beforeWrite` and so on) stand for what others
commit between two statements of a method. In the contracts of the methods they are arbitrary lists of the steps of
their protocol. The theorems about runs say what they need of them:

- question bank: transactions whose service check holds at their write, which is what the services together do
  (`QuestionRuns.PlayIsAllowedRun`);
- answers: calls on one task follow one another, as the source counts and inserts without a lock; everything on
  other tasks, administrators and workers may come between any two statements;
- evaluation: writes for other people or other period starts, where an evaluation is to be undisturbed;
- suggestions, uploads of session features, the operation log, test tasks and assessment batches: anything.

Identifiers, keys, clocks, database outcomes, the answers of the language model and the server's pages are
parameters. Fields that are not columns are marked in the code: `counted` remembers what a person row added to the
covered counter, tickets number the log calls.

## Model

The main results come first, then the steps they rest on, then the methods that run in place.

| member | source | states |
|---|---|---|
| `TestTasks.EveryRunIsSound` | `hr-backend/internal/repository/assessment_test_task.go:332-427` | that holds of every task after any list of the seven transactions |
| `TestTasks.EveryReachableDbIsSound` | `hr-backend/internal/repository/assessment_test_task.go:164-427` | from empty tables on, and a question is counted once for every task whose snapshot holds it |
| `TestTasks.StepRefinesLifeCycle` | `hr-backend/internal/repository/assessment_test_task.go:164-181` | each transaction on the task, link and job tables is one step of the life cycle of its own task; every other task keeps its view, and a taken key changes nothing |
| `TestTasks.FinalPointsAreFinal` | `hr-backend/internal/repository/assessment_test_task.go:381-439` | in every run completed and canceled are for ever, a final grade never changes, and a task gets at most one grading job |
| `TestTasks.ResentLinkIsCurrentIff` | `hr-backend/internal/repository/assessment_test_task.go:222-235` | after a resend every link the newest-generated query may return is the new valid one, if and only if no older link of the task has a generation time as late |
| `TestTasks.EveryRunCountsReferences` | `hr-backend/internal/repository/assessment_test_task.go:160-181` | the reference count of a question is, over every run, the number of tasks whose snapshot holds it: listed twice it counts once, and cancelling or expiring gives nothing back |
| `TestTasks.CreatedTaskStaysAsAsked` | `hr-backend/internal/service/assessment_test_task.go:344-354` | over every run a created task keeps the number, the type and the ordered questions it was asked for |
| `TestTasks.ActiveSetMoves` | `hr-backend/internal/repository/assessment_test_task.go:309-326` | each transaction that takes effect moves the active set of each type by exactly its own task: created or resent in, canceled, expired or graded out, started or completed neither |
| `TestTasks.EveryRunStampsLinks` | `hr-backend/internal/repository/assessment_test_task.go:222-427` | in every run each link lives seven days from its generation, a task has a completion time exactly when completed, and exactly its used links carry that time |
| `TaskRepository.ExpiryIsJustifiedIff` | `hr-backend/internal/repository/assessment_test_task.go:347-369` | a candidate still pending at its turn is still overdue if and only if no resend of it took effect since the candidates were picked |
| `TaskRepository.ScanUndoesResend` | `hr-backend/internal/repository/assessment_test_task.go:347-369` | and if one did, the scan expires the task and kills its only live link, which has not run out |
| `TaskRepository.AttemptLostIff` | `hr-backend/internal/service/assessment_test_task.go:339-368` | with an id and a token of its own, an attempt is lost if and only if another caller took the very number it read between its read and its insert |
| `Answers.EveryPlayIsSound` | `hr-backend/internal/service/answer.go:166-294` | statement by statement, in every interleaving of calls on different tasks, administrators and workers, calls given up halfway included: replies of a task are numbered 1..n without gaps, n is at most its question total, and equals it once completed |
| `Answers.EveryReachableWorldIsSound` | `hr-backend/internal/service/answer.go:166-294` | from empty tables on |
| `Answers.SubmitSucceedsIffCompleted` | `hr-backend/internal/service/answer.go:259-294` | a submit reports success if and only if the task is completed afterwards, whatever the others do in its gaps |
| `Answers.ContextListsRepliesInPlace` | `hr-backend/internal/service/answer.go:166-203` | the context lists every stored reply once, reply i beside question i, whatever the others do in its gaps |
| `Answers.OpenSessionCanFinish` | `hr-backend/internal/service/answer.go:208-294` | from any sound state an open session nobody else is answering reaches completion by answering the rest and submitting, however late |
| `Answers.AcceptedTokens` | `hr-backend/internal/service/answer.go:112-155` | with both rows read at one instant, a token is accepted if and only if it is the live link of a pending task and unexpired, or of an open session, or spent, unexpired and the caller is a repeated submit |
| `Answers.AcceptedUnlessReplaced` | `hr-backend/internal/service/answer.go:112-155` | with the link read before the task: what a check at the second instant accepts, and in addition exactly a token replaced between the two reads while its task stayed answerable |
| `Answers.ReplyInOrderIff` | `hr-backend/internal/service/answer.go:219-254` | a reply that stores keeps its task's replies in order if and only if none was stored for it between its count and its insert |
| `Answers.ContextShowsTheQuestions` | `hr-backend/internal/service/answer.go:320-350` | an opened test lists its snapshotted questions in order, each with its own scenario, requirement and dimension name; it opens if and only if the session was in progress or could be started and none of them is gone, and fails otherwise |
| `Answers.NextShowsTheQuestion` | `hr-backend/internal/service/answer.go:208-252` | a stored reply is numbered after those counted; unless it is the last it announces question n+2 of the snapshot with its own texts |
| `Answers.ReplyRefusedIff` | `hr-backend/internal/service/answer.go:208-316` | a reply is refused if and only if nothing is left to answer, or what remains after trimming is empty, over 500 characters, or on the scale not one of the digits 1 to 5; it fails if and only if the next question is gone |
| `Answers.NewLinkLastsSevenDays` | `hr-backend/internal/service/assessment_test_task.go:508-544` | the link just created or resent is accepted for seven days and no longer, and no other link of its task is |
| `QuestionService.EveryRunIsSound` | `hr-backend/internal/service/question.go:350-457` | every interleaving of reads, versioned writes and other transactions keeps the whole bank sound, provided a call sends a version its question has already had |
| `QuestionService.EveryOpenBatchIsCounted` | `hr-backend/internal/service/question_batch.go:213-216` | from empty tables on, in every interleaving, the stored count of an open batch is the number of its live questions |
| `QuestionReview.OpKeepsBankSound` | `hr-backend/internal/repository/question_batch.go:146-377` | every transaction whose service check still holds at its write keeps: a live question is pending exactly while its batch is open, an open batch counts its live questions, reasons only on rejected or resubmitted ones, one open resubmit batch, one import per scale, unique numbers, one session per generated batch |
| `QuestionService.MatchingVersionMeansCheckHolds` | `hr-backend/internal/service/question.go:350-457` | if the versioned write matches, the status and source check made at the earlier read still holds, whatever was committed in between |
| `QuestionRuns.ResubmitLockIff` | `hr-backend/internal/service/question_batch.go:260-290` | for a resubmission it does so if and only if the version sent is at most the version read: any later one can be reached by a question that waits again or was admitted |
| `QuestionRuns.DeletionIsSafeIff` | `hr-backend/internal/service/question.go:434-457` | a deletion that passed its check and whose version still matches removes an unreferenced question if and only if no test naming it was created since the read |
| `QuestionRuns.OpenBatchOnlyGrows` | `hr-backend/internal/repository/question_batch.go:217-377` | over any such run after which a batch is still open: no question left it, its questions kept everything but their reference counts, and exactly those resubmitted into it came in |
| `QuestionRuns.ResubmitThenVoidRestores` | `hr-backend/internal/repository/question_batch.go:272-377` | resubmitting and voiding the batch joined, with any run in between, gives back a rejected question with its original, non-empty reason and its number, two versions later |
| `QuestionRuns.ImportSucceedsIff` | `hr-backend/internal/repository/scale.go:183-236` | on a sound bank an import under new ids goes through, with its count and rows, if and only if the scale has no live question; no number is ever in the way |
| `BankService.OkMeansStored` | `hr-backend/internal/service/question.go:350-457` | a reported success means that at the write the row got exactly the text, status or deletion sent, one version on, and no other row changed; an edited text stays until another is stored |
| `QuestionRuns.ContentIsLastStored` | `hr-backend/internal/service/question.go:371-376` | over every run a question has the text last stored for it under its version |
| `QuestionRuns.VersionedWriteStores` | `hr-backend/internal/repository/question.go:98-123` | an edit, a toggle or a deletion under the right version changes that row in the columns it is for and in its version, and nothing else anywhere |
| `BankService.CountCheckFiresIff` | `hr-backend/internal/service/question_batch.go:187-216` | for a batch still open when its questions are read, the count comparison refuses a proper confirm if and only if a question was resubmitted into the batch between the two reads |
| `BankService.ConfirmSettlesListedAndJoined` | `hr-backend/internal/service/question_batch.go:195-217` | a committed confirm rejects exactly the questions with an item and admits the other listed ones and, unseen, every question resubmitted into the batch since: it settles exactly what was listed if and only if there was none |
| `BankService.CallKeepsBankSound` | `hr-backend/internal/service/question.go:350-457` | a call that sends a version its question has had keeps the bank sound whatever is committed in its gaps, and a refused or conflicting one writes nothing |
| `QuestionReview.ConfirmAccountsForEveryQuestion` | `hr-backend/internal/service/question_batch.go:187-235` | admitted plus rejected is the stored count, whatever ids were sent |
| `QuestionStories.CountCheckFires` | `hr-backend/internal/service/question_batch.go:187-216` | a run from empty tables in which the count comparison refuses a proper confirm |
| `QuestionStories.AdmittedUnseen` | `hr-backend/internal/service/question_batch.go:195-217` | a run from empty tables in which a confirm admits a question it never listed |
| `QuestionStories.DeletedWhileReferenced` | `hr-backend/internal/service/question.go:434-457` | a run from empty tables that ends with a deleted question counted into a test |
| `Numbering.BlockIsOneAtATime` | `hr-backend/internal/repository/question_batch.go:146-185` | on issued numbers, counting up from one maximum per prefix equals asking for the next number again for every question, against the growing table |
| `Numbering.MaxSeqIsNumericMaximum` | `hr-backend/internal/repository/question.go:129-148` | the row the query picks carries the numeric maximum of the prefix: nothing issued is above it and, unless nothing was issued, it was issued itself |
| `Numbering.NextBatchNoIsSuccessor` | `hr-backend/internal/repository/question_batch.go:189-211` | the batch number issued is the first with no suffix, then -2, -3 and so on: the successor of the numeric greatest, never one in use |
| `SessionFeatures.EveryRunIsLinearized` | `hr-backend/internal/repository/session_feature.go:66-138` | any number of interleaved callers: the completions form a legal sequential history that explains the table |
| `SessionFeatures.RealTimeOrder` | `hr-backend/internal/repository/session_feature.go:66-95` | a call that had answered before another began stays before it in the history |
| `SessionFeatures.ErrorIsUnreachable` | `hr-backend/internal/repository/session_feature.go:118-138` | the converged-to-non-terminal error cannot be returned while rows are not deleted |
| `SessionFeatures.OneTerminalWritePerKey` | `hr-backend/internal/repository/session_feature.go:102-112` | after a success or skipped record was written for a key every later call on it reuses it |
| `SessionFeatures.RunIsWrites` | `hr-backend/internal/repository/session_feature.go:66-138` | whatever other calls do to the table is a list of the writes assumed in the gaps of Save |
| `SessionFeatures.Repository.Save` | `hr-backend/internal/repository/session_feature.go:66-95` | with writes of others in its four gaps, Save never fails, equals the indivisible save on the table left by a prefix of those writes, and keeps ids and terminal rows |
| `OperationLog.EveryRunIsSound` | `hr-backend/internal/service/operation_log_recorder.go:145-215` | in every interleaving: first in first out, the consumer keeps order, batches never exceed 100 rows, each entry enters at most once |
| `OperationLog.EveryEntryInOnePlace` | `hr-backend/internal/service/operation_log_recorder.go:145-215` | each recorded entry is in exactly one of: stored, failed insert, evicted, abandoned, lost to a closed channel, queued, batched, in hand, in its call |
| `OperationLog.StoredKeepsCallOrder` | `hr-backend/internal/service/operation_log_recorder.go:145-215` | and what one producer logs is stored in the order of its calls |
| `OperationLog.EvictsQueuedEntryIff` | `hr-backend/internal/service/operation_log_recorder.go:145-161` | over any run from any sound state, the next eviction takes an entry that was queued in that state if and only if fewer entries have left since than were queued then; otherwise it takes one that entered since |
| `OperationLog.AbandonedOnlyIfOvertaken` | `hr-backend/internal/service/operation_log_recorder.go:145-161` | a call that made room is abandoned at its retry only if another entry entered the channel after its eviction |
| `OperationLog.ShutdownStoresTheRest` | `hr-backend/internal/service/operation_log_recorder.go:127-215` | then every entry not lost before is stored exactly once |
| `OperationLog.OpenChannelEmptiesIntoStore` | `hr-backend/internal/service/operation_log_recorder.go:183-215` | from every sound state with an open channel the consumer's own steps and one tick store batch, entry in hand and queue, in order, without a close |
| `OperationLog.CloseStoresTheLine` | `hr-backend/internal/service/operation_log_recorder.go:127-215` | closing only closes, and left to itself the consumer then stores batch, entry in hand and queue in order and stops |
| `OperationLogRecorder.TurnStores` | `hr-backend/internal/service/operation_log_recorder.go:183-215` | what one turn of the loop does to the table with others in between: tick, hundredth entry, end of the channel, or nothing |
| `Evaluator.SecondEvaluateReusesIff` | `hr-backend/internal/engine/evaluator/evaluate.go:52-151` | after a success the next evaluation reuses if and only if this one reused, or asked about every dimension and was answered |
| `Evaluator.OthersDoNotDisturb` | `hr-backend/internal/engine/evaluator/evaluate.go:52-151` | whatever is written for other people or other period starts between its read, delete and save, an evaluation returns and stores what it would have alone |
| `Evaluator.SameStartSurvivesIff` | `hr-backend/internal/repository/dimension_score.go:51-106` | a row of the same start that belongs to another end, or to an active test, survives a scoring evaluation if and only if its dimension is not enabled |
| `Evaluator.OneRowPerDimension` | `hr-backend/internal/engine/evaluator/evaluate.go:95-151` | a success that did not reuse ends with exactly the row it returned for each enabled dimension, whoever else wrote the table between its statements |
| `Evaluator.RetryAfterError` | `hr-backend/internal/engine/evaluator/evaluate.go:52-151` | a failed evaluation has at most deleted leftovers, and a retry gives what the first call would have given unless the rest can now be reused |
| `Evaluator.StoredRowIsEarned` | `hr-backend/internal/engine/evaluator/evaluate.go:52-151` | and the row stored for each enabled dimension is that row, whoever else wrote the table between the statements |
| `Evaluator.GivenScoreIsStored` | `hr-backend/internal/engine/evaluator/schema.go:60-87` | in particular the score given first for a dimension is the score stored for the person |
| `Evaluator.ConvergeReflectsAnswers` | `hr-backend/internal/engine/evaluator/schema.go:47-91` | no rows if and only if a wanted dimension's first answer has a score outside 0 to 100 or over 400 characters; else each row has that answer's score and rationale, or no points and insufficient evidence |
| `Evaluator.FailsIff` | `hr-backend/internal/engine/evaluator/evaluate.go:52-151` | an evaluation fails if and only if one of its calls fails or it is interrupted after asking in vain; a model that cannot be reached or answers nonsense still ends with rows |
| `Suggestions.EveryRunIsSound` | `hr-backend/internal/repository/team_training_suggestion.go:49-175` | in every interleaving of any number of ticks, each cut between its statements, with jobs delivered late or twice and batches created, finished and deleted: each row names a finished scheduled batch of its period, and what a tick has read stays true |
| `Suggestions.OwnerAlwaysResolves` | `hr-backend/internal/repository/dashboard_query.go:240-259` | so, for the rows as they are and for the rows any tick has read, the owner is found among the batches read later, and the pick's unresolved-owner branch and the retry's missing-batch branch are unreachable |
| `Suggestions.Settle` | `hr-backend/internal/service/suggest.go:96-161` | serialised ticking over a fixed batch table ends with nothing waiting after at most one tick per waiting batch |
| `Suggestions.LateJobReopensIff` | `hr-backend/internal/repository/team_training_suggestion.go:144-157` | a late job of an older batch takes the row over; the period is then picked again if and only if a newer successful batch exists |
| `SuggestService.TickAlone` | `hr-backend/internal/service/suggest.go:96-161` | a tick alone, in full: the earliest waiting batch gets its row and a job, else the oldest row stuck for twenty minutes gets its job again, else nothing |
| `Suggestions.JobWritesItsRow` | `hr-backend/internal/service/suggest.go:168-271` | a job that ends writes its result or its error to its period's row exactly when that row is generating |
| `BatchAccounting.EveryRunIsAccounted` | `hr-backend/internal/repository/assessment_batch.go:199-352` | in every reachable state total, evaluated, failed and covered are what the person rows say, also after the bulk recount |
| `BatchAccounting.FirstCallsDecide` | `hr-backend/internal/repository/assessment_batch.go:240-271` | any list of calls gives the result of each person's first call |
| `BatchAccounting.FinalIsForever` | `hr-backend/internal/repository/assessment_batch.go:273-301` | a final batch stays, with its status and its ended rows, over every run |
| `BatchAccounting.RowFollowsFirstCall` | `hr-backend/internal/repository/assessment_batch.go:240-271` | a waiting person's row ends with what the first call for that person reported, however often calls repeat |
| `ProfileSets.BlocksAreTheLongestFittingPrefix` | `hr-backend/internal/engine/evaluator/assemble.go:149-202` | the blocks are the longest fitting prefix of the success profiles by density and key, one more would overflow, and fewer are visible than exist exactly when not all fit |
| `ProfileSets.SetIgnoresInputOrder` | `hr-backend/internal/engine/evaluator/assemble.go:76-202` | with one profile per key nothing of the set depends on the order of the digests |
| `ProfileSets.NumbersCountDigests` | `hr-backend/internal/engine/evaluator/assemble.go:76-110` | each number of the statistics counts the digests it is named for, or adds up their column |
| `Weakness.EpsilonSeparatesIff` | `hr-backend/internal/service/dashboard.go:487-494` | without rounding the epsilon tells all different averages of two head counts apart if and only if their least common multiple is below 10^9 |
| `Weakness.CutIsWeakest` | `hr-backend/internal/service/dashboard.go:479-509` | with that bound between any two different dimensions, any sorted arrangement gives the reference: rank below two, or third with exactly the second's average |
| `SessionWindows.FetchIsAllOrNothing` | `hr-backend/internal/engine/activity/activity.go:137-157` | against a fixed list: all of it below ten thousand items, an error otherwise |
| `SessionWindows.DedupRepairsOverlaps` | `hr-backend/internal/engine/activity/activity.go:176-190` | deduplicating overlapping, repeated or falling-back pages of a list gives the list, as far as they reach |
| `SessionWindows.CoveredIff` | `hr-backend/internal/engine/activity/activity.go:272-294` | a row belongs to a period if and only if its last turn falls in one that starts at most seven days after its first; a session of at most seven days always does |
| `Numbering.ParseInvertsPrinting` | `hr-backend/internal/repository/assessment_test_task.go:200-219` | reading back a number printed with %04d gives the number, for every n, past 9999 too |
| `Numbering.PrintedOrderIsNumeric` | `hr-backend/internal/repository/question.go:129-148` | longer-then-greater on the printed forms is the numeric order |
| `Numbering.NextPaddedIsFresh` | `hr-backend/internal/repository/assessment_test_task.go:200-219` | the next number is new, sorts above every stored one of its prefix, and is one above their numeric maximum |
| `Numbering.OneAtATimeFresh` | `hr-backend/internal/repository/question_batch.go:146-185` | numbers given one at a time are pairwise distinct, new, and under the prefix of their question |
| `Numbering.OneAtATimeIncreases` | `hr-backend/internal/repository/question_batch.go:146-185` | within one prefix later questions of a block get later numbers |
| `Numbering.TopIsGreatestBatch` | `hr-backend/internal/repository/question_batch.go:189-211` | the longest, then greatest, batch number of a day is the one with the greatest counter |
| `Numbering.FirstNumbers` | `hr-backend/internal/repository/question_batch.go:32-40` | the first number of each prefix, numbers at and past the padded width, and a tail that is no number counting as none |
| `TestTasks.LifeCycleKeepsInvariant` | `hr-backend/internal/repository/assessment_test_task.go:242-305` | the life cycle keeps: pending or in progress has one valid link and no used one, completed one used and no valid one, expired or canceled neither; grading waits exactly until completion; one job exactly when completed |
| `TestTasks.ActiveCountSplits` | `hr-backend/internal/repository/assessment_test_task.go:309-326` | the active count of a type is pending plus in progress plus being graded |
| `TestTasks.RacingResendsShowDeadLink` | `hr-backend/internal/service/assessment_test_task.go:508-544` | two resends whose clocks were read in the other order leave a dead link as the newest |
| `TestTasks.CreatedRows` | `hr-backend/internal/repository/assessment_test_task.go:164-181` | a creation stores its task and link column by column: the number, type and ordered questions asked for, pending, not graded, one valid link generated now |
| `TestTasks.RunKeepsSnapshots` | `hr-backend/internal/repository/assessment_test_task.go:242-439` | no run changes the number, type or questions of any task |
| `TestTasks.VerdictStays` | `hr-backend/internal/repository/assessment_test_task.go:432-439` | the verdict recorded for a task being graded is the one it has after any run |
| `TestTasks.CompletionStays` | `hr-backend/internal/repository/assessment_test_task.go:381-427` | a task completed now is completed now after any run, with one job, its live link used and none valid |
| `TestTasks.CancelStays` | `hr-backend/internal/repository/assessment_test_task.go:274-296` | a task canceled before completion is canceled after any run, with no valid link |
| `TaskRepository.UndisturbedScan` | `hr-backend/internal/repository/assessment_test_task.go:332-376` | undisturbed, the loop of single transactions equals expiring the whole candidate set at once, in any order |
| `TaskRepository.ScanLeavesNothingOverdue` | `hr-backend/internal/repository/assessment_test_task.go:332-376` | after an undisturbed scan no pending task has an expired valid link |
| `TaskRepository.UnopposedNumberIsFree` | `hr-backend/internal/service/assessment_test_task.go:339-362` | with nobody in the gap the number read is free, and the numbers of the day stay of the issued form |
| `TaskRepository.UndisturbedReport` | `hr-backend/internal/repository/assessment_test_task.go:332-376` | and reports every candidate's number, in order |
| `Answers.OpenSessionNeverTimesOut` | `hr-backend/internal/service/answer.go:112-155` | once in progress the valid link is accepted at any time |
| `Answers.NextIsTheListedItem` | `hr-backend/internal/service/answer.go:208-256` | the next question a reply announces is the item the context lists at that position |
| `Answers.ReplyStoresOneRowOrNone` | `hr-backend/internal/service/answer.go:208-256` | whatever the others do in its gaps, a refused reply stores nothing and an accepted one exactly the next row of a task that is not completed |
| `Answers.ReplacedTokenIsAccepted` | `hr-backend/internal/service/answer.go:112-155` | a run in which a token resent between the two reads is accepted although only the newer link is live |
| `Answers.ReplyIsPlay` | `hr-backend/internal/service/answer.go:208-256` | a reply with the others in its gaps is a run of the protocol |
| `Answers.OverlappingRepliesCollide` | `hr-backend/internal/service/answer.go:219-254` | two overlapping replies to one open session store the same number twice |
| `Answers.SubmitIsPlay` | `hr-backend/internal/service/answer.go:259-294` | so is a submit |
| `Answers.ContextIsPlay` | `hr-backend/internal/service/answer.go:166-203` | so is opening the test |
| `Answers.TrimMeaning` | `hr-backend/internal/service/answer.go:225-228` | trimming cuts exactly the white space at both ends |
| `Answers.StartLiftsTheLimit` | `hr-backend/internal/service/answer.go:112-155` | once started the live link is accepted at any time; a canceled or expired task accepts none |
| `Answers.ListedInOrder` | `hr-backend/internal/repository/assessment_test_answer.go:55-63` | the stored rows of a task are listed by number, each once, whatever is stored |
| `Answers.TokenRefusedIff` | `hr-backend/internal/service/answer.go:112-155` | each call refuses the token if and only if the check accepts no task for it |
| `Answers.SubmitAnswers` | `hr-backend/internal/service/answer.go:259-294` | the answer to an accepted submit in every case: incomplete, enqueue failed, success, or refused after a second look |
| `AnswerService.CandidateIffRefused` | `hr-backend/internal/repository/assessment_test_task.go:332-343` | a task with a live token is a candidate of the expiry scan if and only if the token check would refuse that token at that time; a session in progress never is |
| `QuestionBank.FindPendingResubmit` | `hr-backend/internal/repository/question_batch.go:117-128` | the open resubmit batch, the earliest if there were several, if any |
| `QuestionReview.CreateKeepsNumbers` | `hr-backend/internal/repository/question_batch.go:146-185` | question and batch numbers stay unique over live and deleted rows |
| `QuestionReview.ConfirmSettlesEachOnce` | `hr-backend/internal/repository/question_batch.go:217-267` | each question of the batch gets its verdict, its reason and one version step; no other row changes |
| `QuestionReview.OnlyConfirmChangesReasons` | `hr-backend/internal/repository/question_batch.go:217-377` | no transaction but the confirm of its own batch changes a question's reason |
| `QuestionReview.SettlingClosesOnce` | `hr-backend/internal/repository/question_batch.go:217-311` | confirming closes and voiding voids exactly the open batch they name; a second attempt of either kind changes nothing |
| `QuestionReview.VoidDeletes` | `hr-backend/internal/repository/question_batch.go:272-311` | voiding a generated or imported batch deletes its questions and leaves all others |
| `QuestionReview.SessionSteps` | `hr-backend/internal/repository/question_generation.go:60-175` | a session is queued once, claimed only from the queue, ended only while it has not ended |
| `QuestionService.OpEvolvesRows` | `hr-backend/internal/repository/question.go:98-123` | no transaction changes a live question's status or source without raising its version |
| `QuestionRuns.PlayIsAllowedRun` | `hr-backend/internal/service/question.go:350-457` | what the services do, cut between their reads and writes, moves the bank by a run of transactions whose checks all hold at their writes |
| `QuestionRuns.KnownVersionLocks` | `hr-backend/internal/service/question.go:350-457` | for every kind of call, a version the row has had protects the status and source check against every run |
| `QuestionRuns.GuessedVersionMiscounts` | `hr-backend/internal/service/question_batch.go:260-290` | what that costs: a second resubmission under the next version leaves an open batch with a wrong count |
| `QuestionRuns.AdmittedStays` | `hr-backend/internal/service/question.go:350-422` | once admitted a question never goes back to review, over any run |
| `QuestionRuns.ReferencesGrowIff` | `hr-backend/internal/repository/question.go:193-204` | over any run a question that stays alive keeps its reference count if and only if no test creation names it |
| `QuestionRuns.ResubmissionStores` | `hr-backend/internal/repository/question_batch.go:316-377` | a resubmission under the right version stores the new text and puts the question back to pending; no other row changes |
| `QuestionRuns.ResubmissionJoins` | `hr-backend/internal/repository/question_batch.go:316-377` | and it joins the one open resubmission batch, which counts one more, or opens it with a count of one |
| `QuestionRuns.UnstoredContentStays` | `hr-backend/internal/repository/question.go:98-111` | and without such a write it keeps the one it had |
| `QuestionRuns.CreatedQuestions` | `hr-backend/internal/repository/question_batch.go:146-185` | an import or a finished generation creates one unreviewed question per text sent, with that text, its source and its scale, and leaves all other rows |
| `QuestionRuns.CreatedBatch` | `hr-backend/internal/repository/question_batch.go:146-185` | and one open batch of that size and kind, and completes the session with it |
| `QuestionRuns.DeletedIsForever` | `hr-backend/internal/repository/question.go:98-200` | a deleted question keeps its row as it was, over every run |
| `BankService.SettledBatchIsLeftAlone` | `hr-backend/internal/service/question_batch.go:187-222` | a batch settled by others before its questions are read is not settled again |
| `BankService.RefusalIff` | `hr-backend/internal/service/question.go:350-457` | which calls go on to write, and which answer each of the others gets |
| `BankService.LastReasonCounts` | `hr-backend/internal/service/question_batch.go:187-222` | of several items for one question the last reason is the one kept |
| `BankService.AnswerIff` | `hr-backend/internal/service/question.go:310-457` | past its checks a call succeeds if and only if its version is the row's at the write and the row is still there at the answer, which a deletion does not need; else conflict or not found |
| `BankService.QuietCallSucceedsIff` | `hr-backend/internal/service/question.go:350-457` | with nobody else at work the version alone decides |
| `BankService.ConfirmRefusalIff` | `hr-backend/internal/service/question_batch.go:187-216` | which confirms go on to their transaction, and which answer each of the others gets |
| `SessionFeatures.CompletingStatementIsSave` | `hr-backend/internal/repository/session_feature.go:66-138` | the one statement that completes a call does what an indivisible save would do there; all others change nothing |
| `SessionFeatures.StoredIsLastWrite` | `hr-backend/internal/repository/session_feature.go:66-138` | what is stored for a key is what was written for it last |
| `SessionFeatures.EveryStatementIsProgress` | `hr-backend/internal/repository/session_feature.go:66-138` | whatever others do, a call answers after at most five of its own statements |
| `SessionFeatures.CallAlone` | `hr-backend/internal/repository/session_feature.go:66-138` | a call alone leaves and answers what the indivisible save would, under the key's old id or the new one |
| `SessionFeatures.TerminalRowIsReusedAtOnce` | `hr-backend/internal/repository/session_feature.go:102-112` | a terminal row is reused after one statement |
| `OperationLog.StoredKeepsEntryOrder` | `hr-backend/internal/service/operation_log_recorder.go:183-215` | stored rows are a subsequence of the entries in queue-entry order |
| `OperationLog.EvictionTakesOldest` | `hr-backend/internal/service/operation_log_recorder.go:145-161` | everything evicted entered the channel before everything still queued |
| `OperationLog.EvictionMayDropYounger` | `hr-backend/internal/service/operation_log_recorder.go:145-161` | a run with several producers in which the eviction takes an entry recorded after the one it makes room for |
| `OperationLog.SingleProducerNeverAbandons` | `hr-backend/internal/service/operation_log_recorder.go:145-161` | with one producer nothing is abandoned and entries enter in recorded order |
| `OperationLog.NothingDroppedWithinCapacity` | `hr-backend/internal/service/operation_log_recorder.go:145-161` | as long as no more was recorded than the channel holds nothing is dropped |
| `OperationLog.CloseDrainsEverything` | `hr-backend/internal/service/operation_log_recorder.go:127-142` | after closing, the consumer stops by itself with channel and batch empty and drops nothing more |
| `OperationLog.ProperCloseNeverPanics` | `hr-backend/internal/service/operation_log_recorder.go:127-142` | with no call under way or to come, closing loses nothing to a closed channel |
| `OperationLog.TickStoresBatch` | `hr-backend/internal/service/operation_log_recorder.go:199-215` | a tick and its insert empty the batch into the table, or into the failed inserts |
| `OperationLog.ConsumerMovesLineOn` | `hr-backend/internal/service/operation_log_recorder.go:183-215` | no step of the consumer loses or reorders anything on its way to the table while inserts succeed |
| `OperationLog.FullBatchGoesOut` | `hr-backend/internal/service/operation_log_recorder.go:193-198` | a received entry joins the batch at its end and exactly the hundredth sends it out |
| `OperationLog.RecordAlone` | `hr-backend/internal/service/operation_log_recorder.go:145-161` | a call alone puts its entry last in the channel, and a full channel gives up its oldest for it |
| `OperationLog.RecordOnClosed` | `hr-backend/internal/service/operation_log_recorder.go:145-161` | on a closed channel the call loses its own entry and nothing else |
| `Evaluator.ConvergeMeaning` | `hr-backend/internal/engine/evaluator/schema.go:47-91` | refused if and only if some wanted dimension's first answer is out of range or too long; otherwise one row per wanted dimension, in order, scored 0 to 100 and 0 when insufficient |
| `Evaluator.OnlyFirstWantedAnswersMatter` | `hr-backend/internal/engine/evaluator/schema.go:47-91` | answers for other codes and repeated answers change nothing |
| `Evaluator.RowsCoverSpecs` | `hr-backend/internal/engine/evaluator/evaluate.go:95-151` | an evaluation yields exactly one row per enabled dimension, and exactly those not asked or not answered are leftovers |
| `Evaluator.LeftoversAreEnabled` | `hr-backend/internal/engine/evaluator/evaluate.go:202-248` | after a success every failed or skipped row of the period belongs to an enabled dimension |
| `Evaluator.OnlyThisPeriodChanges` | `hr-backend/internal/repository/dimension_score.go:67-106` | other people, other period starts and dimensions that are not enabled are untouched, whatever fails |
| `Evaluator.AnsweredOnceIsSettled` | `hr-backend/internal/engine/evaluator/evaluate.go:52-75` | once every dimension was asked about and answered, evaluating again leaves the store unchanged whatever the profiles and the model would now say |
| `Evaluator.TwiceDecides` | `hr-backend/internal/engine/evaluator/evaluate.go:254-320` | the retry counts exactly when the first answer was malformed and nothing was canceled; the deciding call gives the rows or the error code |
| `Evaluator.RowsAreEarned` | `hr-backend/internal/engine/evaluator/evaluate.go:95-186` | every column of the rows an evaluation returns: skip rows without the model, the answer's verdict with redacted rationale, or a failed row with its code |
| `Evaluator.ReusesIff` | `hr-backend/internal/engine/evaluator/evaluate.go:202-248` | stored rows are reused if and only if every enabled dimension has a successful row of this period that the model wrote under the current prompt, and no conversation row of the period failed or was skipped |
| `Evaluator.SkippedIff` | `hr-backend/internal/engine/evaluator/evaluate.go:95-115` | the model is not asked if and only if no profile is valid or the population is automatic clients or a bypassed orchestrator |
| `ProfileSets.FittingIsLongestPrefix` | `hr-backend/internal/engine/evaluator/assemble.go:185-197` | a prefix fits the budget exactly when it is no longer than what is taken |
| `ProfileSets.DigestsCommute` | `hr-backend/internal/engine/evaluator/assemble.go:76-129` | the period statistics do not depend on order |
| `ProfileSets.TablesAddUp` | `hr-backend/internal/engine/evaluator/assemble.go:110-122` | each counter adds up the digests' counters of its name, fingerprints by kind |
| `ProfileSets.SeenMembers` | `hr-backend/internal/engine/evaluator/assemble.go:116-126` | a hash, section or command is seen if and only if some digest has it |
| `ProfileSets.DensityWeighs` | `hr-backend/internal/engine/evaluator/assemble.go:50-60` | what a message, a tool call, a fingerprint and pasted text weigh |
| `ProfileSets.PlainBlockReads` | `hr-backend/internal/engine/evaluator/assemble.go:164-184` | a block without instructions, literally |
| `ProfileSets.BlockReads` | `hr-backend/internal/engine/evaluator/assemble.go:164-180` | what one more instruction adds to a block: its own line, before the behaviour |
| `ProfileSets.SizeIsTextWithoutLabels` | `hr-backend/internal/engine/evaluator/assemble.go:164-184` | the counted size is the text's length without key, labels and line ends |
| `ProfileSets.CandsAreSuccesses` | `hr-backend/internal/engine/evaluator/assemble.go:152-186` | exactly the success digests make blocks, one each |
| `ProfileSets.SizesAddUp` | `hr-backend/internal/engine/evaluator/assemble.go:190-200` | the budget counts every block with its own size |
| `BatchAccounting.OpIsForward` | `hr-backend/internal/repository/assessment_batch.go:240-352` | no step lowers a counter, reopens a final batch or changes an ended person's row |
| `BatchAccounting.FailWholeEndsEveryone` | `hr-backend/internal/repository/assessment_batch.go:305-352` | the bulk failure ends everyone pending and counts the failed rows as they are |
| `BatchAccounting.AdvancesCommute` | `hr-backend/internal/repository/assessment_batch.go:240-271` | calls for different people may arrive in either order |
| `BatchAccounting.EveryReachableDbIsAccounted` | `hr-backend/internal/repository/assessment_batch.go:93-352` | from empty tables on |
| `BatchAccounting.NewBatchIsOpen` | `hr-backend/internal/repository/assessment_batch.go:93-104` | a batch is created running with one waiting row per name and nothing counted, if and only if its id is free and no name repeats |
| `BatchAccounting.SkeletonFillsOnce` | `hr-backend/internal/repository/assessment_batch.go:199-223` | a skeleton takes its list once; a later list is ignored |
| `BatchAccounting.OutcomeStays` | `hr-backend/internal/repository/assessment_batch.go:273-281` | the outcome a running batch is closed with stays over every run |
| `BatchAccounting.DeleteTakesRowsAlong` | `hr-backend/internal/repository/assessment_batch.go:286-301` | deleting removes exactly a running batch with its rows |
| `BatchAccounting.BulkFailureStays` | `hr-backend/internal/repository/assessment_batch.go:305-352` | the bulk failure's reason, cut to 255 characters, stays on the batch and on everyone who was waiting; earlier outcomes stay too |
| `BatchAccounting.EmptyListIsRefused` | `hr-backend/internal/repository/assessment_batch.go:216-219` | an empty list fills nothing |
| `Suggestions.PickMeaning` | `hr-backend/internal/repository/dashboard_query.go:200-259` | a pick is the earliest batch waiting on the rows read, its period was not generating, and a re-pick succeeded and is strictly later than the owner |
| `Suggestions.WaitsIff` | `hr-backend/internal/repository/dashboard_query.go:227-259` | a batch waits if and only if it is finished and scheduled and its period has no row, or a finished row of an earlier batch while it succeeded |
| `Suggestions.CycleShrinks` | `hr-backend/internal/service/suggest.go:96-225` | a tick and the end of its job strictly shrink the set of waiting batches |
| `Suggestions.SettledPeriodsHaveRows` | `hr-backend/internal/service/suggest.go:96-161` | and then every period with a finished scheduled batch has a row |
| `Suggestions.EveryStepMovesRows` | `hr-backend/internal/repository/team_training_suggestion.go:49-175` | a period's row is locked for a batch, kept alive, or ends in a result or a failure; nothing else ever happens to it |
| `Suggestions.BatchSteps` | `hr-backend/internal/repository/assessment_batch.go:93-301` | creating, finishing and deleting change exactly the batch they name |
| `SuggestService.PickIsRun` | `hr-backend/internal/service/suggest.go:96-122` | a tick that picks, with the others in its gaps, is a run of those statements |
| `SuggestService.RetryIsRun` | `hr-backend/internal/service/suggest.go:127-161` | so is a tick that hands a stuck row to the queue again |
| `SuggestService.IdleIsRun` | `hr-backend/internal/service/suggest.go:96-137` | and one that finds nothing to do |
| `SuggestService.MissingBatchFailsRow` | `hr-backend/internal/service/suggest.go:141-150` | if the batch of a stuck row could be gone, its row would be failed and nothing enqueued |
| `Weakness.EpsilonIsExact` | `hr-backend/internal/service/dashboard.go:487-494` | within the bound on head counts the 1e-9 comparison is exact equality and exact order of the averages, rounding included |
| `Weakness.ModerateInHeads` | `hr-backend/internal/service/dashboard.go:487-494` | the bound: a least common multiple of two head counts below 10^9, or at most 999 million with averages rounded to 10^-13; any product up to that will do |
| `Weakness.CompareCanCycle` | `hr-backend/internal/service/dashboard.go:487-494` | beyond the bound the comparator can be cyclic |
| `Weakness.WeaknessSet` | `hr-backend/internal/service/dashboard.go:479-509` | the set computed equals the reference whatever the map order; all dimensions when there are at most two |
| `Weakness.AggregateDimScores` | `hr-backend/internal/service/dashboard.go:444-475` | exactly the dimensions with three counted rows, with their totals and average |
| `Weakness.TotalsIgnoreOrder` | `hr-backend/internal/service/dashboard.go:444-475` | whatever the order of the rows |
| `Weakness.AggregatesCount` | `hr-backend/internal/service/dashboard.go:444-475` | a dimension has an average if and only if three of its rows count; count, low share and sum are those of the rows counted |
| `Weakness.TotalsCount` | `hr-backend/internal/service/dashboard.go:444-475` | the totals count the successful, sufficient rows of the source, add their scores and count those below 60 |
| `SessionWindows.FetchStopsAtShortPage` | `hr-backend/internal/engine/activity/activity.go:137-157` | against any server: every page up to the first short one, in order |
| `SessionWindows.FetchAllSessions` | `hr-backend/internal/engine/activity/activity.go:137-157` | the loop, in at most a hundred calls |
| `SessionWindows.DedupSessions` | `hr-backend/internal/engine/activity/activity.go:176-190` | the loop with its seen map |
| `SessionWindows.FetchWindowDigests` | `hr-backend/internal/engine/activity/activity.go:280-294` | fetched by first turn with lookback, kept by last turn |
| `SessionWindows.AtMostOnePeriod` | `hr-backend/internal/engine/activity/activity.go:280-294` | adjacent periods share no row |
| `SessionWindows.PeriodsPartition` | `hr-backend/internal/engine/activity/activity.go:280-294` | counts per period add up to the number of attributed rows |
| `SessionWindows.DedupKeepsFirsts` | `hr-backend/internal/engine/activity/activity.go:176-190` | of the sessions with one key the first is kept, and the kept ones stay in order |
| `SessionWindows.DedupHasOnlyFirsts` | `hr-backend/internal/engine/activity/activity.go:176-190` | and nothing else is |
| `SessionWindows.WindowKeepsAttributed` | `hr-backend/internal/engine/activity/activity.go:280-295` | the attributed rows are kept, each as often as it was there, and no other |
| `Numbering.NumberBlock` | `hr-backend/internal/repository/question_batch.go:146-185` | the block allocation, which reads each prefix once and then counts up, gives for any table the label of the maximum plus the position within the prefix; `Numbering.BlockIsOneAtATime` makes that the number of a query per question |
| `TaskRepository.Repository.CreateWithLink` | `hr-backend/internal/repository/assessment_test_task.go:164-181` | task, link and reference counts together or none of them; fails exactly when a key is taken; on success the row has the number, type and questions given and the link lives seven days from now |
| `TaskRepository.Repository.ReplaceLink` | `hr-backend/internal/repository/assessment_test_task.go:242-270` | locked re-check, back to pending, old link retired, new link added, or rolled back |
| `TaskRepository.Repository.CompleteTask` | `hr-backend/internal/repository/assessment_test_task.go:381-427` | task, links, grading axis and job commit together; a repeat on a completed task succeeds with no second job; anything else is refused |
| `TaskRepository.Repository.CountActiveByType` | `hr-backend/internal/repository/assessment_test_task.go:309-326` | counts the active tasks of both types |
| `TaskRepository.Repository.ExpirePending` | `hr-backend/internal/repository/assessment_test_task.go:332-376` | with anything committed between the scan and each candidate's transaction: exactly the overdue tasks are tried once, those still pending at their turn are moved, and exactly their numbers reported |
| `TaskRepository.Repository.CreateWithRetry` | `hr-backend/internal/service/assessment_test_task.go:339-368` | ends at the first attempt whose keys are free, at most the third, under the number that attempt read; fails only when all three attempts were lost, and then leaves nothing behind |
| `AnswerService.Service.Context` | `hr-backend/internal/service/answer.go:166-203` | link, task, status, guarded update, questions and replies are read or written one after the other with the others in between |
| `AnswerService.Service.Reply` | `hr-backend/internal/service/answer.go:208-256` | the same for link, task, count and insert |
| `AnswerService.Service.Submit` | `hr-backend/internal/service/answer.go:259-294` | the same for link, task, count, completion and the second look at a task that has moved on |
| `AnswerService.Service.StartSession` | `hr-backend/internal/service/assessment_test_task.go:584-597` | the status read and the guarded update are two statements: an error exactly when the update moved nothing and the status read was not in progress |
| `AnswerService.LoadQuestionItems` | `hr-backend/internal/service/answer.go:320-362` | items in question order, numbered from one, each with its own scenario, requirement and dimension name, or none exactly when a question row is gone |
| `BankRepository.Repository.CreateBatchWithQuestions` | `hr-backend/internal/repository/question_batch.go:146-185` | batch and numbered questions together or neither |
| `BankRepository.Repository.ConfirmBatch` | `hr-backend/internal/repository/question_batch.go:217-267` | guarded batch close, one update per rejected id, one for the rest; returns the true counts |
| `BankRepository.Repository.VoidBatch` | `hr-backend/internal/repository/question_batch.go:272-311` | resubmitted questions fall back, others are deleted |
| `BankRepository.Repository.ResubmitToBatch` | `hr-backend/internal/repository/question_batch.go:316-377` | joins or opens the resubmit batch, or rolls back on a version conflict |
| `BankRepository.Repository.ImportScale` | `hr-backend/internal/repository/scale.go:183-236` | creates its batch if and only if the scale has no live question, a batch number can be issued and no unique key is taken |
| `BankRepository.Repository.FinishCompleted` | `hr-backend/internal/repository/question_generation.go:108-137` | batch, questions and session together if and only if the session runs, a number can be issued and no key is taken; else nothing |
| `BankService.Service.UpdateQuestion` | `hr-backend/internal/service/question.go:350-391` | read, status, text and dimension checks in this order, versioned write, read back; the answer in every case; undisturbed, success leaves the text sent one version on |
| `BankService.Service.ToggleQuestionStatus` | `hr-backend/internal/service/question.go:394-423` | the same for switching; undisturbed, success leaves the status sent |
| `BankService.Service.DeleteQuestion` | `hr-backend/internal/service/question.go:434-457` | the same for deletion, which reads nothing back |
| `BankService.Service.ResubmitQuestion` | `hr-backend/internal/service/question_batch.go:260-290` | the same for resubmission |
| `BankService.Service.ConfirmBatch` | `hr-backend/internal/service/question_batch.go:187-235` | batch read, question read, item and count checks, and the confirm on the tables it then meets, with others in both gaps |
| `SessionFeatures.Repository.ApplyExisting` | `hr-backend/internal/repository/session_feature.go:102-138` | the same for converging on an existing row |
| `OperationLogRecorder.Recorder.Record` | `hr-backend/internal/service/operation_log_recorder.go:145-161` | the nested selects are one send, or send, evict, retry, with anything of the others in between |
| `OperationLogRecorder.Recorder.Select` | `hr-backend/internal/service/operation_log_recorder.go:183-202` | the select of the consumer: a tick makes it flush, else the oldest entry is taken, else a closed channel ends the loop |
| `OperationLogRecorder.Recorder.Handle` | `hr-backend/internal/service/operation_log_recorder.go:183-202` | append, and flush at one hundred |
| `OperationLogRecorder.Recorder.Consume` | `hr-backend/internal/service/operation_log_recorder.go:183-202` | the loop is its own steps interleaved with those of the others, until closed and empty |
| `OperationLogRecorder.LogTable.DeleteBefore` | `hr-backend/internal/repository/operation_log.go:118-126` | deletes at most a thousand rows older than the limit and nothing else |
| `OperationLogRecorder.LogTable.CleanExpired` | `hr-backend/internal/service/operation_log_recorder.go:166-178` | deletes exactly the rows older than 180 days, a thousand at a time, and reports how many; a failing delete keeps what was deleted before it, and which call fails decides the result |
| `EvaluatorService.ValidateAndConverge` | `hr-backend/internal/engine/evaluator/schema.go:47-91` | the map of first answers and the early-exit loop give no rows exactly when a wanted answer is unacceptable, else one row per wanted dimension that reflects its first answer |
| `EvaluatorService.LlmEvaluate` | `hr-backend/internal/engine/evaluator/evaluate.go:254-320` | one retry on a malformed answer, failed rows on other failures, nothing on cancellation |
| `EvaluatorService.ScoreRows` | `hr-backend/internal/engine/evaluator/evaluate.go:95-149` | which rows an evaluation writes |
| `EvaluatorService.Service.ListByPersonPeriodExact` | `hr-backend/internal/repository/dimension_score.go:51-62` | exactly the rows of this person, start and end, each once, in strictly ascending order of their codes |
| `EvaluatorService.Service.IdempotencyCheck` | `hr-backend/internal/engine/evaluator/evaluate.go:202-248` | one pass decides reuse, and deletes leftovers exactly when something forbids it |
| `EvaluatorService.Service.Evaluate` | `hr-backend/internal/engine/evaluator/evaluate.go:52-151` | the whole evaluation with every failing call and with writes of others before its delete and before its save |
| `ProfileBuilder.AggregateWindow` | `hr-backend/internal/engine/evaluator/assemble.go:76-129` | one pass over all digests with maps and sets updated in place |
| `ProfileBuilder.DensityOf` | `hr-backend/internal/engine/evaluator/assemble.go:50-60` | density from the loop over the tool map |
| `ProfileBuilder.Block` | `hr-backend/internal/engine/evaluator/assemble.go:164-184` | block text and the size that counts |
| `ProfileBuilder.Pack` | `hr-backend/internal/engine/evaluator/assemble.go:191-200` | the loop that stops at the first block that does not fit |
| `ProfileBuilder.BuildProfileSet` | `hr-backend/internal/engine/evaluator/assemble.go:149-202` | the whole assembly |
| `ProfileBuilder.FormatCounts` | `hr-backend/internal/engine/evaluator/assemble.go:231-252` | the line of a counter map: the head of the unique ranking, as name=count, joined by commas |
| `ProfileBuilder.RankingIsUnique` | `hr-backend/internal/engine/evaluator/assemble.go:231-252` | counter rankings do not depend on map order |
| `ProfileBuilder.JoinedConcat` | `hr-backend/internal/engine/evaluator/assemble.go:247-252` | joining goes part by part with a comma and a space |
| `ProfileBuilder.ShownIsHead` | `hr-backend/internal/engine/evaluator/assemble.go:243-246` | how much of a ranking a line shows |
| `ProfileBuilder.PartReads` | `hr-backend/internal/engine/evaluator/assemble.go:247-251` | a part shows the name, the sign and the count |
| `BatchRepository.Repository.CreateWithPersons` | `hr-backend/internal/repository/assessment_batch.go:93-104` | batch and rows together; a repeated name rolls both back |
| `BatchRepository.Repository.ExpandTargets` | `hr-backend/internal/repository/assessment_batch.go:199-223` | expands a skeleton once, and rolls back on an empty list, a repeated name or one that has a row already |
| `BatchRepository.Repository.AdvancePersonTerminal` | `hr-backend/internal/repository/assessment_batch.go:240-271` | guarded row update, then increments |
| `BatchRepository.Repository.FailWholeBatch` | `hr-backend/internal/repository/assessment_batch.go:305-352` | fails the pending rows, counts all and the failed ones, writes under the guard or rolls back; reports the counts |
| `DashboardQuery.PendingSuggestBatch` | `hr-backend/internal/repository/dashboard_query.go:227-259` | the two search loops decide what the specification says |
| `DashboardQuery.FindEarliestPendingSuggestBatch` | `hr-backend/internal/repository/dashboard_query.go:200-219` | the first batch in trigger order that passes |
| `DashboardQuery.SortPeriodsDesc` | `hr-backend/internal/repository/dashboard_query.go:88-100` | in-place insertion sort: newest first, a permutation |
| `DashboardQuery.ListPeriods` | `hr-backend/internal/repository/dashboard_query.go:63-85` | the periods of the three tables, each once, strictly newest first |
| `SuggestService.Service.EnsureGenerating` | `hr-backend/internal/repository/team_training_suggestion.go:49-95` | with the others between its find, its creation and its guarded reset, it acts as the indivisible reset at one instant of the call |
| `SuggestService.Service.TickScan` | `hr-backend/internal/service/suggest.go:96-121` | rows read, batches read, row locked, job enqueued, or the oldest stuck row retried, with the others in every gap |
| `SuggestService.Service.RetryStuckGenerating` | `hr-backend/internal/service/suggest.go:127-161` | the reverse loop finds the oldest stuck row among those read; lookup, enqueue and touch follow as separate statements |
| `SuggestService.Service.Generate` | `hr-backend/internal/service/suggest.go:168-225` | a job changes only a row found generating, and writes under the guard |
| `SuggestService.Service.MarkFailedIfExhausted` | `hr-backend/internal/service/suggest.go:250-271` | the last failure marks only a generating row, with the reason cut to its column |

## Left out

- HTTP handlers, routing, configuration, the front end, JSON and prompt texts, cryptography, external clients, time zones and snowflake ids: a token is a unique key, a timestamp an integer, an id a fresh value.
- Integer width: sequence numbers and counters are unbounded; the source's 64-bit overflow is not modelled.
- SQL details: case-insensitive LIKE, the number of changed rows MySQL reports, isolation levels weaker than one atomic transaction, and the automatic update stamp of the ORM, which is taken to set `updated_at` on every guarded write.
- Columns: titles of batches and the names of staff; which dimensions are enabled is a parameter of the services.
- Reference counting: the count a task's creation makes is kept per question id in the task tables; `AddReferences` is its effect on the question rows, where a deleted question is not counted.
- EnsureEnneagramDimensions, SaveProgress, Delete of generation sessions, UpdateTotalSessions and the choice of a batch's final status: one-branch writes with nothing to relate them to.
- TaskRepository.Repository.ExpirePending: database errors that end the loop early with the numbers moved so far.
- Answers.EveryPlayIsSound: two calls on the same task do not overlap; `Answers.ReplyInOrderIff` says what an overlap costs.
- Evaluator.SecondEvaluateReusesIff: the configuration of dimensions is the same in both evaluations, and codes are unique in it.
- EvaluatorService.LlmEvaluate: the two calls to the model, parsing and redaction are parameters; so are the profiles, which the population signature has already classified.
- Suggestions.Settle: ticks and jobs are serialised and the batch table fixed; with late jobs a period can be picked again, which `Suggestions.LateJobReopensIff` describes.
- Weakness.WeaknessSet: averages are reals within a stated rounding error, not floats; beyond the bound on head counts only the small cases are stated, since the comparator is then no order.
- SessionFeatures.Repository.Save: database errors other than a unique violation end the call and are not modelled.
- OperationLogRecorder.Recorder.Consume: operator names are looked up in the source while a row is built; here the row is the entry.
- Population signatures and activity levels, suggestion material, trends, paging of lists and data transfer objects: branches and sums that would add only easy members.
