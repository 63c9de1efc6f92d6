# Verified model of the controller commons

A Dafny model of the parts of this repository that carry state from one call to the next, with
proofs of what they keep. `dafny verify dfyconfig.toml` checks all of it.

One file per module:

- **The reconcile lifecycle.** `Lifecycle` (over `Cluster`, `Conditions`, `Subroutines` and
  `Spread`) is one reconcile run as a function of the stored object, of what the subroutines
  answer, of what everybody else does to the object between any two calls, and of how the API
  server treats each call; `Play` strings runs and interference together into histories. A run
  leaves a trace: every subroutine call, every request, every change of the stored object. The
  theorems are about whole traces. What a run calls, asks for and answers: `Dispatch`, `Answers`,
  `Requeues`, `DeletionEnds`. Finalizers and gates: `FinalizerSafety`, `Teardown`, `Progress`, `Gates`.
  What statuses say: `Reports`, `DeletionReports`, `ReadySoundness`, `ReadyExactness`, `Generations`,
  `Quiescence` and `OrderlyEdits` (over `ConditionOps`). When a run goes to work: `Spreading`,
  `Refresh`, `Rest`, `RestExactness`, `Wakes`. Helper lemmas are in `Frames` and `Finalizers`.
  `Controller` and `ConditionManager` are the same run in the form the source has: an instance
  updated in place, condition slices that share backing arrays, loops over the subroutines. Every
  method there is proved to do what the function of its name in `Lifecycle` (or `Conditions`)
  says, so the theorems hold of the imperative run.
- **The rate limiter.** `RateLimiter` is the static-then-exponential limiter as a class over its
  maps; `RateLimiterLaws` and `StaticPhase` are about sequences of calls on many items, and
  `Schedules` is a step model of concurrent callers.
- **The retrying updates.** `Retry` reads, adjusts, writes and tries again on a conflict, against
  `VersionedServer`: a version-checked server with other writers between any two steps and replies
  that get lost. `NoLostUpdate` says what a caller may rely on, `RetryBudget` how long it is tried.
- **The tuple client.** `TupleClient` (specified by `TupleCalls`, over `TupleService`) with its
  lossy cache: lookups, the filter read, conditional writes. `Lookups` and `TupleLaws` hold the laws.
- **Naming.** `TypeNames` cuts type names to length; `ObjectNames` prints object names and builds
  the parent tuples.

## What is assumed of the outside

- `Get` returns the current object, and the copy the run keeps is deep.
- `Patch` is a JSON merge patch (section 2 of RFC 7396): a list that differs is sent whole, without
  a version check, and the reply replaces the in-memory instance whole, stored status included.
  A label map that became empty is sent as null.
- `Status().Update` checks the version and changes the status only. The server refuses new
  finalizers on a deleting object, and drops a deleting object without finalizers.
- Each call is served, refused untouched, or applied with its reply lost.
- A subroutine may answer anything: any delay (negative too), an error, an operator error around
  nil, and any edits of the conditions and of the application's own status.
- The exponential limiter, the conflict retry, the cache and the tuple service are libraries and
  are modelled by what their interfaces promise: a doubled delay cut off at the maximum; five
  attempts, another one after a conflict only; entries that may vanish at any time; a write that
  is atomic and refuses tuples that are there already, are missing, are repeated or are incomplete.

## Where the obvious claim is false

Each of these comes with the exact condition under which the claim holds.

- An accepted Ready = True is not always about the current generation. It is, in all surroundings,
  exactly when no configured initializer is pending: the patch that takes the initializer off
  reloads the version (`ReadyExactness.ReadyIsCurrentExactlyWhen`).
- Ready = True does not always go with `<name>_Ready` = True: a negative delay passes for success
  and leaves the subroutine's condition alone. On all objects it does exactly when the answers do
  not settle the run with a negative delay among them (`ReadyExactness.ReadyIsCompleteExactlyWhen`,
  with a failed condition beside Ready = True in `ReadyExactness.ReadyBesideFailure`).
- A refresh that ends in a mere requeue is forgotten: the label is taken off all the same
  (`Refresh.RefreshRememberedExactlyWhen`, `Refresh.RefreshThenRequeueIsForgotten`).
- Unfinished work does not always ask to be run again: when the spreader's patch of the refresh label
  is not served, the run answers with neither error nor requeue. On all objects and in all
  surroundings it asks exactly when there is no spreader or a subroutine fails
  (`Requeues.AlwaysComesBackExactlyWhen`; run by run: `Requeues.RequeueIsLostExactlyWhen`).
- An undisturbed deletion run whose subroutines are all settled does not always succeed: it reports an
  error exactly when the configured terminator was still listed on an object that its last finalizer
  patch let go (`DeletionEnds.DeletionEndsInErrorExactlyWhen`).
- The last status of a deletion run does not tell of every finalization: the reply of a finalizer
  patch brings the stored list back, so that all lines written before it in the run are lost, and the
  Ready condition with them unless it was stored (exactly which: `DeletionReports.EveryDeletionReports`).
- Taking the refresh label off does not always leave the labels of others alone
  (exactly when: `Refresh.OtherLabelsStayExactlyWhen`).
- A second run with the same answers does not always write nothing. It does, on all objects and at all
  times, exactly when what the first does to the conditions of each type is in order: it removes them
  in the end, or removes none and sets one status (`Quiescence.SecondRunWritesNothingExactlyWhen`, with
  edits for which it writes again in `OrderlyEdits.EditsThatNeverSettle`).
- A successful run does not always rest: with an initializer pending the reply of the status patch
  brings the old schedule back (`RestExactness.SuccessRestsExactlyWhen`).
- The limiter's answers are monotone exactly when the largest backoff is not below the static
  delay, which its configuration check does not demand (`RateLimiterLaws.MonotoneExactlyWhen`).
- A limiter stamp can move back under concurrency: with two threads or more, and where two first
  calls on the item overlap (`Schedules.StampsHoldExactlyWhen`, `Schedules.StampHoldsWithoutOverlap`,
  `Schedules.OverlapCanLower`).
- The retrying update can lose other people's writes: never exactly for functions that do no harm
  with a stale copy, such as all that keep the version (`NoLostUpdate.NothingLostExactlyWhen`, with
  a function that blanks it in `NoLostUpdate.BlankVersionLosesUpdates`). An error does not mean
  that nothing was written (exactly when: `NoLostUpdate.ErrorMeansNoWrite`).
- A conditional write skips incomplete tuples that match something (exactly when:
  `TupleLaws.WrittenExactlyWhenComplete`, a case: `TupleLaws.IncompleteTupleIsSkipped`).
- A type name may start with an underscore, although the comment in `ConvertToTypeName` means to
  prevent it (exactly when: `TypeNames.StartsWithUnderscoreExactlyWhen`, a case:
  `TypeNames.CutOnADot`).
- An object name cannot always be read back (exactly when: `ObjectNames.ParsePrint`, cases:
  `ObjectNames.SlashesCollide`), and parent tuples may form a cycle (exactly when:
  `ObjectNames.AcyclicExactlyWhen`).

`MarkResourceAsFinal` takes the condition list by value. Its caller sees Ready change only because
Ready is in the list already: an append would be lost (`Controller.MarkResourceAsFinal`,
`ReadySoundness.ConcludeSound`).

## Model

| member | source | states |
|---|---|---|
| Dispatch.EveryCallIsProper | controller/lifecycle/lifecycle.go:203-235 | in every history a terminator is called by Terminate and only in a deletion, an initializer by Initialize and only on a live object, all others by Finalize or Process; every patch asks for finalizers, one gate list or the removal of the refresh label and for nothing else; a read-only manager writes neither finalizers nor status |
| Dispatch.LiveRunCalls | controller/lifecycle/lifecycle.go:96-127 | a run on a live object calls each subroutine once, in list order, by Initialize or Process, up to the first that fails |
| Dispatch.DeletionRunCalls | controller/lifecycle/lifecycle.go:89-100 | a deletion run calls them in reverse order, each at most once, finalizing only where a finalizer was there; if nothing stops it, it passes over no terminator and nobody whose finalizer is still stored |
| Answers.AnswerIsExplained | controller/lifecycle/lifecycle.go:111-192 | the answer of every run, deletions included, in all surroundings, from its trace: the error and delay of a failed subroutine if it may be retried and success if not; else an error for a finalizer or gate patch, or for a status, that did not get through; else nothing for a lost refresh label patch; else the least positive delay that was asked for |
| Answers.ErrorExactlyWhen | controller/lifecycle/lifecycle.go:117-177 | a prepared run reports an error if and only if a patch did not get through, a subroutine failed with a retryable error, or none failed and the status did not get through |
| Answers.SuccessMeansDelivered | controller/lifecycle/lifecycle.go:149-177 | a run that reports no error has got every patch but the refresh label's through, and every status unless a subroutine failed |
| Answers.PreparationIsAnswered | controller/lifecycle/lifecycle.go:69-87 | without a context no subroutine is called and no status sent; the error is handed on if retryable, that of a failed finalizer patch comes first |
| Answers.ReadIsAnswered | controller/lifecycle/lifecycle.go:48-55 | a run that cannot read its object does nothing, and only NotFound is no error |
| FinalizerSafety.FinalizersOutliveWork | controller/lifecycle/lifecycle.go:69-127 | in every history, at every moment, a subroutine that processed or initialized the object and has not finalized it since finds all its finalizers on the stored object |
| FinalizerSafety.NeverVanishesUnfinalized | controller/lifecycle/lifecycle.go:194-247 | the object never disappears while a subroutine with finalizers has unfinalized work on it, even if deletion is marked in mid-run |
| FinalizerSafety.ReconcileSafe | controller/lifecycle/lifecycle.go:30-192 | one run keeps that claim, whatever the subroutines answer, others do or requests meet |
| Teardown.TeardownIsAStack | controller/lifecycle/lifecycle.go:89-127 | with decisive finalizations and no terminators, the finalizers left at any moment of any history are exactly those of a prefix of the subroutine list |
| Teardown.RemovalOrder | controller/lifecycle/lifecycle.go:258-281 | taking the last holder's finalizers off keeps the prefix shape, refused patches and lost replies included |
| Progress.DeletionRunShrinks | controller/lifecycle/lifecycle.go:258-281 | in a run on a deleting object no stored state gains an owned finalizer or reorders the foreign ones |
| Progress.FinalizeStrictlyShrinks | controller/lifecycle/lifecycle.go:213-242 | a finalization that is done and whose patch is served makes the owned finalizers strictly fewer |
| Progress.OneGoodRunReleasesAll | controller/lifecycle/lifecycle.go:203-220 | one deletion run in which every called subroutine is done and every finalizer patch is served leaves no owned finalizer |
| Progress.OwnedNeverGrows | controller/lifecycle/lifecycle.go:425-462 | once deletion is marked owned finalizers never come back, over whole histories |
| Gates.InitializerGate | controller/lifecycle/lifecycle.go:128-161 | the initializers of the stored status change only in a non-deletion run whose subroutines all ended without error and requeue, and then by exactly the configured entry |
| Gates.TerminatorGate | controller/lifecycle/lifecycle.go:149-154 | the terminators change only in a deletion run all of whose calls were settled, by exactly the configured entry |
| Gates.NoSecondPatch | controller/lifecycle/lifecycle.go:283-359 | without the configured entry no status patch is sent again |
| Gates.InitializerGateOpens | controller/lifecycle/lifecycle.go:156-161 | with every subroutine settled and the patch served, the entry does go |
| Gates.TerminatorGateOpens | controller/lifecycle/lifecycle.go:149-154 | so does the terminator's, in a deletion run whose finalizer patches are served too |
| Gates.LoopSettled | controller/lifecycle/lifecycle.go:97-138 | the loop ends without a requeue only if every subroutine it called was settled, and on a live object it calls them all |
| Generations.NeverAheadOfTheSpec | controller/lifecycle/spread/spread.go:62-66 | in every history no stored state is further ahead of its generation than the first was, so never ahead if that was not; every accepted status meets the generation its instance was read at |
| ReadySoundness.ReadyIsSound | controller/lifecycle/lifecycle.go:96-147 | every status a non-deletion run sends with Ready = True comes from a run in which every subroutine ended without error and without asking to be called again, and, where no two subroutines share a name, says so for each that did not answer with a negative delay, at the generation of the run; one condition per type and all foreign conditions are kept |
| ReadySoundness.ReadyIsCurrent | controller/lifecycle/lifecycle.go:361-402 | without a pending initializer an accepted Ready = True is about the generation of the object it is written on, and tells of each subroutine at that generation |
| ReadyExactness.ReadyIsCurrentExactlyWhen | controller/lifecycle/lifecycle.go:322-402 | for every configuration and live object: an accepted Ready = True is current in all surroundings if and only if no configured initializer is pending |
| ReadyExactness.ReadyIsCompleteExactlyWhen | controller/lifecycle/lifecycle.go:128-147 | for all answers of well-behaved subroutines: Ready = True goes with every `<name>_Ready` = True on all objects if and only if the answers do not settle the run with a negative delay among them |
| ReadyExactness.ReadyBesideFailure | controller/lifecycle/lifecycle.go:133-142 | for all such answers with a negative delay, a run that stores Ready = True beside a failed subroutine condition |
| ReadySoundness.ConcludeSound | controller/lifecycle/lifecycle.go:413-423 | concluding a run keeps soundness through a condition slice passed by value |
| Spreading.WorksExactlyWhen | controller/lifecycle/lifecycle.go:61-67 | a run that reads the object goes to work unless there is a spreader, the object is live, its generation is the observed one, the time has not come and the refresh label is missing |
| Wakes.NextRunGoesToWork | controller/lifecycle/spread/spread.go:73-81 | after any history at rest, an edit of the spec or a refresh request, and whatever others do, the next run that reads the object goes to work at any time, and calls the first subroutine if it can prepare |
| Spreading.UnfinishedIsNeverForgotten | controller/lifecycle/spread/spread.go:73-81 | once the generation differs from the observed one or the time has come, every run that reads the object goes to work at every later time: through every history of runs whose answers do not end them for good, and through every other until a status with a new schedule lands |
| Spreading.UnfinishedRunKeepsWaiting | controller/lifecycle/lifecycle.go:117-126 | a run whose answers do not end it, or whose status does not land, leaves the schedule alone, and one that ends in an error leaves the refresh label too |
| Spreading.OnlyFinalRunsReschedule | controller/lifecycle/lifecycle.go:111-147 | a new schedule lands only in a run on a live object whose answers end it for good |
| Refresh.RefreshRememberedExactlyWhen | controller/lifecycle/lifecycle.go:179-188 | after an undisturbed unfinished run asked for by the label, another run goes to work exactly when the spec had changed or the time had come anyway or a subroutine failed |
| Refresh.RefreshThenRequeueIsForgotten | controller/lifecycle/lifecycle.go:179-191 | a concrete run whose requeue is dropped by the spreader because its label is gone |
| Refresh.OtherLabelsStayExactlyWhen | controller/lifecycle/lifecycle.go:180-183 | a label that others add just before survives the label patch if and only if the run has read another label than the refresh label |
| Rest.FinalRunRests | controller/lifecycle/lifecycle.go:117-142 | a final run whose status is accepted stores the generation it worked on and the pause it drew, if no initializer was pending or a subroutine failed |
| RestExactness.SuccessRestsExactlyWhen | controller/lifecycle/lifecycle.go:140-165 | a successful undisturbed run stores them exactly when no configured initializer was pending, and else leaves the old schedule |
| Rest.FinishedWorkRestsThenWakes | controller/lifecycle/spread/spread.go:32-60 | after it, through every history of runs up to the stored time and of changes that concern neither spec, refresh label nor deletion, every run only says when to come back; the first later one goes to work; and the pause lies between half the border and the border, in whole minutes |
| Rest.RestsThroughHistories | controller/lifecycle/lifecycle.go:61-67 | an object at rest stays at rest through all of these histories, and its trace holds changes by others only |
| Rest.PauseBounds | controller/lifecycle/spread/spread.go:32-39 | bounds of the pause for every border of at least two minutes and every draw |
| Rest.EveryPauseIsDrawn | controller/lifecycle/spread/spread.go:32-39 | every whole minute from half the border on, below twice that, is drawn, and different draws below half the border give different pauses |
| Rest.RestingRun | controller/lifecycle/spread/spread.go:41-46 | a run up to the stored time writes nothing and returns the time that is left, and a later one goes to work |
| Requeues.UnfinishedRunComesBack | controller/lifecycle/lifecycle.go:111-139 | in all surroundings a run whose answers end it asks for no requeue, and one whose answers do not ends in an error or a requeue, unless it has a spreader, nobody failed and the label patch meets a fault or no object; a requeue without failure is the least positive delay asked for |
| Requeues.RequeueIsLostExactlyWhen | controller/lifecycle/lifecycle.go:179-191 | undisturbed up to the label patch, an unfinished run answers with neither error nor requeue exactly when the spreader finds the label, no subroutine failed and the patch is not served |
| Requeues.AlwaysComesBackExactlyWhen | controller/lifecycle/lifecycle.go:404-411 | answers that do not end the run lead to an error or a requeue on all objects and in all surroundings if and only if there is no spreader or one of them is a failure |
| Quiescence.SecondRunWritesNothing | controller/lifecycle/lifecycle.go:361-402 | a second undisturbed run with the same answers, if these are in order, sends no request at all, after success, requeue or failure |
| Quiescence.SecondRunWritesNothingExactlyWhen | controller/lifecycle/lifecycle.go:89-142 | for all configurations, answers and generations: a second run writes nothing on every live object, at every time, if and only if per condition type the run removes it in the end or removes nothing and sets one status |
| Quiescence.SecondRunWrites | controller/lifecycle/conditions/conditions.go:40-118 | for all other answers: a second run one second later stores another status |
| Quiescence.StatusIsAFixpoint | controller/lifecycle/conditions/conditions.go:40-118 | for answers in order the status a run computes is a fixpoint of the run at any later time, transition times included |
| OrderlyEdits.OrderlyByTheEdits | controller/lifecycle/conditions/conditions.go:94-118 | for subroutines of distinct names that leave the framework's conditions alone, the answers are in order exactly when for each type the last of their own edits up to the first failure is a removal, or none is and all set one status |
| OrderlyEdits.EditsThatNeverSettle | controller/lifecycle/lifecycle.go:361-402 | removing a condition and setting it anew, or setting it to two different statuses, makes the second run write again |
| Reports.EveryStatusReports | controller/lifecycle/lifecycle.go:96-147 | every status of every run on a live object, in all surroundings: per subroutine the line it had, an error with its text, complete, or processing, and of the resource ready or not, with generation, texts and transition times; of every other condition what the subroutines' edits made of it |
| Reports.SentList | controller/lifecycle/conditions/conditions.go:40-118 | all statuses of such a run carry one list, a function of the answers and of the list found |
| DeletionReports.EveryDeletionReports | controller/lifecycle/lifecycle.go:96-147 | the same for deletion runs: complete, asked again or failed for each finalization after the last finalizer patch, the stored line for each before it, and what becomes of Ready |
| DeletionEnds.DeletionEndsInErrorExactlyWhen | controller/lifecycle/lifecycle.go:149-177 | an undisturbed, settled deletion run reports an error if and only if the configured terminator was listed and the object is gone; a gone object is sent no status |
| DeletionEnds.DeletionIsStored | controller/lifecycle/lifecycle.go:117-177 | whatever the subroutines of an undisturbed deletion run answered, what is left of the object carries that report |
| Conditions.SetThenFind | controller/lifecycle/conditions/conditions.go:40-57 | setting a condition changes what is found for its own type and no other, and keeps the transition time when the status stays |
| Conditions.SetKeepsUnique | controller/lifecycle/conditions/conditions.go:94-118 | one condition per type is kept |
| Conditions.SetIsIdempotent | controller/lifecycle/conditions/conditions.go:94-118 | setting what is there changes nothing, the transition time included |
| Conditions.ConditionNamesDistinct | controller/lifecycle/conditions/conditions.go:83-91 | names of different subroutines, of processing and finalization, and Ready never collide |
| ConditionManager.SetInstanceConditionReady | controller/lifecycle/conditions/conditions.go:40-57 | what the caller's slice and every sharer of its backing array see afterwards |
| ConditionManager.SetInstanceConditionUnknownIfNotSet | controller/lifecycle/conditions/conditions.go:60-66 | a Ready that is there is left alone, else Unknown is appended, sharers see nothing of it, and the answer says which |
| ConditionManager.SetSubroutineConditionToUnknownIfNotSet | controller/lifecycle/conditions/conditions.go:68-81 | the same for a subroutine's condition |
| ConditionManager.SetSubroutineCondition | controller/lifecycle/conditions/conditions.go:94-118 | complete, processing or error, by result and error; `changed` exactly when the list differs |
| Controller.Reconcile | controller/lifecycle/lifecycle.go:30-192 | the in-place run does to the server, and answers, exactly what the value model says |
| Controller.RunSubroutines | controller/lifecycle/lifecycle.go:89-147 | the loop over the subroutines, reversed on deletion, with the fold of the requeues |
| Controller.ReconcileSubroutine | controller/lifecycle/lifecycle.go:194-247 | the verb that is called and what its answer leads to |
| Controller.MarkResourceAsFinal | controller/lifecycle/lifecycle.go:413-423 | the spread fields, and Ready through a slice passed by value: an append is lost |
| Controller.UpdateStatus | controller/lifecycle/lifecycle.go:361-402 | the status is sent only when it differs from the one the run started with |
| Controller.AddFinalizersIfNeeded | controller/lifecycle/lifecycle.go:425-451 | all missing finalizers in one patch, none for a deleting or read-only resource |
| Controller.AddFinalizerIfNeeded | controller/lifecycle/lifecycle.go:453-462 | one subroutine's missing finalizers are appended in order |
| Controller.RemoveFinalizersIfNeeded | controller/lifecycle/lifecycle.go:258-281 | one subroutine's finalizers go in one patch, if any is there |
| Controller.RemoveTerminator | controller/lifecycle/lifecycle.go:283-320 | every occurrence of the entry goes, by a status patch sent only if one was there |
| Controller.RemoveInitializer | controller/lifecycle/lifecycle.go:322-359 | the same for the initializers |
| Controller.DropRefreshLabel | controller/lifecycle/lifecycle.go:179-191 | the label is patched away; a failed patch ends the run without error and without requeue |
| Controller.RemoveRefreshLabelIfExists | controller/lifecycle/spread/spread.go:67-71 | the label is gone, and the answer says whether it was there |
| RateLimiter.Validate | controller/lifecycle/ratelimiter/config.go:22-36 | the accepted configurations, exactly |
| RateLimiter.NewConfig | controller/lifecycle/ratelimiter/config.go:64-72 | the last setting of each field wins, and an untouched field keeps its default of 60, 2, 2 or 1000 seconds |
| RateLimiter.StaticThenExponentialRateLimiter.When | controller/lifecycle/ratelimiter/static_exponential.go:38-57 | the answer and the new state of the item, and no other item moves |
| RateLimiter.StaticThenExponentialRateLimiter.Forget | controller/lifecycle/ratelimiter/static_exponential.go:59-65 | the item is unknown again, and no other item moves |
| RateLimiterLaws.AnswersNeverDecrease | controller/lifecycle/ratelimiter/static_exponential.go:38-57 | in any interleaved history with a clock that never goes back, an item's answers between two Forgets never decrease |
| RateLimiterLaws.MonotoneExactlyWhen | controller/lifecycle/ratelimiter/config.go:22-36 | for an accepted configuration all histories are monotone if and only if the largest backoff is not below the static delay |
| RateLimiterLaws.SharedIsPrivate | controller/lifecycle/ratelimiter/static_exponential.go:38-65 | the shared limiter treats every item as a limiter of its own would |
| RateLimiterLaws.CallsOnOtherItemsChangeNothing | controller/lifecycle/ratelimiter/static_exponential.go:38-65 | histories that agree on one item's calls give it the same answers |
| StaticPhase.StaticThenExponential | controller/lifecycle/ratelimiter/static_exponential.go:38-57 | a spell is static answers for the calls within the window, then the backoffs in order, and the failures are the number of the latter |
| StaticPhase.SharedStaticThenExponential | controller/lifecycle/ratelimiter/static_exponential.go:67-69 | the same in any interleaved history |
| StaticPhase.StaticAnswersAreFew | controller/lifecycle/ratelimiter/static_exponential.go:51-54 | callers that wait get at most window / delay + 1 static answers |
| StaticPhase.StaticBoundIsMet | controller/lifecycle/ratelimiter/static_exponential.go:51-54 | that bound is reached |
| StaticPhase.BackoffDoubles | controller/lifecycle/ratelimiter/static_exponential.go:56-56 | the first backoff is the initial one and every next one twice the one before, both cut off at the maximum |
| StaticPhase.DefaultLimiter | controller/lifecycle/ratelimiter/config.go:15-20 | by default at most 31 answers of two seconds within the first minute, then 2, 4, up to 512 seconds, then 1000 |
| StaticPhase.BackoffIsCutOff | controller/lifecycle/ratelimiter/static_exponential.go:56-56 | the k-th backoff is the doubled initial one cut off at the maximum |
| Schedules.EverySchedule | controller/lifecycle/ratelimiter/static_exponential.go:38-65 | over every interleaving each stamp is the reading of a call answered static, every answer is the one that is due, and the failures count the exponential answers since the last Forget |
| Schedules.ExponentialOnlyAfterTheWindow | controller/lifecycle/ratelimiter/static_exponential.go:51-56 | before every exponential answer some call on the item was answered static more than a window earlier |
| Schedules.UninterruptedCallIsAtomic | controller/lifecycle/ratelimiter/static_exponential.go:38-57 | the four steps of a call that nobody interrupts are the sequential call |
| Schedules.StampsHoldExactlyWhen | controller/lifecycle/ratelimiter/static_exponential.go:39-49 | with n threads, no step of any schedule moves a stamp back if and only if n is at most one |
| Schedules.StampHoldsWithoutOverlap | controller/lifecycle/ratelimiter/static_exponential.go:41-49 | in a schedule in which no two first calls on the item overlap, its stamp never moves back |
| Schedules.OverlapCanLower | controller/lifecycle/ratelimiter/static_exponential.go:41-49 | wherever two of them overlap with different readings, it can |
| RetryBudget.GivesUpExactlyWhen | controller/client/retry.go:12-36 | a conflict is returned if and only if five attempts in a row met one, and every other end comes with the first attempt that met none |
| RetryBudget.SurvivesInterruptions | controller/client/retry.go:12-36 | overtaken by others in each of its first n attempts, n below five, and left alone in the next, the update succeeds with attempt n + 1 |
| Retry.RetryUpdate | controller/client/retry.go:27-36 | the loop does what the attempts say, on the addressed half of the object |
| Retry.RetryStatusUpdate | controller/client/retry.go:16-25 | the same for the status |
| NoLostUpdate.UpdateLandsOnce | controller/client/retry.go:27-36 | against any interference and for every function: at most five attempts, at most one landing, exactly one on success; for one that does no harm with a stale copy it replaces the object stored at that moment by its adjustment |
| NoLostUpdate.NothingLostExactlyWhen | controller/client/retry.go:14-36 | every landing is the adjustment of what it replaces, in all surroundings, if and only if the function makes the same of a stale copy that passes the version check as of the current object |
| NoLostUpdate.IncrementIsNeverLost | controller/client/retry.go:27-36 | a counter moves by what others did plus our own step |
| NoLostUpdate.ErrorMeansNoWrite | controller/client/retry.go:12-25 | on an error nothing of ours landed, exactly unless the reply of the last write was lost |
| NoLostUpdate.BlankVersionLosesUpdates | controller/client/retry.go:33-33 | a function that blanks the version overwrites a concurrent write and succeeds |
| TupleClient.OpenFGAClient.StoreId | fga/client/store.go:36-56 | the cached lookup of a store, by a search for the first of its name |
| TupleClient.OpenFGAClient.ModelId | fga/client/store.go:12-34 | the cached lookup of the first model |
| TupleClient.OpenFGAClient.Read | fga/client/read.go:9-29 | a field that is not given matches anything |
| TupleClient.OpenFGAClient.Exists | fga/client/read.go:31-40 | whether anything matches |
| TupleClient.OpenFGAClient.Writes | fga/client/write.go:9-37 | one write request under the tenant's store and model |
| TupleClient.OpenFGAClient.WriteIfNeeded | fga/client/write.go:47-70 | the loop of questions and the one write of `WriteIfNeeded` |
| TupleClient.OpenFGAClient.DeleteIfNeeded | fga/client/write.go:72-91 | the loop of questions and the one write of `DeleteIfNeeded` |
| Lookups.CacheIsTransparent | fga/client/store.go:12-56 | after any lookups for any tenants, with entries lost and requests failing at any time, a lookup answers as without a cache, and failures are never remembered |
| Lookups.KeysNeverCollide | fga/client/cache.go:5-11 | keys of different tenants, or of a store and a model, differ |
| Lookups.FirstNamedIsFirst | fga/client/store.go:48-53 | the search finds the first store of the name, or there is none |
| TupleLaws.UnionAndDifference | fga/client/write.go:47-91 | for complete tuples success is set union or difference, an error leaves everything alone exactly unless a write was taken and its reply lost, and no other store moves |
| TupleLaws.AllOrNothing | fga/client/write.go:47-91 | for any tuples the store is as wanted or as before |
| TupleLaws.SucceedsExactlyWhenRepeatFree | fga/client/write.go:49-68 | undisturbed, success is exactly that no tuple still to be touched is repeated |
| TupleLaws.RepeatSendsNothing | fga/client/write.go:63-69 | after a success the same call sends no write |
| TupleLaws.DeleteUndoesWrite | fga/client/write.go:72-91 | deleting what was written gives back the store without them, so the former store if it held none |
| TupleLaws.NoStoreNoWrite | fga/client/write.go:11-19 | a tenant without tuples of its own is an error, and nothing is touched |
| TupleLaws.WrittenExactlyWhenComplete | fga/client/read.go:31-40 | a successful call wrote all it was given exactly when every tuple was complete |
| TupleLaws.IncompleteTupleIsSkipped | fga/client/read.go:14-23 | a tuple without a user is skipped because another user has it |
| TypeNames.CapInRangeExactlyWhen | fga/util/util.go:71-80 | the slice is in range exactly for no cap or a cap of at least 8 |
| TypeNames.TypeNameBound | fga/util/util.go:13-19 | 1 to 42 characters, relations of at most 50, no dot and no capital |
| TypeNames.NameKeepsTheEnd | fga/util/util.go:44-62 | the name is the end of the full normalised name, all of it when it fits |
| TypeNames.NormalisedAlikeExactlyWhen | fga/util/util.go:55-59 | two names are normalised alike if and only if they differ in the case of letters, or in dot against underscore, only |
| TypeNames.StartsWithUnderscoreExactlyWhen | fga/util/util.go:52-53 | a leading underscore remains exactly when the cut leaves a dot, or an underscore before a dot or underscore |
| TypeNames.CutOnADot | fga/util/util.go:49-56 | a group for which it does |
| ObjectNames.ParsePrint | fga/model/model.go:25-31 | a name can be read back if and only if its parts are readable: no separator inside the part it ends |
| ObjectNames.NamesAreDistinct | fga/model/model.go:19-31 | no two objects with readable parts share a name, namespaced or cluster-scoped |
| ObjectNames.SlashesCollide | fga/model/model.go:25-31 | every cluster-scoped name with a slash after a nonempty part is also the name of a namespaced object |
| ObjectNames.AcyclicExactlyWhen | fga/model/model.go:58-106 | for any account the parent tuples are acyclic exactly when the resource is cluster-scoped or the account is neither it nor its namespace |
| ObjectNames.AccountIsReached | fga/model/model.go:41-76 | the account is reached in no, one or two steps, an empty account is an error, and from the targets of the tuples namespace and resource are read back: type, cluster, namespace and name |
| ObjectNames.TuplesOfADeployment | fga/model/model.go:58-106 | the two tuples of a namespaced deployment, spelled out |
| ObjectNames.AccountIsTheTop | fga/model/model.go:41-57 | below a cluster-scoped account that is no namespace no object has two parents and the account none |

## Left out

- Logging, tracing, error reporting and context keys: no effect on the state modelled.
- The manager and builder wiring; the theorems on finalizers, quiescence and refreshes take a
  manager that is not read-only, which the wiring demands wherever conditions or spreading are on.
- Conversion to unstructured objects and JSON; the status is a record, with one integer standing
  for the application's own fields.
- Times cut to seconds when stored, and several clock readings within a run: one reading a run.
- The random draw of the pause is a parameter. A border below two minutes, for which the generator
  panics, is modelled as a pause without jitter, and the bounds are stated from two minutes on.
- Floating-point rounding in the pause and in the backoff: exact integers.
- Reads from a stale informer cache: `Get` returns the current object.
- Subroutines edit conditions and data of the instance's status; edits of other parts of the
  in-memory object, and subroutines whose finalizer list changes between calls, are not modelled.
- Controller.ReconcileSubroutine: the answer of a subroutine is an input of the run, so a
  subroutine's own writes to other objects are not modelled.
- ReadySoundness.ReadyIsSound: takes subroutines that leave the framework's own conditions alone.
- Quiescence.SecondRunWritesNothing: takes no spreader, no pending initializer and runs nobody disturbs.
- Retry.RetryUpdate: the waits between attempts are not modelled; the caller's function is a
  function of the object it is handed, and what it does to it in place is not.
- Lookups.CacheIsTransparent: takes a service whose list of stores and models stays the same; a
  store that is replaced under the same name is seen only when its cache entry goes.
- TupleClient.OpenFGAClient.Read: pages, and the service's own demands on filters, are not modelled;
  the answer is the set of all matching tuples.
- TypeNames.TypeNameBound: characters are the bytes of an ASCII string; lower-casing beyond ASCII
  is not modelled.
- Schedules.EverySchedule: the write lock is taken as exclusive, starvation and fairness are not modelled.
- The checks, the queries and the builders around the client, policy services, the tenant store
  service and its helpers: near copies or plumbing, nothing harder.
- The error stack search of the errors package, HTTP middleware, token parsing, directives, OAuth
  and GraphQL helpers.
- Mocks and test support.
