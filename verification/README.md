# es-snapshot-restore: a verified model

The service restores Elasticsearch indices from snapshots. A request names tasks; for each one the
handler writes a row and a `RestoreTask` resource; a reconciler makes room on a restore node of the
Elasticsearch cluster and puts the task into a bounded queue; dispatchers take tasks out of it and,
within a semaphore, start workers that restore the index, poll its recovery and write the outcome to
the row and to the resource. Beside it stand an older state machine on StatefulSet annotations, the
arithmetic of storage sizes, and a cache of indices and snapshots that cron jobs fill and handlers
query over a time window.

The project models these four parts and proves what they keep over all inputs and all runs.

| file | what it is about |
|---|---|
| `Decimals`, `SizeText` | decimal text; the reader `ToGB`, the `%fGi` printer, the total of a list of sizes |
| `Quantities` | the same texts as Kubernetes quantities, and where the two readers part |
| `SizeLaws` | what both readers make of any text, the published text, totals |
| `NodeSets`, `NodeEdits`, `NodeLabels` | adding, deleting and sizing node sets; concurrent get and patch; the shared label map |
| `Polling` | one restore worker |
| `TaskPool` | queue, dispatchers, semaphore and workers |
| `Pipeline`, `PipelineParts` | the whole restore pipeline as a step system, and what each kind of step leaves alone |
| `PipelineSafety`, `PipelineDone`, `PipelineRuns`, `PipelineProgress` | what each step keeps, and what then holds in every run |
| `PipelineLaws` | the order of the queue, when sends, receives and starts are blocked, how far a call gets |
| `PipelineOnce`, `PipelineTwice` | one send for each event, so one worker for each row; when a second one overwrites a stored success |
| `PipelineArrivals`, `PipelineStorage`, `PipelineOwner` | new tasks; when some run shrinks storage or sends what it has no room for; when some run sends anything |
| `Service` | the handler, the body of `Reconcile` and the status write as methods, and the steps they amount to |
| `Annotations`, `AnnotationRuns` | the annotation state machine: its code, and what its runs keep |
| `AnnotationPatches`, `AnnotationCounts` | patches that hit another task than the one read; runs and tasks per object, stranded writes |
| `AnnotationLaws` | outcomes, noticed events and the order of the queue, over its runs |
| `TimeText`, `IndexCache` | stored times; the cache tables and their history |
| `QueryText`, `Slices`, `WindowQuery` | the query text that is built, Go's `append` on a shared buffer, and the window query |
| `QueryLaws` | which names a query selects, its SQL text, and the order of its rows |
| `RestoreNames` | the names restored indices get |
| `Folds`, `Names`, `Wrappers` | sums and unions over sequences; first and last of a name; `Option` and `Result` |

Methods on classes follow the code where it changes state in place; each is proved against a
function, and the lemmas are about that function or about runs of the step systems. What the code
does not decide itself (answers of the API server, the database and Elasticsearch, the ready case a
`select` takes, who runs next) is a parameter of a method or of a step, so a statement about all runs
is one about all such choices.

## Where the code departs from its intent

The model follows the code. Where a fault would hide everything behind it, the repair is a parameter,
and results that need it say so.

- Resize (`internal/controller/controller/restoretask_controller.go:256`): `%s` on a float makes the
  quantity parser panic. `ResizeCode` is `AsWritten` or `Repaired`; the repair stores the request's own
  size text. `NodeSets.AsWrittenKeepsFirstSize` tells what the code does instead, and
  `NodeSets.SixPlaceResizeMayFallShort` and `NodeSets.SixPlacesLoseBytes` why `%f` alone would not
  repair it.
- Owner test (`internal/controller/controller/restoretask_controller.go:273-279`): it turns away the
  StatefulSets that Elasticsearch owns. `Code.ownerFixed`. As written nothing is ever sent where
  Elasticsearch owns what is found (`PipelineOwner.NothingIsEverSent`); what is proved about sent
  tasks is about the repaired test, or about StatefulSets nobody owns.
- Queue entries (`internal/controller/controller/restoretask_controller.go:286-289`) carry no resource
  name, so the status write looks up the empty name. `Code.keyFixed`.
- Status is written with a plain update although the resource has a status subresource
  (`internal/controller/controller/restoretask_controller.go:98`, `:204`), so nothing is stored.
  `Code.statusFixed`. `PipelineRuns.DoneResourceIsReal` states both sides: without the two repairs
  no resource ever has a status.
- Of the status Reconcile looks at the start time alone
  (`internal/controller/controller/restoretask_controller.go:197-292`), so every repeated event, and every
  second resource of a row, sends a task again although it is finished, and its worker can overwrite a
  stored SUCCESS. `PipelineTwice.SuccessIsLostExactly`; with one resource for a row and one event for a
  resource it stays (`PipelineOnce.DoneStaysStored`).
- A row count other than one ends the worker without an error
  (`internal/controller/controller/restoretask_controller.go:111-114`). Modelled as it is;
  `PipelineRuns.DoneIsReal` proves that the pipeline never gets there.
- `index` is an unquoted column name (`internal/controller/controller/restoretask_controller.go:105`).
  The lookup is modelled as it is meant.
- The worker polls the recovery of the original index name, while the index is restored under
  another one. `RestoreNames.PolledNameIsNotTarget`. "100%" in the results is what that poll reads.
- Restore key and repository go into the request as they are (`internal/elastic/es.go:189-192`), where JSON
  and the rename replacement have characters of their own: `RestoreNames.RenameYieldsTarget`.
- A failed creation of the resource lists its task as failed and as successful
  (`internal/http/handler.go:395-402` has no `continue`). `Service.ReplyByPosition` states which
  requests are listed where, `Service.ListedTwice` shows one that is listed twice.
- Node sets and annotations are read in one request and patched in another, without a version check.
  Two edits that overlap cannot both land (`NodeEdits.NothingIsLostExactly`), so two Reconcile
  goroutines can drop each other's nodes (`PipelineStorage.StorageShrinksExactly`); a
  worker can finish, and Reconcile can overrun and lose, a task written in between
  (`AnnotationPatches.WorkerPatchHitsOtherTask`, `AnnotationPatches.OverrunIsNeverStarted`).
- The update filter passes over an object that had no annotations before
  (`internal/controller/controller.go:146`), so the first write to it is not noticed:
  `AnnotationLaws.WriteIsNoticedExactly`.
- The names of a query are joined with OR without parentheses (`internal/http/utils.go:37`).
  Modelled as it is; `QueryText.QueryMeansIntendedForOneName` tells exactly when it matters.
- `NewTimeString` returns on the first layout that fails, so only RFC 3339 is ever tried
  (`internal/db/string_time.go:64-70`), although four layouts are listed.
- Suffixes are read two ways: `ToGB` takes every unit as a power of 1024 and ignores case, so that `m`
  is mebi, while quantities know decimal suffixes and `m` as milli.

## Model

| member | source | states |
|---|---|---|
| SizeText.SplitFindsTheMatch | internal/utils/utils.go:44-50 | The deterministic split of a trimmed size text yields numeral and unit exactly when the text matches number, blanks, letters in some way, so the match is unique |
| SizeText.PrintedSizeReadsBack | internal/utils/utils.go:43-78 | For every total that is not negative, reading the printed text gives exactly its value rounded to six places |
| SizeText.SizeRoundTrip | internal/http/handler.go:56-64 | Print and read is off by at most half a millionth, exact if and only if the total is a multiple of a millionth, and monotone |
| SizeText.TotalOfPermutation | internal/db/utils.go:10-25 | The total does not depend on the order of the rows |
| SizeText.StoreSize | internal/db/utils.go:10-25 | The loop sums every readable size and passes over the others |
| SizeText.PublishStoreSize | internal/http/handler.go:104-120 | The published text reads as the six places of the sum or of the configured minimum, and as no less than either |
| SizeText.PublishedNeverBelowMinimum | internal/http/handler.go:56-64 | Nothing below the configured minimum is ever published, if and only if that minimum is negative or its six places do not round it down |
| SizeLaws.WholeNumerals | internal/utils/utils.go:57 | A digit is its own value, and a further one adds itself to ten times what stood before it |
| SizeLaws.PointMoves | internal/utils/utils.go:57 | Moving the decimal point one digit to the right makes ten times as much; a point at the end does nothing |
| SizeLaws.NumeralsAre | internal/utils/utils.go:57 | A text has a value if and only if it is digits with one point at most, and one digit at least |
| SizeLaws.SizesRead | internal/utils/utils.go:43-78 | Any numeral, white space and unit, white space around them, is read as numeral times unit: b, k, m, g, t, p in either case, alone or with b or i behind, are 1, 1024, 1024^2 ... bytes, in units of 2^30; any other unit is unknown, a numeral without value bad |
| SizeLaws.OtherTextsRefused | internal/utils/utils.go:44-53 | Every text that is not made so, and no other, cannot be parsed |
| SizeLaws.QuantitiesRead | internal/k8s/client.go:145-148 | A quantity is the least whole bytes covering its numeral times its suffix: n, u, m, none, k, M, G, T, P, E a thousand times the one before, Ki to Ei 1024 times; with any other suffix it is none |
| SizeLaws.TotalsAdd | internal/db/utils.go:10-25 | The total of no texts is nothing, of one what it reads as, or nothing if it cannot be read, and of two lists the sum |
| SizeLaws.PublishedText | internal/http/handler.go:63 | A published text is a whole part without leading zeros, a point, six digits and "Gi" |
| SizeLaws.TiesGoToEven | internal/http/handler.go:63 | Of two equally near values of six places the even one is printed |
| Quantities.ReadByBothExactly | internal/utils/utils.go:43-78 | `ToGB` and the quantity parser both take a text if and only if it is a decimal with one of the shared suffixes |
| Quantities.BinarySizesReadBack | internal/k8s/client.go:145-148 | A binary size stored and read back covers the request by less than one byte: the stored bytes are the least number that does |
| Quantities.ReadersAgreeExactlyOnBinary | internal/controller/controller/restoretask_controller.go:245-252 | From one unit up, the next pass asks for a resize if and only if the suffix is not binary |
| Quantities.ReadersAgreeInBytes | internal/controller/controller/restoretask_controller.go:245-252 | Of any size at all, if and only if the bytes `ToGB` reads, rounded up, are more than those stored |
| Quantities.GrowingIs | internal/controller/controller/restoretask_controller.go:252-258 | One comparison of the two readings tells whether a repaired resize to the size could ever make some claim smaller |
| Quantities.PublishedSizeIsStored | internal/http/handler.go:61-64 | Every published text is a binary size, stored as the least whole bytes covering its six places |
| Quantities.CatSizeIsNoQuantity | internal/k8s/client.go:147 | A decimal with any unit the cat API prints is read by `ToGB` but is no quantity |
| Quantities.MilliIsReadTwoWays | internal/utils/utils.go:67-68 | A decimal with "m" is mebibytes for one reader and thousandths of a byte for the other |
| NodeSets.ReconcileNode | internal/controller/controller/restoretask_controller.go:223-264 | The node step creates the node or grows its claim exactly as `EnsureNode` says, sends a patch if and only if the list changes, and leaves the cluster alone on every error |
| NodeSets.NewRestoreESNode | internal/http/utils.go:210-228 | Adds the new node set behind the others exactly when the size is a quantity and read and patch succeed, else changes nothing and reports why |
| NodeSets.DeleteRestoreESNode | internal/http/utils.go:230-253 | Leaves exactly the node sets of other names, in order, or on a failed read or patch changes nothing and reports it |
| NodeSets.DeletedExactly | internal/http/utils.go:236-245 | What is left are the node sets at the positions of other names, each once and in order |
| NodeSets.AddThenDelete | internal/http/utils.go:210-253 | Adding a node set and deleting its name is the identity if and only if the name was absent |
| NodeSets.ComparedAsBytes | internal/controller/controller/restoretask_controller.go:245-252 | For binary sizes the comparison in gibibytes is the comparison of whole bytes |
| NodeSets.NewNodeHoldsPublishedSize | internal/k8s/client.go:134-150 | A node made for a published size holds that size, by less than a byte more |
| NodeSets.SixPlacesLoseBytes | internal/http/handler.go:63 | They do: a size at which six places lose more than 400 bytes |
| NodeSets.EnsureTakesLarger | internal/controller/controller/restoretask_controller.go:227-263 | With the repaired resize an existing node, wherever it stands, ends with the larger of its storage and the request, and nothing else changes |
| NodeSets.EnsureWorksExactly | internal/controller/controller/restoretask_controller.go:235-263 | The node step works for a new node if and only if its size is a quantity; for one that is there if and only if it has a claim, the size can be read, and, where that is more than the claim, the resize is repaired and the size a quantity |
| NodeSets.NodeSizingIsMax | internal/controller/controller/restoretask_controller.go:223-264 | Any list of binary tasks for a new node leaves exactly one node of that name, with the maximum requested, and all others in place |
| NodeSets.MaxBytesIsLargest | internal/controller/controller/restoretask_controller.go:252 | That maximum is one of the requests and none is larger |
| NodeSets.NodeSizingIsOrderIndependent | internal/controller/controller/restoretask_controller.go:223-264 | Any permutation of the tasks gives the same node sets, and reconciling one of them again changes nothing |
| NodeSets.AsWrittenKeepsFirstSize | internal/controller/controller/restoretask_controller.go:252-258 | As written the node keeps the size of its first task, and a task fails if and only if it asks for more |
| NodeSets.EnsureSeesEnough | internal/controller/controller/restoretask_controller.go:235-264 | For a covering size the storage read or written covers the request; on a new node, only for such a size |
| NodeSets.EnsureCoversRequest | internal/controller/controller/restoretask_controller.go:235-264 | For a binary size the storage read or written covers the request, and the node is there |
| NodeSets.EnsureShrinksExactly | internal/controller/controller/restoretask_controller.go:235-264 | For every size text: as written no claim gets smaller; repaired, if and only if the node is new, is not grown, or grows to at least what it had |
| NodeSets.EnsureNeverShrinks | internal/controller/controller/restoretask_controller.go:252-263 | So as written no size, and repaired no growing size, ever makes a claim smaller |
| NodeEdits.DraftsAreReads | internal/http/utils.go:210-253 | After any interleaving a writer holds the list of its last read and the edit it then meant |
| NodeEdits.LastPatchDecides | internal/http/utils.go:217-220 | After any interleaving the server's list is the edit of the last accepted patch that changes something, applied to the list its writer had read |
| NodeEdits.SurvivingEditsDecide | internal/http/utils.go:210-253 | So the list is made by the edits along the chain of such patches, each effective before the next one's read, one after the other, and by no others |
| NodeEdits.NothingIsLostExactly | internal/http/utils.go:210-253 | After any interleaving of any writers, accepted and refused patches, every patch that changed something still counts, if and only if no two such patches overlap, the later read before the earlier was applied |
| NodeEdits.AllEffectiveEditsLand | internal/http/utils.go:210-253 | The list then is all those edits, made one after the other |
| NodeEdits.EditsOneAtATimeAllLand | internal/http/utils.go:210-253 | After whatever went before, with whatever reads still open from it, reads each followed by their own patch, of any writers, lose none of the accepted edits |
| NodeEdits.OverlappingEditIsLost | internal/controller/controller/restoretask_controller.go:217-243 | Of any two patches that changed something and overlap, at least one is lost |
| NodeEdits.FirstOfTwoIsLost | internal/controller/controller/restoretask_controller.go:217-243 | When two writers read before either patches, the edit patched first is always lost |
| NodeEdits.EmptyPatchDoesNothing | internal/http/utils.go:217-220 | A patch that changes nothing of what its writer read leaves the list as it is by then |
| NodeEdits.EditTells | internal/http/utils.go:210-253 | An edit adds, deletes or ensures its own node and leaves every other one as it is |
| NodeEdits.LastEditDecides | internal/http/utils.go:210-253 | After edits in turn a node is there as the last edit of it says, and without one as before |
| NodeLabels.NewDrafts | internal/k8s/client.go:68-69 | Of several node sets built before any is sent, all carry the instance label of the last, since they share the configured map |
| Polling.TaskTable.RestoreIndices | internal/controller/controller/restoretask_controller.go:104-182 | The worker's loop leaves the table and ends as the first deciding turn alone determines |
| Polling.UndecisiveTurnsDoNotMatter | internal/controller/controller/restoretask_controller.go:146-171 | Read errors, empty answers, partial recoveries and failed success writes can be inserted anywhere without changing table or outcome |
| Polling.DecidedStaysDecided | internal/controller/controller/restoretask_controller.go:162-180 | Nothing after the deciding turn matters |
| Polling.NoErrorMeans | internal/controller/controller/restoretask_controller.go:104-182 | The worker ends without an error if and only if the row count was not one, or the restore started and a turn read "100%" first and stored SUCCESS before any timeout |
| Polling.RowTellsOutcome | internal/controller/controller/restoretask_controller.go:118-180 | Only the task's own row changes, and its status tells how the worker ended, as far as that could be stored |
| Polling.OutcomesAre | internal/controller/controller/restoretask_controller.go:104-182 | Which way the worker ends, for each: a failed lookup, a failed start, a timeout before any stored success, or no deciding turn; without exactly one row the table stays |
| TaskPool.RestorePool.Enqueue | internal/controller/controller/restoretask_controller.go:286-289 | A send succeeds if and only if the buffer has room and appends one new task |
| TaskPool.RestorePool.Dispatch | internal/controller/controller/restoretask_controller.go:69-74 | A waiting dispatcher exits when its context is chosen; else it takes the first task of the queue and leaves the rest in order |
| TaskPool.RestorePool.StartTask | internal/controller/controller/restoretask_controller.go:74-83 | A held task gets a worker if and only if the semaphore has a slot, which it occupies |
| TaskPool.RestorePool.FinishTask | internal/controller/controller/restoretask_controller.go:76 | The deferred receive never blocks and frees one slot |
| TaskPool.InvAcquire | internal/controller/controller/restoretask_controller.go:74 | Taking a slot keeps the bounds, the slot count and the place of every task |
| TaskPool.InvRelease | internal/controller/controller/restoretask_controller.go:76 | A worker that has reported finds a slot to free, and freeing it keeps them too |
| TaskPool.EachTaskInOnePlace | internal/controller/controller/restoretask_controller.go:67-87 | Every task sent is queued, held, running or finished, in one of these and once |
| TaskPool.OneWorkerPerTask | internal/controller/controller/restoretask_controller.go:73-83 | No two workers are ever started for one queued task |
| PipelineSafety.RowsFirstStep | internal/http/handler.go:352-395 | Every step keeps: rows are distinct, and each resource, call and queued task has its row in the table already |
| PipelineSafety.KeysAreDroppedForCause | internal/controller/controller/restoretask_controller.go:197-292 | A key leaves queue and calls only when its resource is gone or its task was sent |
| PipelineSafety.StorageSeenStep | internal/controller/controller/restoretask_controller.go:235-264 | Every step keeps: what a call past the node step saw covers its request |
| PipelineDone.WorkersOkStep | internal/controller/controller/restoretask_controller.go:104-182 | Every step keeps: each worker is on the row of its own task, has made only undecided turns while polling, and succeeds only with proof |
| PipelineDone.SuccessStoredStep | internal/controller/controller/restoretask_controller.go:162-170 | Every step keeps: a success that no other worker could overwrite is in the table |
| PipelineDone.StatusTrueStep | internal/controller/controller/restoretask_controller.go:89-102 | Every step keeps: a resource is done only if a worker of its own succeeded |
| PipelineRuns.PoolIsSafe | internal/controller/controller/restoretask_controller.go:67-87 | In every reachable state running workers and queue are within their limits, the semaphore counts the running workers, dispatchers hold one task at most, and each task sent is in exactly one place |
| PipelineLaws.TasksAreReceivedInOrder | internal/controller/controller/restoretask_controller.go:73 | In every reachable state the queue is the last sends in the order of their sends, every held, running or finished task was sent before all of them, and the next receive gets the oldest |
| PipelineLaws.SendBlocksExactly | internal/controller/controller/restoretask_controller.go:286-289 | A send goes on if and only if the buffer has room, or is empty and a dispatcher is waiting |
| PipelineLaws.DispatcherBlocksExactly | internal/controller/controller/restoretask_controller.go:69-76 | In every reachable state a waiting dispatcher receives if and only if something is queued, exits if and only if its context can be cancelled, and a held task starts if and only if fewer workers than configured have not freed their slot |
| PipelineLaws.DispatchersStay | internal/controller/controller/restoretask_controller.go:69-74 | No step makes a dispatcher watch another context, and one is gone only once its own was cancelled |
| PipelineLaws.CallGoesOnExactly | internal/controller/controller/restoretask_controller.go:197-292 | A Reconcile call goes on if and only if its request succeeds; otherwise its key comes back, unless its resource was gone or its task sent |
| PipelineLaws.PatchIsWhole | internal/controller/controller/restoretask_controller.go:217-263 | A patch replaces the node sets by its own plan if and only if the plan changes something and the patch is accepted |
| PipelineRuns.DoneIsReal | internal/controller/controller/restoretask_controller.go:77-82 | In every reachable state a worker that reports success belongs to a task with exactly one row, its last turn and no earlier one read "100%" and stored SUCCESS, and unless another worker had the same task id and index that row still says SUCCESS |
| PipelineOnce.SendsAreNoticed | internal/controller/controller/restoretask_controller.go:197-292 | In every run a resource is sent at most once for each of its events |
| PipelineOnce.DoneStaysStored | internal/controller/controller/restoretask_controller.go:104-182 | In every run with at most one resource for each row and one event for each resource, the task of every worker that has succeeded has exactly one row, and that says SUCCESS |
| PipelineTwice.SuccessIsLostExactly | internal/controller/controller/restoretask_controller.go:197-292 | Within given numbers of resources for a row and events for a resource, some run loses a stored SUCCESS if and only if two events of one resource or two resources of one row are allowed, and somebody reconciles, a slot and a poll exist |
| PipelineTwice.SecondEventOverwrites | internal/controller/controller/restoretask_controller.go:283-289 | A run from the start in which a second event of the one resource ends with a succeeded worker and a row that does not say so |
| PipelineTwice.SecondResourceOverwrites | internal/controller/controller/restoretask_controller.go:283-289 | Another with two resources of one row and one event each |
| PipelineRuns.DoneResourceIsReal | internal/controller/controller/restoretask_controller.go:89-102 | A done resource has such a worker; without the repairs of key and status write no resource has a status |
| PipelineRuns.NoTaskIsLost | internal/controller/controller/restoretask_controller.go:197-292 | In every reachable state a resource that exists and whose event arrived is pending, in a call, or was sent |
| PipelineRuns.SentTasksHaveStorage | internal/controller/controller/restoretask_controller.go:235-289 | In every reachable state a task sent with a covering size, one whose stored bytes are no less than what `ToGB` reads, and so with any binary one, had seen at least that storage on its node |
| PipelineStorage.SentTasksFallShortExactly | internal/controller/controller/restoretask_controller.go:235-289 | Some run asking for given sizes sends a task that had seen less than `ToGB` reads its size as, if and only if somebody reconciles and some size is not covering |
| PipelineStorage.SentTasksKeepStorage | internal/controller/controller/restoretask_controller.go:217-289 | With one Reconcile goroutine, no other writer and growing sizes, or the resize as written, every task sent has its node, with at least the storage it had seen, in every later state |
| PipelineStorage.StorageNeverShrinks | internal/controller/controller/restoretask_controller.go:235-264 | With one Reconcile goroutine and no other writer no run lowers a claim or drops a node set, as written for all sizes, repaired for growing ones |
| PipelineStorage.BinaryStorageNeverShrinks | internal/controller/controller/restoretask_controller.go:235-264 | So, written or repaired, for all binary sizes, such as the handlers publish |
| PipelineStorage.StorageShrinksExactly | internal/controller/controller/restoretask_controller.go:217-263 | Some run without other writers does, from an empty start and asking for given sizes, if and only if two goroutines reconcile and some size is a quantity, or one does, the resize is repaired and some size is not growing |
| PipelineStorage.TwoCallsDropANode | internal/controller/controller/restoretask_controller.go:235-243 | Two goroutines, two new nodes: a run from the start in which the second patch drops the first one's node |
| PipelineStorage.StalePlanShrinks | internal/controller/controller/restoretask_controller.go:245-263 | Two goroutines, one node: a run from the start in which the plan for the smaller size undoes the larger one |
| PipelineOwner.NothingIsEverSent | internal/controller/controller/restoretask_controller.go:273-289 | As written, in every run in which each StatefulSet checked is missing or owned by Elasticsearch, no task is sent and no worker ever starts |
| PipelineOwner.OwnerTestDecides | internal/controller/controller/restoretask_controller.go:266-289 | Some run sends a task if and only if some check is answered with a ready StatefulSet that, as written, Elasticsearch does not own, or, repaired, that it does |
| PipelineProgress.CarryingStep | internal/controller/controller/restoretask_controller.go:67-87 | Every send, receive, exit, start and worker step strictly lowers a measure of the work left |
| PipelineProgress.CarryingIsBounded | internal/controller/controller/restoretask_controller.go:138-181 | A run takes no more such steps than the work it began with and a fixed amount for each StatefulSet check |
| PipelineProgress.NeverStuck | internal/controller/controller/restoretask_controller.go:69-85 | While a send is blocked or a task queued, held or running, some step that moves a task is enabled |
| PipelineProgress.NoDeadlock | internal/controller/controller/restoretask_controller.go:374-382 | So in every run with a slot and one dispatcher whose context lives on, for any queue size and after all others have exited |
| PipelineProgress.MovingRunsEnd | internal/controller/controller/restoretask_controller.go:67-87 | From every such state a sequence of moving steps is no longer than the work left, and one that cannot be extended leaves nothing sending, queued, held or running |
| PipelineProgress.EverythingCanBeFinished | internal/controller/controller/restoretask_controller.go:67-87 | And there is one |
| PipelineProgress.NoSlotNoWorker | internal/controller/controller/restoretask_controller.go:343-344 | With a semaphore of size zero no worker ever starts and a received task stays with its dispatcher for good |
| Service.Cluster.RestoreViaCR | internal/http/handler.go:347-403 | The loop stores a row and then a resource per task, in order, and lists the task ids at the positions `SucceededAt` and `FailedAt` |
| Service.ReplyByPosition | internal/http/handler.go:359-410 | A request is listed in both lists if and only if its row was stored and its resource not created; listed as successful alone, row and resource are there afterwards as asked for |
| Service.ReplyOnFreshRequests | internal/http/handler.go:351-410 | Of fresh requests, listed as successful alone if and only if they are there, and if and only if row and resource were accepted |
| Service.ListedTwice | internal/http/handler.go:395-402 | One stored and not created task is listed as successful and as failed |
| Service.RequestsAreSteps | internal/http/handler.go:351-403 | Requests with fresh pairs and names are a run of the pipeline, each row before its resource, leaving all else alone |
| Service.Cluster.Reconcile | internal/controller/controller/restoretask_controller.go:197-292 | The body of Reconcile changes resources and node sets and ends as `Reconciled` says, on every failure path, that of its own read included |
| Service.ReconciledExactly | internal/controller/controller/restoretask_controller.go:197-292 | A task goes to the queue if and only if nothing fails on the way and the StatefulSet is the one let through; a key is dropped if and only if its resource is gone; its own resource alone is marked as started; and the node sets are those of the node step if and only if that was reached and its patch accepted |
| Service.ReconcileIsOneCall | internal/controller/controller/restoretask_controller.go:197-292 | That body is the run of one pipeline call that nothing interrupts, up to the send |
| Service.UpdateIsReport | internal/controller/controller/restoretask_controller.go:89-102 | The status write, for the resource of the worker's task, is the Report step of the pipeline |
| Service.StatusIsWrittenExactly | internal/controller/controller/restoretask_controller.go:89-102 | It changes anything if and only if both faults are repaired, the requests go through, and the resource is there with another status; no other resource ever changes |
| Service.RestoreIndicesIsOneWorker | internal/controller/controller/restoretask_controller.go:104-182 | The worker is the run of one pipeline worker that nothing interrupts: same rows, and success reported exactly when it returns no error |
| Annotations.Store.Reconcile | internal/controller/controller.go:83-126 | What is read decides, what is there meanwhile is patched: state running on the object as it then is, the task id that was read queued; every failure path, a failed read included |
| Annotations.Store.UpdateTaskStatus | internal/controller/controller.go:58-81 | The state is patched in if the task id was its own when read, whatever is there meanwhile, and nothing if that was the state read |
| Annotations.Store.FinishTask | internal/controller/controller.go:47-54 | A restore without an error is written as "done", one with an error as "failed" |
| AnnotationPatches.ReconcileIsReadAndPatch | internal/controller/controller.go:83-123 | The method is a read step and a patch step of one call, whatever happens in between |
| AnnotationPatches.UpdateIsCheckAndReport | internal/controller/controller.go:47-81 | So is the status write of a worker, "done" without an error and "failed" with one |
| AnnotationRuns.GoodRun | internal/controller/controller.go:40-126 | Over every run, reads and patches apart: each started task is in one place, ids are unique, a started id is never pending again, and what a call plans is nobody else's |
| AnnotationRuns.EachWriteIsQueuedOnce | internal/controller/controller.go:103-123 | In every run started task ids differ and each is sending, queued, with a worker or finished, once |
| AnnotationPatches.WorkerPatchHitsOtherTask | internal/controller/controller.go:58-81 | In every run a worker's patch touches its own object alone, and changes one that carries another task if and only if that was written to between the worker's read and its patch, and is not in the final state as read or now |
| AnnotationPatches.CallPatchHitsOtherTask | internal/controller/controller.go:83-123 | In every run Reconcile's patch touches its own object alone, and moves another task than the one it starts if and only if the object was written to between its read and its patch |
| AnnotationPatches.OverrunIsNeverStarted | internal/controller/controller.go:100-123 | The pending task moved to running in that way is started in no continuation whatsoever |
| AnnotationPatches.WorkerRunHitsOtherTask | internal/controller/controller.go:60-78 | A run from a quiet start in which the older worker finishes the newer task |
| AnnotationPatches.CallRunHitsOtherTask | internal/controller/controller.go:85-123 | A run from a quiet start in which the newer task becomes running and only the older one is started |
| AnnotationPatches.OnTargetMeansUndisturbed | internal/controller/controller.go:58-117 | A patch finds the task it was read for if and only if its object is gone or was not written to since the read |
| AnnotationPatches.ControllerMovesForward | internal/controller/controller.go:47-113 | In every run whose patches all do, no step but an outside write changes an annotation other than from "pending" to "running" or from "running" to its worker's outcome, and the task id stays |
| AnnotationLaws.OutcomeIsReal | internal/controller/controller.go:47-81 | In every such run an object that carries a started task is "running", or "done" and a worker of that task has ended without an error, or "failed" and one has ended with an error |
| AnnotationLaws.OutcomeIsShown | internal/controller/controller.go:47-81 | And an accepted report of a worker shows just that on the object of its task |
| AnnotationLaws.ReadDecidesExactly | internal/controller/controller.go:83-106 | A call plans the task it reads if and only if the object is there, ready and "pending"; a failed read brings its key back |
| AnnotationLaws.PatchDecidesExactly | internal/controller/controller.go:108-123 | It starts what it planned if and only if the patch succeeds; otherwise its key comes back |
| AnnotationLaws.CheckDecidesExactly | internal/controller/controller.go:58-73 | A worker that has ended will report its outcome if and only if it reads its own task id on its object; otherwise it is finished with the task |
| AnnotationLaws.WriteIsNoticedExactly | internal/controller/controller.go:137-179 | An outside write is noticed if and only if the object had annotations before, is owned by an Elasticsearch, has the restore key and a dash in its name, and a state |
| AnnotationLaws.CreateIsNoticedExactly | internal/controller/controller.go:128-179 | A create event is let through if and only if the object is such a node, with a task id and a state |
| AnnotationLaws.ReceivedInOrder | internal/controller/controller.go:36-47 | In every run tasks are received in the order in which they were sent, and the queue is the rest |
| AnnotationLaws.QueueBlocksExactly | internal/controller/controller.go:36-47 | A send goes on if and only if the buffer has room, a waiting worker receives if and only if something is queued |
| AnnotationCounts.OwnWritesComeBack | internal/controller/controller.go:137-179 | Each state the controller writes on a matching object passes its own update filter |
| AnnotationCounts.WritesCauseFewRuns | internal/controller/controller.go:83-179 | In every run, for each object: Reconcile runs at most three times for each outside write to it, plus its create events and failed requests, and at most one task starts for each |
| AnnotationCounts.NotReadyIsConsumed | internal/controller/controller.go:88-93 | A pending write read while the object is not ready is stranded, if and only if no worker is about to patch the object |
| AnnotationCounts.StrandedStays | internal/controller/controller.go:88-93 | It then stays unstarted in every run without another write, create event or deletion of the object, ready or not |
| TimeText.NewTimeString | internal/db/string_time.go:56-72 | Only the first layout is ever tried |
| TimeText.TimeString.Parse | internal/db/string_time.go:38-54 | The time is that of the first of RFC 3339, the same with nanoseconds, date and time, and date alone that parses the text; with none it stays |
| TimeText.OneLayoutDecides | internal/db/string_time.go:38-54 | A text that one of the four alone parses has the time of that one |
| TimeText.TimeString.Scan | internal/db/string_time.go:13-29 | New time and error for every kind of column value; NULL leaves the receiver as it was |
| TimeText.TimeString.StoreAndScan | internal/db/string_time.go:13-36 | Store and scan gives the time back if and only if it is not the zero time or the receiver was still zero |
| IndexCache.Cache.CreateIndexRecords | internal/db/db.go:107-118 | A batch is upserted row by row or, refused or empty, changes nothing |
| IndexCache.Cache.CreateSnapshotRecords | internal/db/db.go:120-131 | The same for snapshots, where a known name changes nothing |
| IndexCache.Cache.RunIndexJob | internal/cron/job.go:22-47 | The job upserts what was listed, with NULL for times it cannot parse |
| IndexCache.Cache.RunSnapshotJob | internal/cron/job.go:54-86 | The job upserts the snapshots that were collected |
| IndexCache.CacheAgreesWithHistory | internal/db/db.go:107-118 | After any history names are unique and exactly those observed, each with its first creation time and its last size |
| IndexCache.ListedIndexIsTold | internal/cron/job.go:22-47 | Of listed indices one row tells of each name: the RFC 3339 time of its first listing, NULL if it has none or the zero time, and the size of its last |
| IndexCache.BatchingDoesNotMatter | internal/cron/job.go:22-47 | How the history was cut into batches makes no difference |
| IndexCache.SnapshotsStayAsFirstSeen | internal/db/db.go:120-131 | After any history every snapshot name holds the record first observed |
| IndexCache.ListedSnapshotIsTold | internal/cron/job.go:54-86 | Of listed snapshots one row holds each name as first listed, with repository, state, indices and start time |
| IndexCache.LatestAmongFirstSeen | internal/http/utils.go:151-166 | A row is a latest good one for an index if and only if its first observed state was SUCCESS with the index in it, and no other such row starts later |
| IndexCache.Cache.QueryLatest | internal/http/utils.go:154 | Answers with a latest good snapshot, or none exactly when there is none |
| IndexCache.Cache.QueryLatestSnapshotsViaIndex | internal/http/utils.go:151-166 | The map holds a latest good snapshot for exactly the names whose query did not fail and that have one |
| IndexCache.GetAllSnapshotDetails | internal/elastic/es.go:284-312 | The loop collects repository by repository |
| IndexCache.CollectedExactly | internal/elastic/es.go:292-309 | A snapshot is collected if and only if its repository was listed, is not empty and gave details |
| QueryText.NameMatchesItself | internal/http/utils.go:33 | The pattern built for a name matches that name, whatever wildcards it holds |
| QueryLaws.NameMatchesExactly | internal/http/utils.go:33 | A name is matched if and only if what was asked for reads some stretch of it character by character, a percent sign any stretch, an underscore any character |
| QueryLaws.PlainNameMatches | internal/http/utils.go:33 | Without such wildcards, if and only if it occurs in the name |
| QueryLaws.NamesAreJoined | internal/http/utils.go:28-37 | The SQL text of the names is their conditions joined by OR, without parentheses |
| QueryLaws.BoundsAreAppended | internal/http/utils.go:41-113 | The time conditions stand behind it, each with AND and its own comparison |
| QueryText.OnePlaceholderEach | internal/http/utils.go:28-46 | The text has as many placeholders as there are parameters |
| QueryText.PlaceholdersAreMarks | internal/http/utils.go:28-46 | They are the question marks of the rendered SQL |
| QueryText.OneNameQuery | internal/http/utils.go:41-66 | With one name the text selects the matches within the bounds |
| QueryText.QuerySelects | internal/http/utils.go:28-120 | With more names it selects any of all names but the last, at any time, or the last within the bounds |
| QueryText.QueryMeansIntendedForOneName | internal/http/utils.go:36-39 | A text with a time bound selects what was meant on all rows if and only if there is one name |
| Slices.Append | internal/http/utils.go:43-46 | Append gives the items and one more, keeps what its argument shows, and writes one cell behind it at most |
| Slices.AppendTwice | internal/http/utils.go:63-66 | Of two appends to one slice with room to spare, the first result ends up with the second's item |
| WindowQuery.QueryAll | internal/db/db.go:133-153 | The rows meeting the conditions, newest first, cut off at the limit |
| WindowQuery.NameConditions | internal/http/utils.go:28-37 | The loop builds the joined conditions and their patterns, in order |
| WindowQuery.QueryBounded | internal/http/utils.go:42-66 | A query with one bound reads its own parameters in order and leaves the shared ones as they were |
| WindowQuery.QueryBetween | internal/http/utils.go:98-110 | So does the query with two bounds |
| WindowQuery.QueryIndexResultViaTime | internal/http/utils.go:17-149 | Fails exactly when one of its queries does; otherwise gives the newest row from before the start, if any, and then the rows of the window |
| WindowQuery.RestIsWindow | internal/http/utils.go:62-131 | For one name the second part is exactly the matches of the window; rows without a time are in no bounded one |
| QueryLaws.RestHoldsOccurrences | internal/http/utils.go:33-113 | For one name without wildcards these are the rows of the cache in whose names it occurs, created from the start on and up to the end, both included |
| QueryLaws.RestIsNewestFirst | internal/http/utils.go:62-131 | For any names they come newest first, each as often as it is in the cache |
| WindowQuery.FirstIsNewestBefore | internal/http/utils.go:42-60 | For one name the first part is a newest match created by the start, or empty exactly when there is none |
| WindowQuery.WindowIsCovered | internal/http/utils.go:41-113 | For one name, every instant of the window by which some match had been created has a newest such match in the result |
| WindowQuery.OtherNamesAreCovered | internal/http/utils.go:37-113 | Of several names all but the last are covered at every instant, in the window or not |
| WindowQuery.LastNameIsCoveredExactly | internal/http/utils.go:41-113 | The last of several names is covered where its newest match lies in the window; where that is from before the start, if and only if another name matches such a newest row too or no row of the other names, of whatever time, is newer |
| WindowQuery.RepeatsExactlyAtStart | internal/http/utils.go:41-113 | For one name, result rows are distinct if and only if no match was created exactly at a start that lies in the window; else the first row comes twice and its size counts twice |
| WindowQuery.IndexNames | internal/db/utils.go:27-34 | One name for each row, in order |
| WindowQuery.QueryIndex | internal/http/handler.go:47-64 | The reply lists the names found, and a size text that reads as the six places of their total or of the minimum, and as no less than either |
| RestoreNames.RenameYieldsTarget | internal/elastic/es.go:187-200 | The request's rename replacement gives prefix, repository and name for every index if and only if neither key nor repository has a quote, a control character, a backslash or a dollar sign |
| RestoreNames.RenameIsInjective | internal/elastic/es.go:191-192 | Within one repository different indices get different names |
| RestoreNames.SharedTarget | internal/elastic/es.go:191-192 | Across repositories two restores share a target if and only if repository, underscore and index read the same |
| RestoreNames.CollidingRepositories | internal/elastic/es.go:187-200 | Two repositories can collide if and only if one name with an underscore begins the other with an underscore |
| RestoreNames.NoUnderscoreNoCollision | internal/elastic/es.go:187-200 | Without underscores in repository names targets agree only for the same repository and index |
| RestoreNames.PolledNameIsNotTarget | internal/controller/controller/restoretask_controller.go:119-149 | The name that is polled is never the one the index is restored under |

## Assumptions

- A key is handled by one Reconcile call at a time, and comes back after an error or a request to come
  back later (the contract of controller-runtime). Reads are fresh: no stale informer cache.
- New task rows have a new pair of task id and index, and new resources a name never used before. They
  come from the handler: a row, then its resource.
- In the annotation machine outside writers use a fresh task id for every write, and objects are created
  without one (an annotated object is one that is created and then written to).
- The quantity type knows the suffixes listed in `Quantities.SuffixBytes` and rounds up to whole bytes.
- A `select` with a ready timeout lets the ticker win only finitely often: `maxPolls` bounds the ticks.
- Elasticsearch applies a rename replacement as Java's `Matcher.replaceAll` does: a backslash takes the
  next character as it is, a dollar sign refers to a group. Restore requests are JSON as in RFC 8259.
- The database is MySQL with the upsert the code builds; rows of equal time come in any order.

## Left out

- Floating point rounding: sizes are exact reals; the sums and products of the code round.
- Unicode: case folding, white space and letters are ASCII only.
- Quantities with an exponent, a sign or beyond 63 bits: not part of the quantity grammar modelled here.
- Quantities.ReadersAgreeExactlyOnBinary: numbers below one unit, where rounding up to a whole byte can hide the difference; there `Quantities.ReadersAgreeInBytes` says when.
- WindowQuery.LastNameIsCoveredExactly: where the newest match is from before the start, a row of another name of the very same time that the last name does not match, with neither of the two conditions met; the database's choice among equal times decides.
- QueryText.NameMatchesItself: LIKE is case sensitive here and has no escape character; MySQL takes a backslash for one, which no Elasticsearch index name has.
- Polling.TaskTable.RestoreIndices: a task with an empty list of indices, where the code panics; error messages stored with a status.
- NodeLabels.NewDrafts: a configured label map that is nil, where the code panics; the rest of the node set (tolerations, affinity, resources of the containers) only copies configuration.
- Service.Cluster.Reconcile: nothing runs between its statements; interleavings are the subject of `Pipeline`. The same holds of the other methods on `Cluster`.
- Other writers of the task table (the older node and restore handlers) and changes of a resource's spec are not steps of the pipeline; a restart of the controller shows only as repeated events.
- The snapshot table is unique by snapshot name alone, across repositories, as its index is; the JSON list of indices is kept as a list.
- Request binding, JSON bodies and replies over HTTP; the Elasticsearch, Kubernetes and SQL clients; the SQLite dialect.
- `DebugHandler`, `RestoreSnapshotOneStep`, `MergeElasticsearch`, random names, configuration, scheduling, logging and the generated scaffold: no logic of their own.
