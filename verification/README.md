# Verification of the status transport bridge's conflation and database synchronisation

Leaf hubs send full-state bundles (managed clusters, clusters per policy, compliance status, minimal compliance) to the
status transport bridge. The bridge conflates them per leaf hub, dispatches them to database workers, and each handler
makes the status tables agree with the bundle by a diff that is sent as a batch. This project models both halves in
Dafny and proves them correct, separately and together.

## How the model is organised

**The conflation protocol.**

- `Bundles.dfy`: the bundles of a leaf hub.
- `Conflation.dfy`: one leaf hub's unit as values: what insert, GetNext and ReportResult do, the invariant they keep,
  and when a pending bundle can be handled.
- `ConflationLaws.dfy`: what these operations promise, said without them.
- `Drain.dfy`: what becomes of a unit's pending bundles when nothing new arrives.
- `ConflationUnit.dfy`: the unit, its elements, the metadata objects, the ready queue and the manager as classes updated
  in place. Each method is proved to do to the objects' view exactly what the functions of `Conflation.dfy` say.

**The diff-and-batch synchronisation.**

- `Tables.dfy`: the tables as one map from row key to row, and the row operations statements perform.
- `Diffs.dfy`: for each kind of bundle, the differences with the tables and, independently, the tables that should
  result; the two are proved to agree.
- `Retry.dfy`: attempts that fail part-way, and the independence of leaf hubs.
- `TruncatedReads.dfy`: snapshots that saw too little.
- `Placeholders.dfy`: the printed placeholder lists, a parser for them, and the round trip.
- `Statements.dfy`: a statement as command, placeholder text and flat arguments, and what a database reads from it by
  parsing the text and binding the arguments.
- `BatchBuilders.dfy`, `PoliciesBatchBuilder.dfy`: the batch builders, with mid-stream flushes and per-policy groups.
- `Snapshots.dfy`: the row loops of the queries.
- `PoliciesDbSyncer.dfy`, `ClustersDbSyncer.dfy`: the handlers.

**Both together.**

- `System.dfy`: the whole process as a step relation. Arrivals, the dispatcher and any number of workers interleave, and
  handlers run their operations one at a time on shared tables; any operation may fail.
- `SystemSafety.dfy`, `SystemRuns.dfy`: the invariant, kept by every step, and runs.
- `SystemArrivals.dfy`: arrivals are the manager's deliveries, and bundles are handed out with the metadata they came with.
- `SystemHistory.dfy`, `SystemRows.dfy`: isolation, serial order, newest wins, dependency order, the rows that result.
- `SystemRest.dfy`: the rows of every kind once the newest bundle of a type was handled, whatever failed before.
- `HandlerPlans.dfy`: what the handlers emit is what the step relation lets them do.
- `SystemLiveness.dfy`, `SystemProgress.dfy`: what holds under causal delivery: single placement, no lost worker, no
  deadlock, termination, eventual agreement.
- `StuckBundles.dfy`: what happens without it.

## What is assumed

- Priorities of the registrations are a permutation of 0..n-1, types are distinct, dependencies are registered and
  acyclic (`Conflation.WellFormed`, `ConflationUnits.Registered`); `StuckBundles.RegisteredTypes` shows it of the four
  types of this program. All registrations are made before the first insert.
- The type of an inserted bundle is registered.
- Names are distinct within a bundle, and a cluster is not reported both non-compliant and unknown
  (`Diffs.ValidContents`).
- For managed clusters, an equal resourceVersion means an equal payload. This is stated as the exact condition for the
  handler to be correct (`Diffs.ClusterExactIff`); for the rows of whole runs it is assumed of all that a hub sends
  (`SystemRest.VersionsDetermine`).
- **Complete reads**, for the results about runs: a handler's snapshot query delivers all rows of its hub, or the handler
  reports an error. The program does not guarantee it (below).
- **Causal delivery**, for the liveness results only: when a dependant bundle with dependency generation d is stored, its
  unit has received, or already handled, generation d or a newer one of the type it depends on.

A failed attempt may have run any subset of its operations, none or all of them included. The step relation leaves the
choice open. The rows at rest do not depend on it; results about earlier states that need a failed batch to leave
nothing behind say so in a precondition (`CleanSince`, `Atomic`).

## Where the program does not do what it says

- The remark at `pkg/conflator/conflation_unit.go:112-113`, that a queued unit always has a ready bundle, is false. A
  newer dependant bundle may replace a ready one while the unit is queued. `Conflation.QueuedStaysReadyExact` says
  exactly when, `StuckBundles.StrandingRunStrands` gives a run, and `StuckBundles.LostForever` shows that the unit is
  never handled again and the worker never used again, since GetNext leaves the flag up and the dispatcher drops the
  worker. `SystemLiveness.CausalStepExact` says which arrivals keep the system clear of this.
- Errors of the four snapshot queries are dropped (`pkg/db/postgresql/postgresql.go:97`, `:125`, `:152`, `:183`), and an
  early end of the rows goes unnoticed. The handler then works from a part of the table and may report success with
  stale rows left, or insert a row that exists. `TruncatedReads.dfy` says for each of the four handlers exactly when
  the outcome is right all the same, and gives an input for which it is not.
- The limit of 50000 arguments is checked after a row was added, so each statement printed in mid-stream passes it: it has
  50001, 50004 or 50005 arguments, depending on its columns (`BatchBuilders.FlushesExactly`, `Statements.FlushSizes`).
  What Build prints of these kinds stays within the limit. The deletes of single compliance rows have no limit: a
  statement passes 50000 arguments if and only if more than 49998 clusters are dropped from its policy
  (`PoliciesBatch.RowDropsExceed`). `PoliciesBatch.OversizedInsert` and `PoliciesBatch.OversizedDelete` build such
  statements.

## Reading the contracts

Classes carry ghost fields that record what the objects stand for. `ConflationUnit.model` holds the elements' values,
and a builder's `calls` holds the calls it was given, in order. `hide` at the top of a proof only removes definitions
from that proof. The words *smooth*, *healthy* and *quiescent* in `SystemProgress.dfy` mean: a step without failure, a
state in which no running handler had a failure, and a state in which nothing is under way.

## Model

| member | source | states |
|---|---|---|
| `ConflationUnits.ConflationUnit.constructor` | pkg/conflator/conflation_unit.go:33-59 | from registrations in any order, a unit with one empty element per priority and the inverse index from type to priority |
| `ConflationUnits.ConflationUnit.Insert` | pkg/conflator/conflation_unit.go:72-103 | the view changes as `Conflation.Insert` says; the unit is enqueued exactly when its flag goes up; the metadata object and bundle in a worker's hands are untouched |
| `ConflationUnits.ConflationUnit.UpdateElement` | pkg/conflator/conflation_unit.go:91-100 | an element in process gets a new metadata object, any other is overwritten in place; no two elements ever share one |
| `ConflationUnits.BundleMetadata.Update` | pkg/conflator/bundle_metadata.go:13-16 | generation and token are replaced, the type stays |
| `ConflationUnits.ConflationUnit.GetNext` | pkg/conflator/conflation_unit.go:106-122 | hands out bundle and metadata pointer of the first ready priority, marks it in process and lowers the flag; with nothing ready the unit, its flag included, is left as it was |
| `ConflationUnits.ConflationUnit.ReportResult` | pkg/conflator/conflation_unit.go:125-147 | the view changes as `Conflation.Report` says; the element's bundle is never nil where it is read; the unit is enqueued exactly when its flag goes up |
| `ConflationUnits.ConflationUnit.IsInProcess` | pkg/conflator/conflation_unit.go:149-157 | true exactly when some element is in process |
| `ConflationUnits.ConflationUnit.AddCUToReadyQueueIfNeeded` | pkg/conflator/conflation_unit.go:159-169 | afterwards the unit is flagged if and only if it was before, or nothing of it is in process and it has a ready bundle; the queue grows by the unit exactly when the flag goes up |
| `ConflationUnits.ConflationUnit.GetNextReadyBundlePriority` | pkg/conflator/conflation_unit.go:172-181 | the lowest ready priority, or the invalid priority exactly when there is none |
| `ConflationUnits.ConflationUnit.IsCurrentOrAnyDependencyInProcess` | pkg/conflator/conflation_unit.go:184-196 | true exactly when the element or one down its dependency chain is in process; the recursion ends by the rank of the chain |
| `ConflationUnits.ConflationUnit.CheckDependency` | pkg/conflator/conflation_unit.go:199-217 | true exactly when there is no dependency or its needed generation was processed; false for a bundle that is not a dependant one |
| `ConflationUnits.ConflationReadyQueue.Enqueue` | pkg/conflator/ready_queue.go:27-33 | the unit is appended at the end |
| `ConflationUnits.ConflationReadyQueue.BlockingDequeue` | pkg/conflator/ready_queue.go:36-50 | the first unit is removed and returned |
| `ConflationUnits.ConflationManager.GetConflationUnit` | pkg/conflator/conflation_manager.go:42-54 | one unit per leaf hub: the existing one, or a new empty one that is kept |
| `ConflationUnits.ConflationManager.Insert` | pkg/conflator/conflation_manager.go:37-39 | the bundle reaches its leaf hub's unit, also as the hub's first: what the unit knows of the type becomes the maximum of before (0 for a new hub) and the bundle's generation; other hubs' units are unchanged, and the shared queue grows by at most this unit |
| `Conflation.FirstReady` | pkg/conflator/conflation_unit.go:172-181 | the result is ready and nothing below it is; none means nothing is ready |
| `Conflation.InsertKeepsInv` | pkg/conflator/conflation_unit.go:72-103 | insert keeps: one bundle in process at most, never while queued, and nothing ready in a unit that is neither |
| `Conflation.InsertChanges` | pkg/conflator/conflation_unit.go:72-103 | only the bundle's own element may change, it stays pending if it was, and the newest known generation becomes the maximum of old and new |
| `Conflation.GetNextKeepsInv` | pkg/conflator/conflation_unit.go:106-122 | GetNext on an idle unit keeps the invariant, fails exactly when nothing is ready, and leaves its job in flight |
| `Conflation.ReportKeepsInv` | pkg/conflator/conflation_unit.go:125-147 | reporting the job in flight, as success or failure, keeps the invariant and leaves nothing in process |
| `Conflation.InsertKeepsInFlight` | pkg/conflator/conflation_unit.go:89-100 | whatever is inserted, the job in flight stays reportable: its element keeps a bundle, of its generation or newer |
| `Conflation.ReportOutcome` | pkg/conflator/conflation_unit.go:132-144 | success moves lastProcessed to the reported generation and clears the element exactly when no newer bundle arrived; failure changes nothing but the in-process mark |
| `Conflation.PendingLeadsToReady` | pkg/conflator/conflation_unit.go:199-217 | down the dependency chain of a pending bundle of an idle, causally closed unit there is a ready one |
| `Conflation.NoStuckBundle` | pkg/conflator/conflation_unit.go:106-122 | in such a unit something is ready exactly when something is pending, and an unflagged one holds nothing |
| `Conflation.CausalInsertExact` | pkg/conflator/conflation_unit.go:72-103 | an insert keeps the pending bundles causally closed if and only if the bundle is refused or causally delivered |
| `Conflation.QueuedStaysReadyExact` | pkg/conflator/conflation_unit.go:112-113 | the exact condition under which an insert keeps a queued unit ready |
| `ConflationLaws.ReadyMeans` | pkg/conflator/conflation_unit.go:172-217 | a priority is ready if and only if it has a bundle, no path of dependencies from it ends at a priority in process, and the needed generation of the type its registration names was processed |
| `ConflationLaws.InsertKeepsNewest` | pkg/conflator/conflation_unit.go:72-103 | a bundle that is not newer than all the unit knows of its type changes nothing; a newer one is stored with its metadata, and no other element changes |
| `ConflationLaws.InsertAnnounces` | pkg/conflator/conflation_unit.go:159-169 | after an insert a unit is flagged if and only if it was before, or it is idle and has a ready bundle |
| `ConflationLaws.ReportAnnounces` | pkg/conflator/conflation_unit.go:125-147 | after a report a unit is flagged if and only if it has a ready bundle |
| `ConflationLaws.GetNextTakesLowest` | pkg/conflator/conflation_unit.go:106-122 | bundle and metadata handed out are those stored at the lowest ready priority, which alone is marked in process |
| `ConflationLaws.DeliverReaches` | pkg/conflator/conflation_manager.go:37-54 | a delivery reaches the unit of the bundle's hub, existing or new, and no other |
| `Drain.ReportLowersBacklog` | pkg/conflator/conflation_unit.go:137-144 | a success lowers the number of generations a unit is behind, a failure keeps it |
| `Drain.DrainsCompletelyIffCausal` | pkg/conflator/conflation_unit.go:106-147 | handling ready bundles until none is left empties the unit if and only if its pending bundles are causally closed, and then each type ends at the newest generation it was given |
| `Tables.OrderDoesNotMatter` | pkg/db/postgresql/batch/policies_batch_builder.go:87-102 | operations of which no two speak about the same row give the same table in any order and with any repetition |
| `Tables.HubLocal` | pkg/db/postgresql/batch/policies_batch_builder.go:104-152 | operations of one hub depend on that hub's rows only |
| `Diffs.PlacementExact` | pkg/dbsyncer/policies_transport_to_db_syncer.go:103-148 | performing the clusters-per-policy differences in any order makes the hub's keys the bundle's pairs, keeps rows that stay, adds new ones as unknown, and touches no other hub |
| `Diffs.PlacementRowsExact` | pkg/dbsyncer/policies_transport_to_db_syncer.go:103-173 | row by row: rows that stay are as they were, new ones unknown with error none, and no other row changes |
| `Diffs.PlacementInsertsAreNew` | pkg/dbsyncer/policies_transport_to_db_syncer.go:150-156 | no INSERT meets an existing row |
| `Diffs.ComplianceExact` | pkg/dbsyncer/policies_transport_to_db_syncer.go:175-256 | after the compliance differences every row of the hub has the reported status, rows of unlisted policies are compliant, and no row is added or removed |
| `Diffs.ComplianceRowsExact` | pkg/db/postgresql/batch/policies_batch_builder.go:104-144 | row by row: every compliance row of the hub has exactly its old error and the reported status, and no other row changes |
| `Diffs.ReportedMeans` | pkg/dbsyncer/policies_transport_to_db_syncer.go:222-256 | the reported status is non-compliant or unknown exactly for clusters the bundle lists so under the policy |
| `Diffs.ComplianceOpFor` | pkg/db/postgresql/postgresql.go:150-178 | every row with a wrong status is updated, although compliant rows are never read |
| `Diffs.ClusterExactIff` | pkg/dbsyncer/clusters_transport_to_db_syncer.go:64-110 | the hub's clusters become the bundle's if and only if equal resource versions mean equal payloads |
| `Diffs.SummaryExact` | pkg/dbsyncer/policies_transport_to_db_syncer.go:259-304 | the hub's aggregated rows become exactly the bundle's summaries |
| `Diffs.DiffCompatible` | pkg/dbsyncer/policies_transport_to_db_syncer.go:108-256 | no two operations of one handler speak about the same row, and all are of its hub |
| `Diffs.DiffExact` | pkg/dbsyncer/policies_transport_to_db_syncer.go:68-101 | whatever the kind of bundle, performing its differences in any order gives the table it asks for |
| `Retry.RetryConverges` | pkg/conflator/conflation_unit.go:132-135 | after any part of a failed attempt, what the bundle asks of the tables is what it asked before it |
| `Retry.EventualSuccess` | pkg/conflator/conflation_unit.go:132-135 | after any series of partly executed failures, the first complete run ends where a clean first run would have |
| `Retry.PartialRow` | pkg/db/postgresql/postgresql.go:58-86 | after a part of a batch each row is as before or already as the bundle wants it |
| `Retry.DiffLocal` | pkg/dbsyncer/policies_transport_to_db_syncer.go:113-116 | what a handler decides depends on its own hub's rows only |
| `TruncatedReads.PlacementReadExact` | pkg/db/postgresql/postgresql.go:123-147 | if the query delivered a part of the rows: no INSERT meets an existing row and the hub's keys become the bundle's, if and only if each missed row is of an unlisted policy of which another row was delivered |
| `TruncatedReads.PlacementReadFails` | pkg/db/postgresql/postgresql.go:125-130 | a missed row that the bundle lists is inserted again, one it does not list stays |
| `TruncatedReads.ComplianceReadExact` | pkg/db/postgresql/postgresql.go:150-178 | every row gets the reported status if and only if each missed row has it already, is reported as not compliant, or is of an unlisted policy of which another row was delivered |
| `TruncatedReads.ComplianceReadFails` | pkg/db/postgresql/postgresql.go:152-157 | a missed row of a policy that is compliant by now keeps its old status |
| `TruncatedReads.ClusterReadExact` | pkg/db/postgresql/postgresql.go:95-114 | no INSERT meets an existing row and the hub's clusters become the bundle's, if and only if no cluster was missed and equal versions mean equal payloads |
| `TruncatedReads.ClusterReadFails` | pkg/db/postgresql/postgresql.go:97-102 | a missed cluster that is gone by now stays |
| `TruncatedReads.SummaryReadExact` | pkg/db/postgresql/postgresql.go:181-198 | the aggregated rows become the bundle's if and only if the bundle lists every missed policy |
| `TruncatedReads.SummaryReadFails` | pkg/db/postgresql/postgresql.go:181-188 | a missed policy that is gone by now stays |
| `Placeholders.GenerateArgsList` | pkg/db/postgresql/batch/base_batch_builder.go:142-159 | the loop prints the list that `ListText` defines, for any count, start and casts |
| `Placeholders.GenerateInsertOrUpdateArgs` | pkg/db/postgresql/batch/base_batch_builder.go:126-140 | the loop prints the rows that `RowsText` defines |
| `Placeholders.ListRoundTrip` | pkg/db/postgresql/batch/base_batch_builder.go:142-159 | parsing a printed list gives back its indices and casts, and leaves what follows |
| `Placeholders.RowsRoundTrip` | pkg/db/postgresql/batch/base_batch_builder.go:126-140 | parsing the printed rows gives row i column j the index i*columns+j+1 and the cast of column j+1 |
| `Placeholders.IndicesInOrder` | pkg/db/postgresql/batch/base_batch_builder.go:126-140 | read left to right, the indices are 1 to rows*columns, each once |
| `Statements.StatementMeansItsCalls` | pkg/db/postgresql/batch/policies_batch_builder.go:104-152 | a reader that parses the text, checks each cast against the SQL type of its column and binds the arguments gets back exactly the calls the statement was printed from, in order |
| `Statements.CastIsType` | pkg/db/postgresql/batch/policies_batch_builder.go:10-16 | the cast of each column is the SQL type of what it holds: policy ids uuid, cluster resources jsonb, statuses of updates the compliance type, others none |
| `Statements.ValuesAreFields` | pkg/db/postgresql/batch/policies_batch_builder.go:45-84 | every argument of a call is the field that belongs in its column |
| `Statements.PrintedCasts` | pkg/db/postgresql/batch/policies_batch_builder.go:104-144 | in the printed statement of any calls, row i column j is cast to the type of that field of call i, and its argument is that field |
| `Statements.PrintedLetters` | pkg/db/postgresql/batch/base_batch_builder.go:142-159 | the text of a row and of a list, letter by letter |
| `Statements.StatusTexts` | pkg/db/postgresql/postgresql.go:152-175 | the texts the query filters by and the row loop compares with are those the statements write |
| `Statements.ColumnCount` | pkg/db/postgresql/batch/policies_batch_builder.go:114-116 | arguments divided by rows is the column count |
| `Statements.QueueOne` | pkg/db/postgresql/batch/base_batch_builder.go:85-99 | a queued statement adds its calls and its arguments, nothing else, and is well shaped: not empty, arguments as many as placeholders, within the limit or exactly the first size above it |
| `Statements.KindsCover` | pkg/db/postgresql/batch/policies_batch_builder.go:87-102 | a batch performs the operations of its eight kinds of statements and nothing else |
| `Statements.FlushSizes` | pkg/db/postgresql/batch/base_batch_builder.go:52-83 | the first sizes above 50000 that whole rows make: 50005, 50004 and 50001 arguments |
| `BatchBuilders.BaseBatchBuilder.Insert` | pkg/db/postgresql/batch/base_batch_builder.go:52-61 | the call is held back, or printed with all held ones exactly when the limit is passed; printed statements and collected arguments together hold all calls and arguments in order; other kinds are untouched |
| `BatchBuilders.BaseBatchBuilder.Update` | pkg/db/postgresql/batch/base_batch_builder.go:63-72 | the same for updates |
| `BatchBuilders.BaseBatchBuilder.Delete` | pkg/db/postgresql/batch/base_batch_builder.go:74-83 | the same for deletes, whose arguments start with the hub |
| `BatchBuilders.BaseBatchBuilder.Build` | pkg/db/postgresql/batch/base_batch_builder.go:85-99 | prints what is held of inserts, then updates, then deletes, each within the limit; after it the statements alone hold all calls and arguments in order |
| `BatchBuilders.FlushesExactly` | pkg/db/postgresql/batch/base_batch_builder.go:52-61 | a statement is printed in mid-stream exactly when one more row passes 50000 arguments, and has exactly the first size above; what Build prints stays within |
| `BatchBuilders.PrintOne` | pkg/db/postgresql/batch/base_batch_builder.go:105-121 | printing what is collected loses nothing and leaves the other kinds alone |
| `BatchBuilders.ManagedClustersBatchBuilder.Insert` | pkg/db/postgresql/batch/managed_clusters_batch_builder.go:36-38 | exactly this call is added, in the argument order of its statement, and only its kind is flushed |
| `BatchBuilders.ManagedClustersBatchBuilder.Update` | pkg/db/postgresql/batch/managed_clusters_batch_builder.go:41-43 | exactly this call is added, in the argument order of its statement, and only its kind is flushed |
| `BatchBuilders.ManagedClustersBatchBuilder.Delete` | pkg/db/postgresql/batch/managed_clusters_batch_builder.go:46-48 | exactly this call is added, in the argument order of its statement, and only its kind is flushed |
| `BatchBuilders.ManagedClustersBatchBuilder.Build` | pkg/db/postgresql/batch/managed_clusters_batch_builder.go:51-70 | the flushed statements, then inserts, updates and deletes; what a database reads from them is every call exactly once |
| `PoliciesBatch.PoliciesBatchBuilder.Insert` | pkg/db/postgresql/batch/policies_batch_builder.go:45-48 | exactly this call is added, and printed with the held ones of its kind exactly when the limit is passed |
| `PoliciesBatch.PoliciesBatchBuilder.UpdatePolicyCompliance` | pkg/db/postgresql/batch/policies_batch_builder.go:51-54 | exactly this call is added, and printed with the held ones of its kind exactly when the limit is passed |
| `PoliciesBatch.PoliciesBatchBuilder.UpdateClusterCompliance` | pkg/db/postgresql/batch/policies_batch_builder.go:57-67 | exactly this call is added, and printed with the held ones of its kind exactly when the limit is passed |
| `PoliciesBatch.PoliciesBatchBuilder.DeletePolicy` | pkg/db/postgresql/batch/policies_batch_builder.go:70-73 | exactly this call is added, and printed with the held ones of its kind exactly when the limit is passed |
| `PoliciesBatch.PoliciesBatchBuilder.DeleteClusterStatus` | pkg/db/postgresql/batch/policies_batch_builder.go:76-84 | exactly this call is added, to the group of its policy; nothing is ever printed |
| `PoliciesBatch.PoliciesBatchBuilder.Build` | pkg/db/postgresql/batch/policies_batch_builder.go:87-102 | the flushed statements, then policy inserts, updates and deletes, then row updates, then one delete per policy in some order; what a database reads from them is every call exactly once |
| `PoliciesBatch.DropsInSplit` | pkg/db/postgresql/batch/policies_batch_builder.go:95-99 | deleting policy by policy partitions the row deletes |
| `PoliciesBatch.RowDropsExceed` | pkg/db/postgresql/batch/policies_batch_builder.go:76-84 | a per-policy delete has more than 50000 arguments if and only if more than 49998 clusters are dropped from the policy |
| `PoliciesBatch.OversizedDelete` | pkg/db/postgresql/batch/policies_batch_builder.go:95-99 | any number of drops from one policy makes one statement of two arguments more; 49999 of them pass the limit |
| `PoliciesBatch.OversizedInsert` | pkg/db/postgresql/batch/base_batch_builder.go:56-60 | the 10001st insert prints a statement of 50005 arguments |
| `PoliciesDbSyncer.BatchingPreservesMeaning` | pkg/db/postgresql/batch/policies_batch_builder.go:87-102 | running a batch's statements in order equals applying the builder calls one at a time in call order, for calls of different rows |
| `PoliciesDbSyncer.RegroupingNeedsDisjointCalls` | pkg/db/postgresql/batch/base_batch_builder.go:85-99 | for calls of the same row it does not: the builder, told to delete a policy and then to insert a row of it, prints the insert first, and the row is lost |
| `PoliciesDbSyncer.HandleClusterPerPolicy` | pkg/dbsyncer/policies_transport_to_db_syncer.go:150-173 | emits exactly the differences of one policy, each once |
| `PoliciesDbSyncer.HandleClustersPerPolicyBundle` | pkg/dbsyncer/policies_transport_to_db_syncer.go:108-148 | its batch performs exactly the differences, each once, and makes the table the one the bundle asks for |
| `PoliciesDbSyncer.HandlePolicyComplianceStatus` | pkg/dbsyncer/policies_transport_to_db_syncer.go:222-256 | emits exactly the status differences of one policy, each once |
| `PoliciesDbSyncer.HandleComplianceBundle` | pkg/dbsyncer/policies_transport_to_db_syncer.go:179-220 | its batch performs exactly the differences, each once, and gives every row of the hub the reported status |
| `PoliciesDbSyncer.HandleMinimalComplianceBundle` | pkg/dbsyncer/policies_transport_to_db_syncer.go:259-304 | without a failing call the aggregated rows become the bundle's summaries; the first failing call ends it with a part of the differences done |
| `ClustersDbSyncer.HandleManagedClustersBundle` | pkg/dbsyncer/clusters_transport_to_db_syncer.go:64-110 | inserts new names, deletes missing ones, updates exactly those whose resourceVersion differs, each once; right if and only if equal versions mean equal payloads |
| `Snapshots.GetComplianceStatusByLeafHub` | pkg/db/postgresql/postgresql.go:123-147 | of the rows the query delivered, all or a part: a cluster is in a policy's set exactly when the hub has the row; no set is empty |
| `Snapshots.GetNonCompliantClustersByLeafHub` | pkg/db/postgresql/postgresql.go:150-178 | of the rows the query delivered, all or a part: the two sets of a policy are exactly its non-compliant and its unknown clusters |
| `Snapshots.GetManagedClustersByLeafHub` | pkg/db/postgresql/postgresql.go:95-114 | of the rows the query delivered, all or a part: each cluster of the hub maps to its stored resourceVersion |
| `Snapshots.GetPolicyIDsByLeafHub` | pkg/db/postgresql/postgresql.go:181-198 | of the rows the query delivered, all or a part: the policies with an aggregated row |
| `SystemRuns.InitInv` | pkg/db/worker-pool/db_worker_pool.go:41-50 | the process starts in the invariant, with every worker still to register |
| `SystemRuns.StepKeepsInv` | pkg/controller/dispatcher/dispatcher.go:47-66 | no step of transport, dispatcher or workers breaks the invariant, under any order of delivery and any failure |
| `SystemRuns.OnlyHandler` | pkg/db/worker-pool/db_worker.go:55-61 | a worker with a job is the only one that sends for its hub |
| `SystemSafety.FetchKeepsJobs` | pkg/conflator/conflation_unit.go:118-119 | a job given out is its unit's only one |
| `SystemSafety.AnnounceKeepsQueue` | pkg/conflator/conflation_unit.go:159-169 | a unit that raises its flag is put in the queue, where it was not |
| `SystemArrivals.ArrivalIsDelivery` | pkg/conflator/conflation_manager.go:37-39 | an arrival changes units and queue exactly as a delivery by the manager |
| `SystemArrivals.HandedOutAsArrived` | pkg/conflator/conflation_unit.go:89-100 | in every run, the metadata pending or handed out with a bundle carries the token that arrived with this bundle |
| `SystemHistory.OnlyTheHandlerWrites` | pkg/conflator/conflation_unit.go:149-169 | a hub's rows change only by a statement of the one job the hub has in the whole system |
| `SystemHistory.PlanStaysCurrent` | pkg/dbsyncer/policies_transport_to_db_syncer.go:113-141 | read-modify-write isolation: between a handler's read and its first statement, over any run, its plan stays the difference between bundle and tables |
| `SystemHistory.TablesAreSerial` | pkg/db/worker-pool/db_worker.go:55-61 | whenever no handler is sending, the tables are those of the attempts one after the other, each run alone |
| `SystemHistory.HubIsSerial` | pkg/db/worker-pool/db_worker.go:55-61 | the same for one hub while handlers of other hubs are sending |
| `SystemHistory.AttemptMeans` | pkg/dbsyncer/policies_transport_to_db_syncer.go:68-101 | each attempt in that order acted on a part of the differences it found; from well-typed tables at the start, each success gave the table its bundle asks for |
| `SystemHistory.NewestWins` | pkg/conflator/conflation_unit.go:72-103 | a unit knows the newest generation received, a pending one is newer than the last success, and lastProcessed is the newest success |
| `SystemHistory.SuccessesIncrease` | pkg/conflator/conflation_unit.go:137-144 | the successes of one hub and type have strictly increasing generations |
| `SystemHistory.DependencyFirst` | pkg/conflator/conflation_unit.go:199-217 | before a dependant bundle is handled, a success of the type it depends on had the needed generation or a newer one |
| `SystemHistory.InProcessInOrder` | pkg/dbsyncer/policies_transport_to_db_syncer.go:86-92 | the same for a bundle that is still being handled |
| `SystemRows.RowSetInvariant` | pkg/dbsyncer/policies_transport_to_db_syncer.go:108-148 | the hub's (policy, cluster) keys are those of the received bundle whose generation is lastProcessed, if later failures left nothing behind |
| `SystemRows.InterleavingMeansSuccesses` | pkg/db/worker-pool/db_worker.go:55-61 | if failed batches are rolled back, the tables are what the successful bundles ask for, one after the other |
| `SystemRows.RunMeansSuccesses` | pkg/db/worker-pool/db_worker.go:40-75 | the same of every run from the start |
| `SystemRest.NewestIsLast` | pkg/conflator/conflation_unit.go:137-144 | once the newest received generation of a type succeeded, the last attempt of that type was this success |
| `SystemRest.StoredWasSent` | pkg/dbsyncer/clusters_transport_to_db_syncer.go:83-102 | every stored payload is under its own name, and was sent by the hub or there from the start |
| `SystemRest.LastShows` | pkg/dbsyncer/policies_transport_to_db_syncer.go:103-256 | after a last attempt that succeeded, the rows of its kind are the bundle's, over partial failures before it and attempts of other kinds and hubs after it; compliance rows inserted since are unknown |
| `SystemRest.ErrorsAreKept` | pkg/db/postgresql/batch/policies_batch_builder.go:104-144 | over any attempts, a compliance row keeps the error it was inserted with, or had at the start |
| `SystemRest.CaughtUpShows` | pkg/conflator/conflation_unit.go:137-144 | so a type that is caught up shows in the tables: keys, statuses, payloads or aggregates of the newest bundle received |
| `HandlerPlans.Handle` | pkg/dbsyncer/policies_transport_to_db_syncer.go:68-101 | the handler of each kind of bundle emits exactly the differences |
| `HandlerPlans.HandlerPlan` | pkg/db/worker-pool/db_worker.go:55-60 | a started worker may take the step of the system with the plan its handler makes of the tables it finds |
| `SystemLiveness.StepKeepsCausalInv` | pkg/conflator/conflation_unit.go:106-169 | under causal delivery no step strands a unit, a bundle or a worker |
| `SystemLiveness.CausalStepExact` | pkg/conflator/conflation_unit.go:112-113 | and an arrival that is neither refused nor causally delivered does break this invariant |
| `SystemLiveness.HeldUnitHasReadyBundle` | pkg/controller/dispatcher/dispatcher.go:54-62 | GetNext never fails on a queued or dequeued unit |
| `SystemLiveness.SinglePlacement` | pkg/conflator/conflation_unit.go:159-169 | a unit is idle, once in the queue, in the dispatcher's hand or in process as one job; flagged exactly in the second and third; idle only without any bundle |
| `SystemLiveness.ChannelsHaveRoom` | pkg/db/worker-pool/db_worker.go:36-49 | RunAsync and registering never wait |
| `SystemLiveness.WorkersAreConserved` | pkg/controller/dispatcher/dispatcher.go:54-65 | workers not yet in the pool, in it, in the dispatcher's hand and occupied always add up to all |
| `SystemLiveness.QueueIsBounded` | pkg/conflator/ready_queue.go:27-33 | the ready queue is never longer than the number of units |
| `SystemProgress.StepLowersMeasure` | pkg/controller/dispatcher/dispatcher.go:47-66 | every step but an arrival and a failure report lowers an explicit well-founded measure |
| `SystemProgress.SomeStepIsEnabled` | pkg/db/worker-pool/db_worker_pool.go:61-63 | no deadlock: unless everything is at rest, some party can go on |
| `SystemProgress.RestIsAgreement` | pkg/conflator/conflation_unit.go:137-144 | at rest, the newest success of every hub and type is the newest generation received, nothing is pending, and the rows of every kind are the newest bundle's |
| `SystemProgress.RowsAtRest` | pkg/dbsyncer/policies_transport_to_db_syncer.go:108-148 | at rest, a hub's (policy, cluster) keys are those of the newest clusters-per-policy bundle it sent, whatever failed part-way before |
| `SystemProgress.EventualAgreement` | pkg/controller/dispatcher/dispatcher.go:47-66 | from every state of the causal invariant in which no handler is failing, the system can finish on its own, at rest and in agreement, rows included |
| `SystemProgress.AgreementAfterFailures` | pkg/conflator/conflation_unit.go:132-147 | the same from the middle of any failures: failing handlers report, their bundles are kept and handled again |
| `SystemProgress.EverySmoothRunAgrees` | pkg/controller/dispatcher/dispatcher.go:47-66 | every run without arrivals and failures lowers the measure, and if it cannot be continued it ended at rest and in agreement |
| `SystemProgress.EveryCausalRunCanAgree` | pkg/controller/dispatcher/dispatcher.go:47-66 | after every causally delivered run from the start, with any failures, the system can finish on its own and then agrees with all it received |
| `SystemProgress.EveryCausalRunEndsInAgreement` | pkg/db/worker-pool/db_worker.go:40-75 | whenever such a run reaches a state in which only an arrival can happen, it is at rest and in agreement |
| `SystemProgress.ServedInTurn` | pkg/conflator/ready_queue.go:36-50 | the i-th queued unit is in the dispatcher's hand right after i + 1 dequeues |
| `StuckBundles.FetchStrandsExactly` | pkg/controller/dispatcher/dispatcher.go:57-61 | GetNext's error strands the unit and the worker; without the error neither is stranded |
| `StuckBundles.QueuedWithReadyBundle` | pkg/conflator/conflation_unit.go:159-169 | every step that puts a unit in the ready queue puts one with a ready bundle there |
| `StuckBundles.StrandedByAnArrival` | pkg/conflator/conflation_unit.go:112-118 | a run from the start that strands a unit contains an arrival for it, while it was queued or held, that fails the condition of `Conflation.QueuedStaysReadyExact` |
| `StuckBundles.LostForever` | pkg/conflator/conflation_unit.go:112-118 | whatever follows, no bundle of a stranded unit is handled again and the stranded worker gets no job |
| `StuckBundles.StrandingRunStrands` | pkg/conflator/conflation_unit.go:89-103 | a concrete run of the four registered types that strands a unit and the only worker |
| `StuckBundles.RegisteredTypes` | pkg/dbsyncer/policies_transport_to_db_syncer.go:75-101 | by name: managed clusters, clusters per policy, compliance, minimal compliance in this order of priority; compliance depends on clusters per policy and nothing else on anything; no cycles |
| `StuckBundles.ComplianceAfterPlacements` | pkg/dbsyncer/policies_transport_to_db_syncer.go:86-92 | in every run over these types, a compliance bundle with base generation d > 0 is handled only after a success of a clusters-per-policy bundle of its hub with generation d or newer |

## Left out

- ConflationUnits.ConflationReadyQueue.BlockingDequeue: the wait on the condition variable is not modelled; the method is what happens once the queue is not empty, and in `System.dfy` the wait is the guard of the step.
- PoliciesDbSyncer.HandleMinimalComplianceBundle: modelled at the interface of `pkg/db/db.go:48-54`, one row operation per call, because the SQL text of its queries mixes the columns `id` and `policy_id`; the model takes each row by its policy.
- Statements.StatementMeansItsCalls: the SQL text outside the placeholders is represented by a command tag and its meaning in `Tables.dfy`; an INSERT of an existing key is modelled as overwriting. After a complete read no handler does it (`Diffs.PlacementInsertsAreNew`, `TruncatedReads.ClusterInsertsAreNew`); after a partial one the results of `TruncatedReads.dfy` count it as a failure.
- SystemProgress.EventualAgreement: fairness of the scheduler is not modelled; the statement is that the system can finish, and `SystemProgress.EverySmoothRunAgrees` that runs without failures cannot go on forever and end in agreement.
- SystemRows.RowSetInvariant: before the newest bundle is handled, a failed clusters-per-policy batch newer than the last success must have left nothing behind; a partly executed one leaves a mixture until the retry, as `Retry.PartialRow` says row by row. `SystemRest.CaughtUpShows` needs no such condition.
- The handler of a bundle is chosen by the kind of its contents; that a registration's type and handler belong together is taken from the registrations.
- Dispatcher and workers are steps of `System.dfy`, not loops of methods: what matters about them is how they interleave with each other and with arrivals.
- Raising a unit's flag and appending it to the queue are one step, as both happen under the unit's lock.
- Handlers run row operations one at a time in `System.dfy`; a database runs a statement's rows at once, so the model allows more interleavings and more partial failures than there are.
- Generations are natural numbers of any size, since the program only compares them; no arithmetic is done on them.
- Bundles with repeated names, and a cluster reported in both lists of a policy: constraint errors of the database are not modelled.
- Objects of an unexpected Go type inside a bundle, which handlers skip, have no counterpart in the typed model.
- Registering a bundle type after units exist: units keep the registrations of their creation.
- Transport, JSON decoding, committed offsets, start-up, configuration watching and aggregation-level predicates: arrivals are an arbitrary sequence of steps.
- Shutdown by cancelled contexts and closed channels, connection handling and logging.
