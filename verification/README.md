# Verification of the node pool

EasyProxiesV2 keeps a pool of proxy nodes consistent across four places: an in-memory store, the
SQLite table behind it, the list of configured nodes, and a live sing-box runtime.  This project
models the state machines between these places and proves what they keep.

| part | modules |
|---|---|
| The probe scheduler: a bounded worker pool that runs one probe per key for any number of waiters. A state machine over its lock-protected sections, channel operations and context events, with every interleaving of submitters, workers, cancellations and shutdown; and a class with the same sections as methods. | SchedulerModel, SchedulerInvariant, SchedulerSteps, SchedulerQueueSteps, SchedulerRunSteps, SchedulerSafety, SchedulerTheorems, SchedulerPriority, SchedulerShutdown, ProbeScheduler |
| The store: memory and table, one transaction per mutator, and the record for undoing memory; pruning of import jobs. | StoreModel, StoreWrites, StoreUndo, StorePool, StoreResults, Store, JobPruning |
| The staged import: replacing everything one source contributed, as one transaction over store and configuration; deleting a source. | SourceRefs, Nodes, ChangeSet, Publishing, StagedPlan, StagedExact, PoolJoin, JoinOutcome, RefsKept, RuntimePairing, ConfigNodes, ImportCourse, StagedImport, ImportExact, Detach |
| The runtime manager: unique tags, the full build and the change in place, the life of instances, and port allocation. | NodeNames, Reconcile, BoxManager, Ports |
| The cache of the node list's summary and filters, over every interleaving of writers and readers. | UiCache |
| The pool outbound: a half-open circuit breaker, four selection policies, connection counts. | Breaker, RoundRobin, PoolSelection, Connections |
| Work queues and verification: the refresh queue with retries, probe rounds, site tests, the pool preview, interleaving. | RefreshQueue, ProbeRounds, SiteTargets, PoolPreview, Interleave |

Orders holds what iterating over a Go map in an unknown order needs, Options an optional value.

Dials, SQL transactions, port probes, clocks and the replies of the node manager are arbitrary:
parameters, nondeterministic choices, or functions the theorems quantify over.  Where a loop goes
through a Go map the order is a parameter or an arbitrary enumeration.

Some properties one would expect do not hold of the code.  Each is stated with the exact condition
under which it does, or with a run that shows it fails:

- A failed store mutator restores memory exactly if no id repeats (StoreUndo): a repeated id's record
  is overwritten by the value in between.
- Verifying the applied runtime counts routes; it makes a bijection of pool and configuration exactly
  if no two members share a route (RuntimePairing.PairedOnto).
- A rolled-back import restores nodes up to their update time exactly if they were stored in the form
  the store writes (StagedExact.StoredAgain).
- An import can be rolled back with success and leave the configuration on other ports than the
  members': pool and configuration are paired afterwards exactly if restoring the configuration gave
  no member's node another port (StagedImport.ImportService.ApplyStagedNodes,
  RuntimePairing.PortsPaired).
- A call of high priority does not hasten a task of normal priority that already waits: only those
  who join during an execution count for the priority of the next one
  (SchedulerPriority.JoinsNext, SchedulerPriority.RenewedPriority), cancelled ones included.
- A built instance changed in place, any number of times, is the one that would be built anew exactly
  if there are nodes and none asks for a chain (Reconcile.Instance.ReconcileServing): a new chained
  node is served without its chain, where a build is refused.  A node that cannot be built gets into
  no instance: the build counts its listeners (Reconcile.WholeExactly), and a change builds every new
  node first.
- The sequential policy can miss a usable member when its 32-bit counter wraps during the scan and
  the number of members does not divide 2^32 (PoolSelection.SequentialComplete).
- A balanced pick can take the probing permit of the member it does not return, which then nobody
  gets: exactly if a healthy member is no busier than a due one, or all draws can miss and two due
  members are neighbours on the ring (PoolSelection.LeakExactly, PoolSelection.LeakingPick).
- A manual blacklisting can end before its deadline: exactly if a later event counts and lets the
  member go, which a failure of an old connection can be (Breaker.BanEndsEarly,
  Breaker.FailureShortensBan).
- Cached reads see one's own writes but are not monotonic: a read can be older than a version committed
  before it began exactly if that version's write is the one that had not returned
  (UiCache.NotOlderExactly); it is never more than one version behind (UiCache.OneBehind).
- The two parts of a filter read may come from different versions: with one write between its queries
  they belong to no version exactly if the write changed both the countries and the tags of the scope
  (UiCache.TornByOne, UiCache.FiltersTorn).
- An import that succeeds can lose a published node with references of other sources: exactly if it
  joins the pool as a duplicate that can be deleted, or in a conflict the manager reports, a port
  taken by the system or no port left included (ImportExact.GoneExactly, ImportExact.LosingImport).
- After cancellation the probe scheduler can drop waiters it had accepted, at exactly three kinds of
  step (SchedulerShutdown.DroppedExactly, SchedulerShutdown.WaiterLostAtShutdown), and it can still
  accept some after Close, which nobody answers (SchedulerShutdown.SilentAfterClose,
  SchedulerShutdown.WaiterLostAfterClose).
- When closing the running instance reports an error on the way to an empty runtime, the closed
  instance stays the current one (BoxManager.Manager.EnterEmptyRuntime).
- Deleting a source removes configured nodes before it writes the store.  After a failure the
  configuration is the old one exactly if no name was to be dropped, or none was removed, or the
  reload left the old one (Detach.DetachSources); a refused write leaves the pool unpaired
  (Detach.FailingDetach).
- An import by tag indexes an empty list exactly if a listed staging node has other references and all
  are nameless, or has none and its staging reference, or its own fields if no staging reference is
  listed, name neither tag nor import nor source (Publishing.PublishableExactly, and the Crashed
  outcome of StagedImport.ImportService.ApplyStagedNodes).  The two paths that create such staging
  nodes always give them an import id (internal/importer/service.go:2243,
  internal/importer/tag_binding.go:261), so
  it takes a node that came into the table another way, a restored snapshot for instance; a refresh
  never meets one in the form the store writes (Publishing.StoredPublishable).

`dafny verify dfyconfig.toml` checks the project.

## Model

| member | source | states |
|---|---|---|
| SchedulerTheorems.OneExecutionPerKey | internal/importer/probe_scheduler.go:205-255 | In every reachable state two different workers never run, or deliver results of, tasks of the same key. |
| SchedulerTheorems.AnswersAreFresh | internal/importer/probe_scheduler.go:89-163 | A waiter is sent at most one answer, and a result only from an execution that began after its Submit was called. |
| SchedulerTheorems.WaitersAreKept | internal/importer/probe_scheduler.go:101-163 | Until the scheduler is cancelled, a waiter that Submit took in and whose context lives is answered or sits in the list of a task in the table. |
| SchedulerTheorems.AccountingIsExact | internal/importer/probe_scheduler.go:104-137 | Whenever the mutex is free, until Close drops the table, queued and running are the numbers of waiting and running tasks in the table, and together they fit in the slots taken, which fit in the capacity. |
| SchedulerTheorems.QueuesAreExact | internal/importer/probe_scheduler.go:165-203 | A task is in at most one of the two queues, at most once, and only while it is in the table and not running. |
| SchedulerPriority.QueuesByPriority | internal/importer/probe_scheduler.go:165-176 | Until Close drops the table the high queue holds tasks of high priority only, and the normal queue none of them. |
| SchedulerPriority.HighFirst | internal/importer/probe_scheduler.go:187-203 | A worker that asks for work takes the first queued task of high priority whenever there is one; otherwise it waits for either queue. |
| SchedulerPriority.RenewedPriority | internal/importer/probe_scheduler.go:234-249 | A task queued again after its execution is of high priority exactly if one of those who joined during the execution asked for that. |
| SchedulerTheorems.EnqueueNeverBlocks | internal/importer/probe_scheduler.go:165-176 | A task about to be queued always finds room in its queue. |
| SchedulerTheorems.StaleGuardNeverFires | internal/importer/probe_scheduler.go:205-210 | A task that a worker has taken from a queue is always the registered one of its key and not running: the guard at the start of run is never taken. |
| SchedulerTheorems.DeliveryNeverBlocks | internal/importer/probe_scheduler.go:226-232 | The channel of every waiter still to be served is empty, so that sending its answer never waits. |
| SchedulerTheorems.SlotsAreOwned | internal/importer/probe_scheduler.go:104-137 | The slots taken are exactly one for each registered task and one for each goroutine about to register a task or to give a slot back: none leaks. |
| SchedulerSafety.StepKept | internal/importer/probe_scheduler.go:64-326 | Every step of every submitter, worker, waiter context, and of cancelling and closing the scheduler keeps the invariant the promises rest on. |
| SchedulerSafety.ReachesInv | internal/importer/probe_scheduler.go:64-326 | The invariant holds after every finite interleaving of such steps, for every worker count and capacity. |
| SchedulerShutdown.DroppedExactly | internal/importer/probe_scheduler.go:129-324 | After cancellation, a live unanswered waiter stays with the scheduler at a step if and only if the step is not one of these: until Close drops the table, withdrawing a task that could not be queued, for those who joined it since, or ending the execution it waits behind; afterwards, withdrawing any task of its key. |
| SchedulerShutdown.SilentAfterClose | internal/importer/probe_scheduler.go:309-324 | Once Close has dropped the table no run of any length answers anybody: every waiter, later ones included, has for good the answer it had then, or none. |
| SchedulerShutdown.WaiterLostAfterClose | internal/importer/probe_scheduler.go:104-137 | A run in which a waiter is accepted after Close, by the random choice of the two selects, and is then dropped when another call withdraws its own task of that key. |
| SchedulerShutdown.WaiterLostAtShutdown | internal/importer/probe_scheduler.go:129-136 | There is a run in which an accepted waiter with a live context is neither answered nor attached to any task: delivery is not promised at shutdown. |
| ProbeScheduler.ProbeScheduler.AttachLocked | internal/importer/probe_scheduler.go:151-163 | The guarded fields change as the attach step of the state machine says: the waiter joins the present or the next batch and is counted as deduplicated. |
| ProbeScheduler.ProbeScheduler.AttachExisting | internal/importer/probe_scheduler.go:140-149 | Finds a registered task of the key if there is one and attaches to it; otherwise nothing changes. |
| ProbeScheduler.ProbeScheduler.InsertLocked | internal/importer/probe_scheduler.go:112-128 | Under the second lock either joins a task that appeared meanwhile or registers a new one, as the state machine does. |
| ProbeScheduler.ProbeScheduler.ActiveWaiters | internal/importer/probe_scheduler.go:290-298 | The waiters whose context is not cancelled, in their order. |
| ProbeScheduler.ProbeScheduler.WithdrawLocked | internal/importer/probe_scheduler.go:129-137 | Removing a task that could not be queued is the withdrawing step of the state machine. |
| ProbeScheduler.ProbeScheduler.BeginRun | internal/importer/probe_scheduler.go:205-224 | Up to the release of the mutex, run refuses a stale task, removes one nobody waits for, or begins to run it for its live waiters, each as the state machine does. |
| ProbeScheduler.ProbeScheduler.FinishRun | internal/importer/probe_scheduler.go:234-255 | The end of an execution removes its task, or renews it for the live waiters that joined meanwhile unless the scheduler is cancelled. |
| ProbeScheduler.ProbeScheduler.NotifyAll | internal/importer/probe_scheduler.go:261-266 | Every listed waiter with an empty channel is told of the cancellation; a full channel and everyone else's is left as it is. |
| ProbeScheduler.ProbeScheduler.CloseTasks | internal/importer/probe_scheduler.go:314-324 | Closing tells exactly the unanswered waiters still attached to some task, and empties the table. |
| SourceRefs.DeduplicateSourceRefs | internal/importer/sources.go:44-60 | The loop over the seen map computes the deduplication the lemmas below describe. |
| SourceRefs.DedupFacts | internal/importer/sources.go:44-90 | What is kept is normalized, has one reference for each identity the input has and no other, and nothing that is not some input's normal form. |
| SourceRefs.DedupFixed | internal/importer/sources.go:44-60 | A list that is normal and without two references of one identity is left as it is, order included. |
| SourceRefs.DedupTwice | internal/importer/sources.go:44-60 | Deduplicating a second time changes nothing. |
| SourceRefs.NormalizedTwice | internal/importer/sources.go:62-102 | Normalizing a reference a second time changes nothing. |
| SourceRefs.NormalizedFields | internal/importer/sources.go:62-102 | A normal reference has its fields trimmed; without a mode it is a subscription exactly if its source is an address on the web, in whatever case, and subscriptions are fetched in the automatic way only. |
| SourceRefs.SameIdentity | internal/importer/sources.go:79-90 | Two normal references are one source exactly if tag, mode, source and chain are equal, and the import too unless the mode is url; nameless ones have neither tag, mode, source nor import. |
| Nodes.NodeSourceRefs | internal/importer/sources.go:16-36 | A node's references: the deduplication of its list followed by the one spelled out in its own fields. |
| Store.Store.UpsertNodes | internal/importer/store.go:205-239 | However the list repeats, on success the references stored under an id stay in front, the sources afterwards are those before together with those given, and all else is that of the last node listed under the id, the creation time filled in; other ids are as before. When the transaction fails the table is untouched and memory is undone; both stay equal and keyed by id on success, and on failure for lists without repeats. |
| Store.Store.ApplyNodeChanges | internal/importer/store.go:241-280 | Writes then deletes, in both places or in neither: a written node shows the references it was given with and replaces what was stored. Memory and table stay equal and keyed on success, and on failure for written lists without repeats. |
| Store.Store.DeleteNodes | internal/importer/store.go:676-698 | Deletes in both places; after a failure memory and table still agree if and only if no stored id was listed twice. |
| Store.Store.SetOrder | internal/importer/store.go:584-609 | A known id gets the position it is listed at last, and nothing else changes but the time, in both places; they stay equal on success, and on failure when no stored id was listed twice. |
| Store.Store.RestoreNodeStatesIfCurrent | internal/importer/store.go:282-316 | Exactly the listed nodes still in the expected state get their recorded state, in both places or in neither, and equality is kept either way. |
| Store.Store.RecoverStaleTestingNodes | internal/importer/store.go:318-362 | Exactly the nodes found in testing go back to the state their fields tell, in both places or in neither; the number recovered is returned. |
| Store.Store.UpdateNodeState | internal/importer/store.go:499-522 | One node changes, in its state, error and times only, in both places; an unknown id or a failure changes nothing. |
| Store.Store.MarkInPoolMany | internal/importer/store.go:535-582 | Known nodes become members in both places or in neither; distinct pool orders stay distinct. |
| Store.Store.RestoreNodesSnapshot | internal/importer/store.go:405-427 | The snapshot replaces memory and table, or nothing changes; afterwards they agree if and only if the snapshot has every node under its own id. |
| StoreResults.MergedShows | internal/importer/store.go:213-223 | Storing a node merges: the references it shows are those stored for its id, in front, and the sources are these together with the given ones. |
| StoreResults.UpsertedRefs | internal/importer/store.go:205-223 | So does a whole list, whatever it repeats, for every id. |
| StoreResults.ReplacedShows | internal/importer/store.go:249-260 | A node written by a change set shows the references it was given with. |
| Store.SnapshotMirrors | internal/importer/store.go:405-427 | Writing a map's nodes by their ids gives the map back exactly when every node is under its own id. |
| StoreModel.UndoExact | internal/importer/store.go:225-239 | Undoing a sequence of writes to distinct ids from the recorded previous values restores the map. |
| StoreUndo.PutsUndone | internal/importer/store.go:205-239 | For visible writes, undoing restores the map if and only if no id is written twice. |
| StoreUndo.UpsertUndone | internal/importer/store.go:205-239 | With a clock that has moved on, a failed UpsertNodes leaves memory as it was if and only if no id is listed twice. |
| StoreUndo.ChangesUndone | internal/importer/store.go:241-280 | A failed ApplyNodeChanges leaves memory as it was if, and with a clock that has moved on only if, no written id is listed twice; deletions may repeat. |
| StoreUndo.DeleteUndone | internal/importer/store.go:676-698 | A failed DeleteNodes leaves memory as it was if and only if no stored id is listed twice. |
| StoreUndo.ReorderUndone | internal/importer/store.go:584-609 | With a clock that has moved on, a failed SetOrder leaves memory as it was if and only if no stored id is listed twice. |
| StorePool.MarkKeepsOrders | internal/importer/store.go:535-582 | New members get orders after every existing member's and different from each other's; members keep theirs. |
| StorePool.MarkKeepsDistinct | internal/importer/store.go:535-582 | If members' orders were distinct before, they are after. |
| JobPruning.JobStore.PruneJobs | internal/importer/store.go:109-197 | Success leaves exactly the pruned jobs; without a commit memory and table are as before; a job on which memory and table agreed is one on which they still agree, a deleted one included. |
| JobPruning.PrunedUnique | internal/importer/store.go:109-173 | What pruning may leave is determined: running jobs untouched at runtime, interrupted ones canceled at startup, none older than a week, and of the others the hundred that rank first. |
| JobPruning.PrunedMeans | internal/importer/store.go:113-173 | At runtime running jobs stay. Of the others none last touched more than a week ago is left, and at most a hundred are; a later one goes only if a hundred are left, each of them parsed where it is not, or touched later, or as late with a smaller id. Interrupted jobs that stay are canceled, the others unchanged. |
| ChangeSet.DeletedExactly | internal/importer/service.go:1208-1275 | A published node is deleted exactly if all its references, of which it has one, match and it was not staged again; and it is left untouched, or its failed staging passed over, exactly if none of its references matches. |
| ChangeSet.RewrittenExactly | internal/importer/service.go:1208-1280 | A rewritten node keeps its id and shows after storing: every reference that does not match, and of matching ones only what its staged node brings. |
| ChangeSet.PublishedSettled | internal/importer/service.go:1161-1183 | What a staging node publishes has normal, distinct references that include the one in its own fields, its id and state, and is no pool member yet. |
| Publishing.PublishableExactly | internal/importer/service.go:1161-1181 | A staging node has a source to publish under exactly if one of its other references is identified or, if it has no other, the fallback mode, or the tag, import or source of its staging reference, is not blank. |
| Publishing.PublishedSources | internal/importer/service.go:1161-1181 | A staging node is published with exactly the sources of its references that are not for staging or, if it has none, with the one it was staged with, under the fallback mode. |
| StagedPlan.StagedLast | internal/importer/service.go:1153-1187 | Under an id is staged the last usable listed node whose address and chain make that id. |
| StagedPlan.StagedFrom | internal/importer/service.go:1153-1187 | An id is staged exactly if some usable listed node makes it. |
| Publishing.StoredPublishable | internal/importer/service.go:1161-1181 | In the form the store writes, the only node without a source is one with no other reference and a blank tag, import and source, under a blank fallback mode; a refresh, whose fallback mode is url, never meets one. |
| Publishing.CrashingStore | internal/importer/service.go:1161-1182 | A store with such a node, in the form the store writes, on which the import by tag indexes an empty list. |
| ChangeSet.RefreshByIdentity | internal/importer/service.go:1112-1116 | The test of a subscription refresh tells no two references of one identity apart, nor a reference from its normal form. |
| ChangeSet.TagByIdentity | internal/importer/service.go:1118-1123 | So does the test of an import by tag. |
| StagedPlan.Decide | internal/importer/service.go:1205-1280 | The branches of the pass give each stored node the fate, and drop from the pool the names, that the exactness lemmas speak of. |
| StagedPlan.PlanChanges | internal/importer/service.go:1189-1284 | One pass in any order over the nodes yields the whole plan: what to write, to delete, to remember for the way back, and which pool names to drop. |
| StagedPlan.LeavesPoolExactly | internal/importer/service.go:1261-1273 | A pool member's name is dropped exactly if the change set deletes the node or rewrites it into one that is no member. |
| StagedImport.ImportService.CollectStaged | internal/importer/service.go:1153-1187 | The staging nodes under the ids they publish under, or the crash on a publication without an identified source; all listed nodes are usable exactly if none was left out. |
| StagedImport.ImportService.Preflight | internal/importer/service.go:1352-1378 | Exactly the candidates the runtime cannot build are marked failed, out of the pool and without port; the names added to those dropped are exactly the non-blank names of the remembered members among them. |
| StagedImport.ImportService.ApplyStagedNodes | internal/importer/service.go:1125-1350 | Which of the outcomes comes about is decided by the replies: success if and only if every step of its course succeeds, a rollback if and only if some step does not and both halves of the way back do. Success leaves pool and configuration paired, and of what was committed exactly the nodes given up when joining are gone, with no reference changed. After a failure the nodes are as before, up to update times, if they could be stored, and the configuration is the old one if it was restored on its own ports; after a rollback they are paired exactly if every configured member stays on its port. The names dropped are exactly those of members that leave; refusals change nothing. |
| StagedImport.ImportService.Rollback | internal/importer/service.go:1286-1310 | From any store that differs in touched nodes only: it succeeds if and only if the nodes are stored and the configuration is restored, and each half stands alone. Stored nodes are all as before up to renewed update times, whatever becomes of the configuration; the configuration is as restoring leaves it, whatever becomes of the nodes. |
| StagedImport.ImportService.Carry | internal/importer/service.go:1312-1349 | Success exactly if the removal, the commit, the joining, the reload and the check each succeed on the replies given; it commits exactly the plan, and in the end exactly the nodes given up are missing, every reference is as committed, and only nodes that could join and members have changed. A failure has changed touched nodes only. |
| StagedImport.ImportService.VerifyAppliedRuntime | internal/importer/service.go:1398-1445 | No error exactly if ports are served, the configuration is listed, has distinct routes, as many as members, and every member's on a nonzero port, and differing ports can be stored; then pool and configuration are paired. An error changes nothing, agreement neither, no node comes or goes. |
| StagedImport.ImportService.EnsurePoolRuntimeConsistency | internal/importer/service.go:1447-1494 | Succeeds if and only if the first check finds no fault, or the pool is restored as configuration, no two members share a route, all have a port, their own or one given anew, these are stored and the second check is answered. Success means the pool and the configuration are paired; where they were and are served, it changes nothing; no reference changes, and no node outside the pool. |
| StagedImport.ImportService.PromoteMany | internal/importer/service.go:3668-3782 | For any list, repeats included: fails on an empty list and exactly when the replies say so; on success the missing nodes are exactly the duplicates that could be deleted and the nodes in conflict, the new members exactly the nodes given a port and kept, and the number returned is theirs. Nothing but listed nodes that can join is touched, and no reference. |
| StagedImport.ImportService.DeleteConfigNodesStrict | internal/importer/service.go:4260-4296 | Fails exactly if names are asked for and none is configured or saving fails; success removes exactly the configured nodes with one of the trimmed names, failure none. |
| StagedImport.ImportService.DeleteNodes | internal/boxmgr/manager.go:1411-1457 | Succeeds exactly if a configured node has one of the trimmed names and the configuration is saved; then exactly these nodes are gone. |
| PoolJoin.ChooseJoining | internal/importer/service.go:3675-3707 | For any list, repeats included: the duplicates are, in order, the nodes that can join on a route that is configured or that one listed before has; all others that can join are taken, in order and changed in name only, each under the first free numbering of the name it asks for, given the configured names and those of the nodes taken before it. |
| PoolJoin.TaggedName | internal/importer/service.go:4509-4522 | A tagged name is the tag if there is no name; otherwise it starts with the tag and a dash, ends with the name, and is not tagged a second time. |
| PoolJoin.JoinersOrDuplicates | internal/importer/service.go:3675-3707 | Exactly the listed nodes that have passed and are in no pool are taken or duplicates; in a list without repeats no node is both. |
| PoolJoin.JoinersApart | internal/importer/service.go:3688-3699 | No two of the nodes taken share a route, however the list repeats. |
| JoinOutcome.LostExactly | internal/importer/service.go:3708-3756 | Of a list without repeats exactly those nodes are lost that are duplicates, if they can be deleted, or that the manager reports in conflict and that can be deleted. |
| StagedExact.ReplacedExactly | internal/importer/service.go:1189-1328 | After the commit a published node is gone exactly if all its references matched and it was not staged again; otherwise its matching references come from its staged node and all others are kept. |
| StagedExact.PlaceKept | internal/importer/service.go:1205-1280 | A published node that passed again is stored with the new data; as a pool member it keeps its name, port, membership and mark of use, and its country if none was found. If the runtime cannot build it, it is failed, out of the pool and without port, with the reason. |
| StagedExact.AddedExactly | internal/importer/service.go:1282-1328 | An id that was not published is present afterwards exactly if it was staged, with its staged references. |
| ImportExact.ImportIsExact | internal/importer/service.go:1125-1350 | The whole import, joining and verifying included: a published node is there in the end if and only if it was staged again or not all its references matched, and it was not given up when joining; a new one if and only if it was staged and not given up. What is there has its matching references replaced and all others kept. |
| ImportExact.GoneExactly | internal/importer/service.go:3675-3756 | Given up is exactly a node passed on to join that is a duplicate and could be deleted, or that the manager had a conflict with and could be deleted; it passed, can be built and was no member. |
| ImportExact.OthersSurvive | internal/importer/service.go:1312-1349 | A committed node that is not passed on, or cannot join, or when nothing joins, is there in the end with its references, and unchanged unless it is a member. |
| ImportExact.LosingImport | internal/importer/service.go:3724-3756 | An import that succeeds and loses a published node with a reference of another source: the manager reports a conflict when the node joins. |
| StagedExact.StoredAgain | internal/importer/service.go:1286-1302 | Putting a remembered node back changes nothing but its update time if and only if its references are in the form the store writes and its creation time is set. |
| StagedExact.WrittenCanonical | internal/importer/store.go:205-280 | Every node the store writes is in that form. |
| ImportCourse.BackIs | internal/importer/service.go:1286-1302 | Writing back the remembered nodes and deleting the new ones restores any store that differs in touched nodes only. |
| ImportCourse.BackPaired | internal/importer/service.go:1300-1309 | A store so restored is paired with every configuration it was paired with. |
| ImportCourse.PlanWithin | internal/importer/service.go:1190-1285 | Whatever the plan writes or deletes is among the ids remembered for the way back. |
| RuntimePairing.PairedOnto | internal/importer/service.go:1398-1445 | Given the checks of the verification, which count, every configured node is a member's if and only if no two members share a route. |
| RuntimePairing.SyncedPairs | internal/importer/service.go:1416-1445 | Writing back the ports and names that differ leaves the pool paired with the configuration, with the same members and no other node changed. |
| RuntimePairing.DesiredAgrees | internal/importer/service.go:1447-1494 | The pool as a configuration agrees with the pool exactly if no two members share a route and every one has a port, its own or one given anew. |
| RefsKept.KeepsUpserts | internal/importer/service.go:1416-1445 | Storing nodes again with references they already have changes no node's references. |
| ConfigNodes.WithoutExactly | internal/boxmgr/manager.go:1433-1451 | What remains of a configuration are exactly the nodes with another name; it is unchanged exactly if none had one of the names. |
| Detach.DetachSources | internal/importer/service.go:3923-3973 | Success exactly if the removal, the reload and the commit succeed where they are needed: then every node is detached exactly and those touched are counted. A failure leaves the store as it was, and the configuration exactly if no name was to be dropped, none was removed, or the reload left the old one. |
| Detach.FailingDetach | internal/importer/service.go:3956-3971 | Starting from a paired pool and a member whose references all match: when the change set is refused the store is as before and is no longer paired with the configuration. |
| Detach.DetachedExactly | internal/importer/service.go:3923-3971 | A node is gone exactly if all its references matched; the others keep exactly the references that do not match, and are untouched if none did. |
| Detach.DetachedTwice | internal/importer/service.go:3923-3971 | Detaching the same source again finds nothing. |
| NodeNames.NextUniqueName | internal/importer/service.go:3817-3836 | The first of base, base-2, base-3, ... that is not taken, which is then taken too. |
| NodeNames.NodeTags | internal/builder/node.go:154-176 | The loop terminates with the tags the lemmas below describe. |
| NodeNames.TagsDistinct | internal/builder/node.go:154-176 | Tags are distinct and none is a reserved one. |
| NodeNames.TagsPrefix | internal/builder/node.go:154-176 | Nodes added at the end do not change the tags of those before. |
| NodeNames.OwnTag | internal/builder/node.go:154-176 | Each tag is the first free numbering of the node's own name as a tag, or of node-1, node-2, ... by its position if nothing of the name is left, given the tags of earlier nodes. |
| NodeNames.SlugJoins | internal/builder/builder.go:1363-1375 | What stands on the two sides of a character that is no letter or digit is joined by one dash if both sides leave something, and otherwise is the side that does. |
| NodeNames.SlugWhole | internal/builder/builder.go:1363-1375 | A name of letters and digits only is its own tag. |
| NodeNames.TakenBound | internal/builder/node.go:160-172 | At most as many numberings are tried as names are taken, so that the search ends. |
| NodeNames.FirstFreeUnique | internal/builder/node.go:160-172 | The first free numbering is unique. |
| NodeNames.ItoaReads | internal/importer/service.go:3830-3836 | The number appended to a name reads as that number in decimal, without leading zero. |
| Reconcile.SpecsAt | internal/boxmgr/manager.go:1794-1807 | The specs have every node under its own tag: no node hides another. |
| Reconcile.Build | internal/builder/builder.go:289-307 | A full build makes a listener, an outbound and a mapping for exactly the nodes that can be built and ask for no chain, and fails if there is none. |
| Reconcile.ServesFullBuild | internal/boxmgr/manager.go:1809-1918 | A runtime that listens for some nodes and maps some tags is a full build's if and only if it listens for exactly the nodes a full build serves, at least one, and maps no others. |
| Reconcile.ReconciledFullBuild | internal/boxmgr/manager.go:1809-1918 | A change in place of a fully built runtime ends with what a full build of the desired nodes makes if and only if there are desired nodes, all can be built and none asks for a chain. |
| Reconcile.Instance.ReconcileBuilt | internal/boxmgr/manager.go:1825-1918 | A change in place that succeeds on what a full build made ends with what a full build of the desired nodes makes exactly if no node differs, or there are desired nodes, all can be built and none asks for a chain. |
| Reconcile.WholeExactly | internal/boxmgr/manager.go:861-889 | An instance is built exactly if there are nodes, all can be built and none asks for a chain: a build with fewer listeners than nodes is refused. It then serves every node. |
| Reconcile.Instance.ReconcileServing | internal/boxmgr/manager.go:1825-1918 | An instance that serves all its nodes serves all the desired ones after every change that succeeds, and then is the one that would be built for them exactly if there are any and none asks for a chain. |
| Reconcile.Instance.RemoveOld | internal/boxmgr/manager.go:1884-1893 | Whether or not it succeeds, every listener still there has its own port and resolves to an outbound still there; success leaves exactly the kept nodes that were served. |
| Reconcile.Instance.AddNew | internal/boxmgr/manager.go:1895-1913 | Likewise while creating; success leaves the runtime serving the kept and the new nodes and mapping all desired ones. |
| Reconcile.Instance.ReconcileMultiPort | internal/boxmgr/manager.go:1825-1918 | From any runtime: success with a change serves the new nodes and the unchanged ones it served already; every failure leaves distinct listeners that resolve; an unbuildable new node, or nothing to change, leaves everything as it was. |
| Reconcile.Instance.Resolve | internal/outbound/dispatch/dispatch.go:80-97 | A connection from a live listener of a sound runtime finds its mapped outbound; an unmapped listener without fallback finds none. |
| BoxManager.Manager.CreateBox | internal/boxmgr/manager.go:861-977 | Called only while no instance is open; then exactly the new one is, if it could be created. |
| BoxManager.Manager.CreateAndStart | internal/boxmgr/manager.go:329-365 | Given what comes of each attempt: at most one instance per attempt and one more, the first that starts is open at the end and none on failure; only the moved ports differ from the given configuration. |
| BoxManager.StartsExactly | internal/boxmgr/manager.go:329-365 | An instance comes up exactly if some attempt starts, among one per node and one more, and each before it found a port in use and could move the node; ports have moved exactly if it was not the first. |
| BoxManager.Manager.StartLocked | internal/boxmgr/manager.go:294-383 | Success exactly if monitoring begins, a configuration is there and no instance, nobody is closing at either look, an instance comes up and moved ports are saved; it then runs, or nothing for an empty configuration. Failure keeps what was open; after closing began nothing is created. |
| BoxManager.Manager.ReloadLocked | internal/boxmgr/manager.go:393-540 | Success exactly if an instance ran, the ports could be rebuilt and saved, the new instance came up and nobody is closing at either look: it then runs the new configuration on its ports. After a failure on the way the old configuration runs exactly if the new instance did not come up and going back succeeds; a reload that does not begin changes nothing. |
| BoxManager.Manager.RollbackToOldConfig | internal/boxmgr/manager.go:572-611 | The old configuration runs afterwards if and only if there is one, nobody is closing at either look or has cancelled, and it can be created and started; otherwise nothing is open, and nothing is created once closing began. |
| BoxManager.Manager.EnterEmptyRuntime | internal/boxmgr/manager.go:1612-1650 | Nothing is open afterwards; it fails if and only if there was an instance and closing it reports an error, and then the closed instance stays current. |
| BoxManager.Manager.TriggerReloadLocked | internal/boxmgr/manager.go:1530-1580 | Success exactly if the way taken succeeds: emptying, starting on new ports, the change in place or else the reload. It serves the edited configuration, except on an instance that had been closed but kept; an instance stays only if mode and settings did not change and no chains are used; what runs after a failed change is stated exactly. |
| BoxManager.Manager.ApplyRestoredConfig | internal/boxmgr/manager.go:1582-1610 | Success exactly if emptying, reloading or starting does; it serves the restored configuration up to its ports, or nothing for an empty one. After a failure what ran before runs exactly if going back succeeds. |
| BoxManager.Manager.ShutdownLocked | internal/boxmgr/manager.go:711-757 | No instance is open or current afterwards, and none was created. |
| BoxManager.AnyRun | internal/boxmgr/manager.go:294-757 | Over any sequence of operations with any failures, at every moment between two of them the open instances are exactly the current one, or none if closing it reported an error; and from shutdown on none is open and none is created. |
| UiCache.ReadYourWrites | internal/importer/state_db_ui.go:27-141 | Over every interleaving, a summary read returns the summary of a version that includes every write that had returned before the read began; of a filter read each of the two parts does, the later query seeing no older version. |
| UiCache.ReachesInv | internal/importer/state_db_ui.go:27-141 | In every reachable state whatever is cached, or may still be cached by a reader on its way, reflects every write that has returned. |
| UiCache.NotOlderExactly | internal/importer/state_db_ui.go:27-67 | Whatever is written: a summary read that begins when f is the newest returned write can return something older than version v, committed before it began, exactly if v is f + 1, the one write the store's mutex lets be committed and not returned. |
| UiCache.OneBehind | internal/importer/store.go:205-239 | Over every interleaving with the store's mutex, what a read returns is at most one version behind the newest committed when it began; so is each of the two parts of a filter read. |
| UiCache.StaleRun | internal/importer/state_db_ui.go:27-67 | For every f there is a run in which a read returns version f after another read that ended before it began returned version f + 1. |
| UiCache.FiltersExactly | internal/importer/state_db_ui.go:114-141 | Cached or not, a filter read shows the filters of one version if nothing was committed between the two queries that filled it; and it shows those of the version its first query saw exactly if the tags were the same at the second, those of the second exactly if the countries were the same at the first. |
| UiCache.TornByOne | internal/importer/state_db_ui.go:114-141 | With one write committed in between, a filter read shows no version exactly if that write changed both the countries and the tags of the scope. |
| UiCache.FiltersTorn | internal/importer/state_db_ui.go:114-141 | Some run with one write, from one table to another, makes a filter read show neither exactly if the tables differ in both the countries and the tags of the scope. |
| UiCache.SummaryPartitions | internal/importer/state_db_ui.go:40-55 | Every node is counted in exactly one of the classes of the summary. |
| UiCache.SummaryAdds | internal/importer/state_db_ui.go:40-55 | One more node raises the total and exactly one other number by one: the members' if it is in the pool by either mark, else that of its state, blocked nodes counting as failed. |
| UiCache.FiltersAdd | internal/importer/state_db_ui.go:143-174 | One more node adds its country and its tag, if it has them, to the filters exactly of the scopes it belongs to: candidates have passed and are in no pool, members are so by either mark, failed ones failed or are blocked, and any other scope has every node. |
| UiCache.StateDbCache.StoreSummary | internal/importer/state_db_ui.go:60-65 | A value computed under an older revision is not cached. |
| UiCache.StateDbCache.StoreFilters | internal/importer/state_db_ui.go:132-139 | Likewise for the filters of a scope; other scopes are kept. |
| UiCache.StateDbCache.InvalidateUICache | internal/importer/state_db.go:374-380 | Both caches are emptied and the revision grows. |
| Breaker.SharedMemberState.RecordFailure | internal/outbound/pool/shared_state.go:66-93 | A failure while the permit is held, or one that makes the threshold, blacklists the member until a new deadline, resets the count and frees the permit; any other only raises the count. The count returned is the one before the reset. |
| Breaker.SharedMemberState.TryAcquire | internal/outbound/pool/shared_state.go:119-130 | A permit is given exactly if the member is not blacklisted, or its deadline has passed and nobody holds the probing permit, which is then held. |
| Breaker.BreakerInvariant | internal/outbound/pool/shared_state.go:66-187 | After every trace a half-open member is blacklisted and the failure count is below the threshold. |
| Breaker.OnePermitAtATime | internal/outbound/pool/shared_state.go:119-130 | Between two permits given to a blacklisted member there is a success, a failure, a release or a manual blacklisting. |
| Breaker.ProbeFails | internal/outbound/pool/shared_state.go:66-130 | After every trace that leaves the permit held: when the probe fails the member is blacklisted anew, is available exactly once the new deadline has passed, and the first to ask then has the permit. |
| Breaker.ThresholdTrips | internal/outbound/pool/shared_state.go:66-93 | Of failures in a row on a member in good standing, the one that makes the threshold blacklists it and none before it. |
| Breaker.NoPermitBeforeDeadline | internal/outbound/pool/shared_state.go:66-187 | No permit is given before the deadline set by the last blacklisting. |
| Breaker.AvailableExactly | internal/outbound/pool/shared_state.go:66-187 | After any trace a member is available exactly if nothing has blacklisted it, or the last event that counts (a success, a release, a ban or a tripping failure) cleared it, or that event's own deadline has passed and nobody has asked since it had. |
| Breaker.BanEndsEarly | internal/outbound/pool/shared_state.go:66-187 | A manual blacklisting has ended before its deadline exactly if a later event counts and lets the member go: a success, a release, or a shorter ban or tripping failure whose deadline has passed with nobody having asked since. |
| Breaker.FailureShortensBan | internal/outbound/pool/shared_state.go:66-93 | For every threshold and every failure duration shorter than the ban: as many failures as the threshold make the member available before the ban's deadline. |
| PoolSelection.PoolOutbound.SelectSequential | internal/outbound/pool/pool.go:330-338 | The first usable member in the order of the counter, which moves by the members looked at; only the member returned gives a permit away; none is returned only if no slot looked at is usable. |
| PoolSelection.SequentialComplete | internal/outbound/pool/pool.go:330-338 | The sequential scan finds a usable member whenever there is one, if and only if the 32-bit counter does not wrap during it or the number of members divides its range. |
| PoolSelection.PoolOutbound.SelectRandom | internal/outbound/pool/pool.go:340-353 | Nothing is returned exactly if no member is usable; only the member returned gives a permit away. |
| PoolSelection.PoolOutbound.SelectRotate | internal/outbound/pool/pool.go:410-447 | Nothing is returned exactly if no member is usable; the current member stays during its interval while usable; otherwise the next usable one around the ring takes its place from now on. |
| PoolSelection.PoolOutbound.SelectBalance | internal/outbound/pool/pool.go:355-401 | Of two usable members the one with fewer connections; none exactly if no member is usable; at most the permits of the member returned and of the one passed over are taken. With breakers as every trace leaves them, another member than the one returned loses its permit exactly if the one passed over was due, and is then unavailable at every later time. |
| PoolSelection.LeakExactly | internal/outbound/pool/pool.go:355-401 | With breakers as every trace leaves them, before a balanced pick: some random draws make it take the probing permit of a member it does not return exactly if a healthy usable member is no busier than a due one, or some member is unusable and two due members follow one another around the ring. |
| PoolSelection.LeakingPick | internal/outbound/pool/pool.go:355-401 | A balanced pick over two members that returns the healthy one and leaves the due one unavailable at every later time. |
| RoundRobin.CoversExactly | internal/outbound/pool/pool.go:330-338 | A scan from a counter value looks at every member if and only if it does not wrap or the number of members divides 2^32. |
| PoolSelection.PoolOutbound.PickMany | internal/outbound/pool/pool.go:330-338 | k picks in a row over n members that stay usable, without a wrap, take the members in turn, so that each gets k/n rounded down or up. |
| RoundRobin.PicksFair | internal/outbound/pool/pool.go:330-338 | Among k successive counter values each residue occurs k/n times, rounded down or up. |
| Connections.ActiveConnections.BeginDial | internal/outbound/pool/pool.go:256-262 | Each member's count stays the number of its dials in progress and open connections. |
| Connections.ActiveConnections.EndDial | internal/outbound/pool/pool.go:262-269 | So it does when a dial fails or succeeds. |
| Connections.ActiveConnections.CloseConn | internal/outbound/pool/pool.go:616-632 | So it does however often a connection is closed. |
| Ports.RebuildMultiPortAssignments | internal/boxmgr/manager.go:613-679 | Succeeds exactly if there are as many usable ports from the base up as nodes, and gives node i the i-th smallest; a failure leaves the remaining nodes' ports. |
| Ports.AssignSequentialPorts | internal/boxmgr/manager.go:2011-2064 | The same condition and the same ports; a failure leaves the first unserved node without a port. |
| Ports.SmallestUnique | internal/boxmgr/manager.go:2011-2064 | These ports are determined by setup, base and number of nodes: the two allocators agree. |
| Ports.SmallestMeaning | internal/boxmgr/manager.go:2011-2064 | The i-th port given is usable and has exactly i usable ports from the base up below it. |
| Ports.ReassignConflictingPort | internal/boxmgr/manager.go:1733-1767 | Moves the first node on the port to the next larger port that is free, unused and not the hybrid listener's; refuses exactly when there is no such node or port. |
| Ports.MovedKeeps | internal/boxmgr/manager.go:1733-1767 | A move keeps distinct ports distinct, in range and off the listener and raises their bounded sum: retrying ends. |
| Ports.KeepPorts | internal/config/config.go:542-588 | The first pass: every node keeps the port it asks for unless it is not free, the hybrid listener's or kept by an earlier node. |
| Ports.AssignMissing | internal/config/config.go:590-609 | The second pass gives the nodes without port the smallest ports left, and fails exactly if there are too few. |
| Ports.NumberMissing | internal/config/config.go:610-616 | Outside the multi-port modes nodes without port are numbered on from the base, and it fails exactly if that passes the last port. |
| Ports.NormalizePorts | internal/config/config.go:532-625 | Both passes, or plain numbering, according to the mode; when all nodes are valid it fails in the multi-port modes only for want of ports. |
| Ports.NormalizedPorts | internal/config/config.go:532-625 | After both passes every node's port is not 0, free, off the hybrid listener and no other node's, and a node that could keep the port it asked for has it. |
| RefreshQueue.StepKeeps | internal/importer/service.go:832-934 | Every event, cancellation included, keeps the variables of the queue in agreement with where each work is. |
| RefreshQueue.EveryRun | internal/importer/service.go:832-934 | So they agree in every reachable state, and a run has at most six working steps per work whatever the workers reply: it ends. |
| RefreshQueue.LimitHeld | internal/importer/service.go:836-861 | Never more works run at once than the limit, three if none is given, nor than there are works, and every running worker, cancelled or not, can put its result into the channel: waiting for them ends. |
| RefreshQueue.StartsHeld | internal/importer/service.go:863-930 | A work is started at most twice, one without URL at most once, and none a second time before all were started once. |
| RefreshQueue.AllRun | internal/importer/service.go:863-934 | A queue that ended without cancellation has run every work to an end. |
| RefreshQueue.NeverStuck | internal/importer/service.go:863-933 | Until it has ended, some working step or the end itself is possible. |
| RefreshQueue.StepRuns | internal/importer/service.go:850-861 | A work's number of starts grows by one exactly at the launching of that work. |
| RefreshQueue.AgainExactly | internal/importer/service.go:918-929 | In every run a work waits for or has had its second attempt if and only if it has an URL and the failure of its first attempt was taken from the channel before anything was cancelled, and was worth another attempt. |
| RefreshQueue.SecondStart | internal/importer/service.go:863-934 | A work is started a second time only for that reason; and in a run that ended without cancellation, if and only if there was that reason. |
| RefreshQueue.RetryDue | internal/importer/service.go:872-929 | A retry is launched only once the time has come that was set when its failure was received. |
| RefreshQueue.LaunchingKeeps | internal/importer/service.go:868-889 | The two launching loops keep the invariant. |
| RefreshQueue.Coordinator.LaunchFirstAttempts | internal/importer/service.go:868-871 | The loop is a sequence of launches of the state machine, as many as it allows. |
| RefreshQueue.Coordinator.LaunchReadyRetries | internal/importer/service.go:872-889 | So is the loop over the retries that are due, the first such each time. |
| RefreshQueue.Coordinator.HandleResult | internal/importer/service.go:918-929 | Handling a result, cancelled or not, is the receiving step: another attempt exactly for a failed first attempt on an URL that may be retried while the queue is not cancelled. |
| ProbeRounds.ProbeBatch | internal/importer/tester.go:569-679 | Without cancellation of the batch and for distinct ids there is exactly one event per node: the first round's result unless that is a transient error, else the second's unless that is one too, else the third's. |
| ProbeRounds.RunRound | internal/importer/tester.go:596-676 | A round ends with every node either reported with its outcome or pending for the next round; progress reports start at 0, grow and end at the total. |
| ProbeRounds.ProbeRoundConcurrency | internal/importer/tester.go:878-891 | The configured concurrency, or halved once per round but not below 2 unless less was configured, when few nodes are pending. |
| ProbeRounds.HalvedBounds | internal/importer/tester.go:878-891 | Halving stays between 1 and the base, at 2 or more if the base is, and never grows. |
| ProbeRounds.HalvedExactly | internal/importer/tester.go:878-891 | Halved so many times, the concurrency is the base divided by that power of two, but not below 2 where the base is more. |
| SiteTargets.VerifySiteTargets | internal/importer/verification.go:99-187 | Every published snapshot has, per target, the numbers of successful and failed results, of second replies and of successes among them, with no more done than there are nodes; each pair ends with its first result or with what the second pass, asked exactly about the retryable failures, replied, keeping the first-success mark. |
| SiteTargets.FirstPass | internal/importer/verification.go:125-139 | Every snapshot of the first pass is exact, and the results are those of the events. |
| SiteTargets.DoneWithin | internal/importer/verification.go:99-139 | Where the numbers are exact, no more pairs of a target are done than its total, the number of nodes. |
| SiteTargets.RetryPass | internal/importer/verification.go:164-186 | Every snapshot stays exact while results are replaced, retried and recovered included; a pair without reply keeps its result. |
| SiteTargets.FirstStep | internal/importer/verification.go:129-138 | Counting one new result keeps the numbers of every target exact. |
| SiteTargets.RetryStep | internal/importer/verification.go:169-185 | Counting one second reply, and moving a recovered result from failed to passed, keeps the numbers of every target exact. |
| SiteTargets.CombineNode | internal/importer/verification.go:70-95 | The first target that is missing or failed is what is reported; with none the result so far stands, with the mean latency if there was no 204 test. |
| PoolPreview.SelectPool | internal/importer/connectivity.go:1208-1320 | Node by node: one that stands for its route and has a selected tag stays or joins if every target has a current success for it, stays for a tag not selected, and else fails; every other keeps its membership. Each published number is the size of what it is called after, and they add up: current = unaffected + retained + shared + removed, projected = desired = current + added - removed, qualifying = retained + added. |
| PoolPreview.Survey | internal/importer/connectivity.go:1217-1253 | In any order of the routes: the selected, the qualifying and the stale ones are those of the definitions. |
| PoolPreview.CountedStep | internal/importer/connectivity.go:1265-1314 | One more node keeps every number the size of what it is called after, and all the sums. |
| PoolPreview.OutsideUntouched | internal/importer/connectivity.go:1221-1277 | A node none of whose tags is selected keeps its membership. |
| Interleave.InterleaveRoutes | internal/importer/connectivity.go:279-307 | Terminates with a permutation of the routes that keeps the order within each group and is fair at every prefix. |
| Interleave.GroupRoutes | internal/importer/connectivity.go:280-294 | The groups are exactly the routes of each key in order, under distinct keys. |
| Interleave.RoundTurns | internal/importer/connectivity.go:297-305 | A full round takes one route of every group that has one left. |
| Interleave.GroupsWithin | internal/importer/connectivity.go:279-307 | A list whose groups are prefixes of another's groups is no longer, and a permutation if as long. |

## Left out

- Tasks of the scheduler carry functions, timeouts and result channels: kept are who waits for what, and one number per result; task objects are known by ids.
- Map keys joined with NUL bytes are kept as their parts, and hashes of routes are a function given to the import; that different routes get different ids is not needed by any proof.
- Strings are trimmed of the Latin-1 white space and lowered in ASCII only; other Unicode white space and case is not modelled.
- Rows, payload encodings and SQL: a transaction takes effect as a whole or not at all.
- Node fields the modelled code only copies (latency, failure counters, country details beyond code and name) and import job fields the pruning only copies.
- The mutators of single import jobs, and ReplaceSnapshot, which treats nodes as RestoreNodesSnapshot does.
- The order of node lists: any order is allowed where the code sorts for display.
- The creation of an instance retries without outbounds sing-box rejects; here it succeeds or fails as a whole.
- Reconcile.Instance.ReconcileMultiPort: no node may have the dispatcher's own tag; the source does not check this, and NodeTags is called without reserved tags there.
- gracefulSwitch and drainOldBox have no caller and would open a second instance on purpose.
- StagedImport.ImportService.PromoteMany: after a failure only what is untouched is stated, not which of the listed nodes changed; with repeated ids memory and table may differ after a deletion or write that fails.
- StagedImport.ImportService.RestoreConfigNodes: the list is given as it is restored, with its own ports or with ports given anew; a failure may leave any configuration.
- StagedImport.ImportService.ApplyStagedNodes: other store mutators do not run between the steps of an import, although the store's own lock would let them; source revisions are one arbitrary reply.
- StagedExact.ReplacedExactly, StagedExact.AddedExactly, ImportExact.ImportIsExact: no id of a staging node is one that nodes are published under; both are hashes, of different strings.
- Detach.DetachSources: the reload may leave any configuration behind.
- StagedImport.ImportService.DeleteNodes: a cancelled context or a missing configuration counts as one that cannot be saved; all three fail without effect.
- The case of nextUniqueName without a set of taken names.
- PoolSelection.PoolOutbound.SelectBalance: members' breakers are values of this pool; two pools sharing a member's state are not modelled.
- PoolSelection.PoolOutbound.SelectRotate: the remembered tag is not used before the first member was chosen; it only matters when the members are rebuilt.
- JobPruning.JobStore.PruneJobs: the library sort is a function with the order's properties proved, not a loop over an array.
- PoolPreview.SelectPool: the capped and sorted lists of changed nodes, reasons, the preview token and the checks of the request.
- connectivityRoutes only collects and sorts what is then interleaved.
- Interleave.InterleaveRoutes: the groups' keys may come in any order, sorted or not.
- ProbeRounds.ProbeBatch: sessions, cancellation, and node ids that repeat in a batch.
- RefreshQueue.Coordinator.HandleResult: waiting and timers; a retry becomes due at a time nobody controls.
- Port skips recorded for display, credentials filled in by default, and names taken from URIs while loading a configuration.
- Logging, HTTP handlers, streaming of progress, sing-box internals, URI parsing, geolocation, WebDAV: input, output and presentation.
