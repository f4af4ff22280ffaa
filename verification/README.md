# Verified models of kubebuilder-declarative-pattern

Dafny models of the stateful cores of kubebuilder-declarative-pattern, and proofs of what they keep.
`dafny verify dfyconfig.toml` checks everything.

| files | what they model |
|---|---|
| `Collections`, `Schema`, `Text` | optional values and the orders of a Go map, the names of kinds, Go string order, split and join |
| `Annotations` | the two annotations an ApplySet parent remembers its members with |
| `ApplySetModel`, `ApplySetCoverage`, `ApplySetParent`, `ApplySetExactness`, `ApplySetQuiescence`, `ApplySet` | the apply and prune protocol of `ApplyOnce`, first as a transition system in which every cluster write is one step, then as the program's own classes and loops, proved to take only those steps |
| `Storage`, `DynamicWatch` | the mock API server's store and watches, and the client that reconnects for ever and drops repeats |
| `Metrics`, `MetricsTracker` | the tracker behind the managed-objects gauge: one object's life and its series, then the nested maps and loops |
| `DirectHttp` | the in-memory response pipe, one mutex and one condition variable |
| `RequestLog` | `SortGETs` |
| `Patch` | the mock server's merge patch |
| `Discovery` | the caching RESTMapper |
| `Manifest`, `ObjectOrder` | a manifest object (shared maps written in place, cached JSON) and the apply order |

## The ApplySet protocol

A state is a cluster (live objects with uid and membership, the stored parent), the phase of the run in
progress, and the log of requests. A write may be done, refused, or done with its reply lost. A run may stop
after any step, and between steps other actors may change objects and the rest of the parent; they do not add
members, reuse uids or touch the two annotations. A run starts by reading the parent from the cluster, as the
reconciler does. The classes work against a cluster with a plan, any function that says how each request is
answered, so that what a run does and returns is determined and nothing is left to chance.

The invariant behind everything is that a member is either remembered by what the stored parent reads back
to, or the last request made about it is a prune delete that failed.

## Where the code does not do what one would expect

Each is shown by a lemma, with the exact condition under which the expected property holds.

- A parent that is not namespaced but carries a namespace: that namespace is left out of the annotation and not
  put back when it is read, so members there are lost from sight (`ScopeDecidesCoverage`).
- `WithParent` overwrites the tooling annotation and the id label before `FetchParent` checks them. The checks
  never refuse a foreign parent, and refuse every run when the tooling version holds a slash
  (`FetchIgnoresStoredParent`).
- Using one `ApplySet` again after a refused parent update, without reading the parent again, sends no update and
  applies objects nothing remembers (`MemoryAgreesUnlessRefused`, `ReuseAfterRefusalLeaks`). `StaleStart` says of
  any copy of the parent, a cached one for instance, exactly when a run may start from it.
- Prune deletes go by name, without the uid that was listed. No run deletes an object whose uid it applied
  (`NeverDeletesApplied`), but an object that others take out of the set or replace between the listing and its
  delete is deleted all the same (`ReleasedObjectIsDeleted`, `DeletesLabelledExactlyIfUnchanged`).
- A fully successful run need not be followed by a silent one: an object of a kind the parent had forgotten puts
  the kind back on record, and the run after that finds a member that was lost before (`StrayComesBack`, from an
  empty cluster; `Quiescence` says exactly when).
- A failed prune delete is recorded and the latest annotations are still written, so the object may be lost from
  sight (`FailedDeleteOrphans` gives two runs from an empty cluster, `OrphansAfterLatest` says exactly which).
- An object stored under another name than its metadata gives breaks every watch that sees it
  (`MisnamedWriteBreaksAgreement`).
- A patch that was accepted once is accepted again exactly when it holds only strings, numbers and objects
  (`IdempotentExactlyWhenPlain`).
- The apply order is not compared by namespace, and the sort is not stable: it is determined exactly when no two
  different objects tie (`DeterministicExactlyWithoutTies`).
- Two tracked objects whose labels coincide share one gauge series (`AgreementExactlyWhenLabelsDiffer`).
- An object deleted and created again, but not listed by a reconcile, still expires (`MarkedObjectsExpire`).
- A failing `MutatePodSpec` callback keeps its changes and the old JSON, which is then right exactly if the pod
  spec still looks the same (`Manifest.ManifestObject.MutatePodSpec`, `PartDecidesWhole`; `FreshExactly` says it of
  any sequence of calls).
- A map held in two places shows a write through either (`SharedMapShowsTheWrite`; `ReadsAsBeforeExactly` says of
  every path whether it is affected).

The comment on `fetchAllGroups` (pkg/restmapper/caching.go:32-33) speaks of one group being looked up; the code
returns all of them, and the model follows the code.

## Model

| member | source | states |
|---|---|---|
| Annotations.KindNameRoundTrip | applylib/forked/github.com/kubernetes/kubectl/pkg/cmd/apply/applyset.go:351-379 | a group-kind whose kind holds no dot is parsed back from its text |
| Annotations.ParsedParts | applylib/forked/github.com/kubernetes/kubectl/pkg/cmd/apply/applyset.go:351-379 | the text before the first dot is the kind and the rest the group; without a dot there is no group |
| Annotations.KindsRoundTrip | applylib/forked/github.com/kubernetes/kubectl/pkg/cmd/apply/applyset.go:513-526 | parsing the generated kinds annotation gives back the same set, the empty one included |
| Annotations.NamespacesReread | applylib/forked/github.com/kubernetes/kubectl/pkg/cmd/apply/applyset.go:404-414 | any comma-free names are read back without the parent's own, except that the empty name alone reads as none |
| Annotations.NamespacesRoundTrip | applylib/forked/github.com/kubernetes/kubectl/pkg/cmd/apply/applyset.go:404-414 | parsing the generated namespaces annotation gives back the set without the parent's own namespace |
| Annotations.KindsTextIgnoresOrder | applylib/forked/github.com/kubernetes/kubectl/pkg/cmd/apply/applyset.go:519-526 | the kinds text is the same for every order the set is ranged over in |
| Annotations.KindsTextReads | applylib/forked/github.com/kubernetes/kubectl/pkg/cmd/apply/applyset.go:519-526 | split at its commas, the text is the sorted `Kind` and `Kind.group` names of exactly the kinds of the set |
| Annotations.NamespacesTextIgnoresOrder | applylib/forked/github.com/kubernetes/kubectl/pkg/cmd/apply/applyset.go:513-517 | the namespaces text is the same for every order |
| Annotations.NamespacesTextReads | applylib/forked/github.com/kubernetes/kubectl/pkg/cmd/apply/applyset.go:513-517 | split at its commas, the text is the sorted names of the set without the skipped one |
| Text.LessExactly | applylib/forked/github.com/kubernetes/kubectl/pkg/cmd/apply/applyset.go:515 | the order used for sorting: at the first difference the string that ends or has the smaller character comes first |
| Annotations.GenerateResourcesAnnotation | applylib/forked/github.com/kubernetes/kubectl/pkg/cmd/apply/applyset.go:519-526 | the loop over the unordered set produces the order-free text |
| Annotations.GenerateNamespacesAnnotation | applylib/forked/github.com/kubernetes/kubectl/pkg/cmd/apply/applyset.go:513-517 | the same for namespaces |
| Annotations.ParseKindAnnotation | applylib/forked/github.com/kubernetes/kubectl/pkg/cmd/apply/applyset.go:351-379 | with the kinds annotation, succeeds exactly when the mapper resolves every listed kind, and then returns the listed set; without it, exactly when the deprecated one is non-empty and all its resources resolve, and then returns their kinds |
| Annotations.ParseDeprecatedResourceAnnotation | applylib/forked/github.com/kubernetes/kubectl/pkg/cmd/apply/applyset.go:381-402 | succeeds exactly when every listed group-resource has a kind and that kind a mapping, and then returns those kinds |
| ApplySetModel.ToolingReadsBack | applylib/forked/github.com/kubernetes/kubectl/pkg/cmd/apply/applyset.go:339-348 | the tool's name is read back exactly when its version holds no slash |
| ApplySetModel.FetchIgnoresStoredParent | applylib/applyset/applyset.go:382-413 | the checks of `FetchParent` accept what `WithParent` prepared whatever the stored parent says, exactly when the version holds no slash |
| ApplySetParent.StartedExactly | applylib/applyset/applyset.go:382-413 | a run gets to apply exactly if the tool version holds no slash, every kind on record resolves, and the superset is on record already or its update was acknowledged |
| ApplySetParent.RunsKeepTheRest | applylib/applyset/applyset.go:315-357 | over any runs, stopped anywhere, the stored parent keeps every annotation and label that is not the set's own, with its value; once written it carries the tool and the id, and the deprecated annotation is gone exactly if it was empty |
| ApplySetParent.SupersetIsExact | applylib/forked/github.com/kubernetes/kubectl/pkg/cmd/apply/applyset.go:478-487 | an acknowledged start puts on record what was there, the kinds of the desired objects that resolve and the namespaces of those that are namespaced, and nothing else |
| ApplySetParent.AppliesSend | applylib/applyset/applyset.go:206-264 | the apply loop sends one request for each object whose kind resolves and that has a namespace exactly if its kind does, under its own kind, namespace and name, in order, and no other |
| ApplySetCoverage.MergedReadsBack | applylib/forked/github.com/kubernetes/kubectl/pkg/cmd/apply/applyset.go:478-511 | writing a memory and reading it gives it back, with the parent's namespace decided by the parent's scope |
| ApplySetCoverage.StepKeepsInv | applylib/applyset/applyset.go:161-294 | every single step of the protocol keeps the coverage invariant, in the middle of a run too |
| ApplySetCoverage.Coverage | applylib/applyset/applyset.go:161-294 | over any sequence of runs, stops, lost replies and outside changes, every member is remembered by the stored annotations, or the last request about it is a failed prune delete |
| ApplySetCoverage.StaleStart | applylib/applyset/applyset.go:382-413 | a start from any copy of the parent keeps the invariant if and only if the copy and what the run collects account for every member, and, when no update is sent, the stored parent covers as much |
| ApplySetCoverage.PruneOff | applylib/applyset/applyset.go:278-291 | if no run prunes, what the stored annotations cover only grows, and no delete is sent |
| ApplySetCoverage.PruneOffCovers | applylib/applyset/applyset.go:278-291 | and then every member of every reachable state is covered, without the proviso about failed deletes |
| ApplySetCoverage.OrphansAfterLatest | applylib/applyset/applyset.go:278-291 | after the latest write a member is uncovered exactly when its failed delete was logged and its kind or namespace is not in this run's sets |
| ApplySetCoverage.FailedDeleteOrphans | applylib/applyset/applyset.go:278-291 | two runs from an empty cluster, for every root-scoped kind, that end with a member the stored parent does not cover and whose delete failed |
| ApplySetCoverage.MisscopedParentLeaks | applylib/forked/github.com/kubernetes/kubectl/pkg/cmd/apply/applyset.go:257-303 | a run after which a member is uncovered, for every parent that has a namespace and is not namespaced |
| ApplySetCoverage.ScopeDecidesCoverage | applylib/forked/github.com/kubernetes/kubectl/pkg/cmd/apply/applyset.go:257-303 | every run keeps coverage if and only if the parent's scope and namespace agree |
| ApplySetExactness.RunReaches | applylib/applyset/applyset.go:161-294 | what holds of the visited uids, the applied objects and the members at every point of an undisturbed run |
| ApplySetExactness.NeverDeletesApplied | applylib/applyset/applyset.go:359-376 | over all runs, with outside changes at any point, a delete that changes the cluster removes one object, whose uid no apply of that run returned |
| ApplySetExactness.DeletesLabelledExactlyIfUnchanged | applylib/applyset/applyset.go:359-376 | with outside changes and other deletes in between, a delete removes a labelled object if and only if the object of that name has the listed uid and its label on; one with another uid has no label |
| ApplySetExactness.ReleasedObjectIsDeleted | applylib/applyset/applyset.go:368 | taking the label off any listed object before its delete makes the run delete an object outside the set |
| ApplySetExactness.DeletesOnlyStaleMembers | applylib/forked/github.com/kubernetes/kubectl/pkg/cmd/apply/applyset_pruner.go:142-173 | in an undisturbed run, from any start, a delete that changes the cluster removes one labelled object whose uid was not visited and which is not desired, when all desired objects are members |
| ApplySetExactness.NoPruneAfterFailure | applylib/applyset/applyset.go:277-286 | a run that reaches pruning has logged only successful applies, whatever others change in the meantime |
| ApplySetExactness.PruneIsExact | applylib/applyset/applyset.go:278-291 | if no delete failed, the members are exactly the desired objects together with the members the parent had lost sight of before the run: none from a covered start |
| ApplySetExactness.MemoryAgreesUnlessRefused | applylib/applyset/applyset.go:315-357 | the in-memory parent reads like the stored one if and only if the update was not refused or was not needed |
| ApplySetExactness.ReuseAfterRefusalLeaks | applylib/applyset/applyset.go:338-352 | after a refused update, a retry from memory sends no update and its object ends up uncovered |
| ApplySetQuiescence.PrunedSettles | applylib/applyset/applyset.go:278-294 | the latest write of a fully successful pruning run leaves the desired objects in place and exactly their kinds and namespaces on record |
| ApplySetQuiescence.AppliedSettles | applylib/applyset/applyset.go:202-275 | a fully successful run without pruning leaves them in place and the superset on record |
| ApplySetQuiescence.RecordIsExact | applylib/applyset/applyset.go:278-291 | after a fully successful run the parent reads back as exactly the kinds and namespaces of the desired objects, and without pruning those on record before as well |
| ApplySetQuiescence.SettledRepeats | applylib/applyset/applyset.go:315-357 | from such a state the same run again changes nothing and sends only its applies, unless it prunes and its listing finds a member that is not desired, which is then exactly what it goes on to delete |
| ApplySetQuiescence.Quiescence | applylib/applyset/applyset.go:161-294 | after a fully successful undisturbed run from any start, with prune on or off, the same run again sends no parent update and no delete, if and only if it does not prune, cannot resolve or list, or no member lost before the first run is listed by what that run put on record |
| ApplySetQuiescence.StrayComesBack | applylib/applyset/applyset.go:278-291 | runs from an empty cluster, the last of them fully successful, after which that run again is not silent |
| ApplySetQuiescence.CoveredRunsSettle | applylib/applyset/applyset.go:161-294 | a fully successful run that starts with every member remembered is followed by a silent one |
| ApplySet.ApplyResults.RecordApplyError | applylib/applyset/results.go:85-101 | counts a failed apply and nothing else, and appends its status |
| ApplySet.ApplyResults.RecordApplied | applylib/applyset/results.go:103-160 | counts an applied object once as success and once as healthy or as unhealthy, as it is, and appends its status |
| ApplySet.ApplyResults.RecordPrune | applylib/applyset/results.go:108-139 | counts a prune delete by its outcome and nothing else, and appends its status |
| ApplySet.CountersSnoc | applylib/applyset/results.go:85-160 | starting from none (`NoneCounted`), counting a status keeps each counter the number of objects with its status |
| ApplySet.NoneHaving | applylib/applyset/results.go:56-72 | so `AllApplied` and `AllHealthy` say that no object failed, and that none is unhealthy |
| ApplySet.Record.AddResource | applylib/forked/github.com/kubernetes/kubectl/pkg/cmd/apply/applyset.go:419-429 | adds the kind, and the namespace of a namespaced object that has one; the current sets stay |
| ApplySet.Record.FetchParent | applylib/forked/github.com/kubernetes/kubectl/pkg/cmd/apply/applyset.go:257-303 | succeeds exactly when the checks pass and all kinds listed, or named by the deprecated annotation when there is no list, resolve, and then holds what the annotations read back to |
| ApplySet.Record.Tasks | applylib/forked/github.com/kubernetes/kubectl/pkg/cmd/apply/applyset_pruner.go:66-102 | one list task for each old kind and namespace, none twice, refused exactly for an empty namespace or an unknown scope |
| ApplySet.Record.FindObjectsToPrune | applylib/forked/github.com/kubernetes/kubectl/pkg/cmd/apply/applyset_pruner.go:142-173 | lists each labelled, unvisited object the list request covers once |
| ApplySet.Record.FindAllObjectsToPrune | applylib/forked/github.com/kubernetes/kubectl/pkg/cmd/apply/applyset_pruner.go:66-131 | lists each member of the old kinds and namespaces whose uid was not visited, exactly once; fails exactly for an empty namespace, an unknown scope or a list request that is refused |
| ApplySet.Applier.UpdateParent | applylib/applyset/applyset.go:315-357 | writes the kinds and namespaces, the tool and the id into the in-memory parent, drops the deprecated annotation exactly if it is empty and keeps all the rest; sends the update only if that changed it |
| ApplySet.Applier.CollectResources | applylib/applyset/applyset.go:176-201 | registers every desired object that resolves and caches its mapping |
| ApplySet.Applier.WithParent | applylib/applyset/applyset.go:382-413 | is the protocol's first step, from the in-memory parent, of which it keeps all that is not the set's own |
| ApplySet.Applier.ApplyObjects | applylib/applyset/applyset.go:206-275 | the apply loop is the sequence of protocol steps with the planned answers; it stops exactly at an object that resolves and cannot be labelled or has an unknown scope, counts no failure exactly when every object was applied, and gives each object its status |
| ApplySet.Applier.DeleteObjects | applylib/applyset/applyset.go:359-380 | tries every victim once, in order, whatever fails and whoever removed it before, counts the outcomes and gives each its status |
| ApplySet.Applier.Prune | applylib/applyset/applyset.go:278-291 | listing, deleting and the latest write are the protocol steps with the planned answers, ending the run; fails exactly when it cannot list |
| ApplySet.Applier.ApplyOnce | applylib/applyset/applyset.go:161-294 | the whole run is the one the protocol has for the planned answers; it fails exactly if the start does, an object stops the loop, or pruning is due and cannot list; when the loop completes, successes and failures add up to the desired count, no failure is counted exactly when every apply and every delete went through, and every attempt has its status in order |
| ApplySet.Reconcile | pkg/patterns/declarative/pkg/applier/applylib.go:83-126 | the same of a pass over a freshly read parent, requests logged included; so every member stays covered or lost by a failed delete, and the parent keeps all that is not the set's own; pruning, without error and with all applied, it leaves as members exactly the desired objects and those uncovered before |
| Storage.ReplayAgreement | mockkubeapiserver/storage/memorystorage/memorystorage_watch.go:50-119 | in every interleaving of writes with the two lock sections of every watch, the client of a backfilled watch holds exactly the stored objects it watches |
| Storage.MisnamedWriteBreaksAgreement | mockkubeapiserver/storage/memorystorage/memorystorage.go:175-216 | a write keeps a watch in agreement if and only if the object is stored under its own name or the watch sees neither the old nor the new object |
| Storage.StoredExactlyIfCreated | mockkubeapiserver/storage/memorystorage/memorystorage.go:175-232 | in every run a name is taken exactly if it was created and not deleted since |
| Storage.StoredIsLastWritten | mockkubeapiserver/storage/memorystorage/memorystorage.go:175-216 | and what is stored is what the last update of the name, or else its creation, was given, under the version after the clock of that moment |
| Storage.BackfillSendsEach | mockkubeapiserver/storage/memorystorage/memorystorage_watch.go:76-97 | a backfill sends each stored object the watch selects once, as added, in map order |
| Storage.ResourceStorage.CreateObject | mockkubeapiserver/storage/memorystorage/memorystorage.go:175-197 | fails exactly when the name is taken, and changes nothing then; otherwise stores the object given under the next version and sends it as added to exactly the watches that select it |
| Storage.ResourceStorage.UpdateObject | mockkubeapiserver/storage/memorystorage/memorystorage.go:199-216 | fails exactly when there is no such object, and changes nothing then; otherwise stores the object given under the next version and sends it as modified to exactly the watches that select it |
| Storage.ResourceStorage.DeleteObject | mockkubeapiserver/storage/memorystorage/memorystorage.go:218-232 | returns and removes the object, and sends it as deleted to exactly the watches that select it |
| Storage.ResourceStorage.BroadcastHoldingLock | mockkubeapiserver/storage/memorystorage/memorystorage_watch.go:99-119 | delivers the event to every watch that selects the object and to no other |
| Storage.ResourceStorage.RegisterWatch | mockkubeapiserver/storage/memorystorage/memorystorage_watch.go:50-71 | takes the first free slot, or a new one, and leaves the others |
| Storage.ResourceStorage.BackfillWatch | mockkubeapiserver/storage/memorystorage/memorystorage_watch.go:76-97 | appends the backfill, in the order of the map, to what the watch was given, and touches no other watch |
| Storage.ResourceStorage.ListObjects | mockkubeapiserver/storage/memorystorage/memorystorage.go:154-173 | lists exactly the stored objects of the namespace, each once |
| DynamicWatch.StepKeepsInv | pkg/patterns/declarative/pkg/watch/dynamic.go:206-236 | what ties the client's `lastRV`, the undelivered events and the store together survives every step of server, connection and client |
| DynamicWatch.Deduplication | pkg/patterns/declarative/pkg/watch/dynamic.go:206-236 | over any number of dropped and reopened watches, forwarded versions of an object strictly increase, and once a backfilled watch is read to the end every matching object's current version has been forwarded |
| DynamicWatch.ReadingIsReceiving | pkg/patterns/declarative/pkg/watch/dynamic.go:152-239 | reading `n` events of a connection is `n` receive steps |
| DynamicWatch.SentOnExactly | pkg/patterns/declarative/pkg/watch/dynamic.go:206-236 | told from the events received: every delete is sent on, and an added or modified object exactly if the event before it about that object did not show the same version, all in the order received |
| DynamicWatch.DeletesAreSentOn | pkg/patterns/declarative/pkg/watch/dynamic.go:219-223 | the deletes sent on are the deletes received |
| DynamicWatch.RunsSendOnExactly | pkg/patterns/declarative/pkg/watch/dynamic.go:206-236 | both hold of every run, over any number of connections |
| DynamicWatch.ChangesExactly | pkg/patterns/declarative/pkg/watch/dynamic.go:196-205 | bookmarks are skipped, and nothing after a failure counts |
| DynamicWatch.DynamicKindWatch.WatchUntilClosed | pkg/patterns/declarative/pkg/watch/dynamic.go:152-239 | after each connection, what has been sent on over all of them is exactly what should be, told from the events received |
| Metrics.UnmarkedStayAtZero | pkg/patterns/declarative/metrics.go:502-524 | in every run an unmarked object has count zero |
| Metrics.NothingOverdueIsKept | pkg/patterns/declarative/metrics.go:207-275 | in every run, a call with a positive duration keeps no object whose count has reached it, drops no unmarked object, and leaves every listed one unmarked |
| Metrics.MarkedObjectsExpire | pkg/patterns/declarative/metrics.go:426-534 | a marked object that is not listed again is kept through every pass before the `duration`-th and dropped by exactly that one; never if the duration is not positive |
| Metrics.DistinctLabelsAgree | pkg/patterns/declarative/metrics.go:544-608 | in every run over objects with distinct labels, series exist exactly for tracked objects some event was seen for and show the last such event |
| Metrics.SeriesTellsTheLastEvent | pkg/patterns/declarative/metrics.go:544-608 | told from the events: with distinct labels a tracked object has a series exactly if an event has concerned it since it was tracked, and the series is 1 exactly if the last one created it or was an update to it, 0 if it deleted it or was an update away from it |
| Metrics.AgreementExactlyWhenLabelsDiffer | pkg/patterns/declarative/metrics.go:134-148 | that holds of every run if and only if no two of the objects share a label |
| Metrics.SharedLabelMisleads | pkg/patterns/declarative/metrics.go:134-148 | a run in which a shared series says gone of a live object |
| Metrics.ProperLabelsDiffer | pkg/patterns/declarative/metrics.go:81-87 | objects of kinds with one scope and slash-free names, in no namespace called `_Cluster_`, have distinct labels |
| MetricsTracker.FiledIsProper | pkg/patterns/declarative/metrics.go:216-238 | `addIfNotPresent` files objects that way, and skips exactly the kinds without mapping |
| MetricsTracker.FiledLabel | pkg/patterns/declarative/metrics.go:134-148 | an object's series names its own kind and name, and its namespace or the default one, or none for a cluster-scoped kind |
| MetricsTracker.ListedAreFiled | pkg/patterns/declarative/metrics.go:215-248 | a pass lists exactly the objects with a mapping |
| MetricsTracker.ProblemsExactly | pkg/patterns/declarative/metrics.go:225-238 | there is one problem for each object without a mapping or without the namespace it needs, in order |
| MetricsTracker.IncRecord | pkg/patterns/declarative/metrics.go:502-508 | counts up the marked entries and leaves the others |
| MetricsTracker.DeleteIfNeeded | pkg/patterns/declarative/metrics.go:455-476 | removes exactly the entries that reached the duration, positive or not, and emptied namespaces, and names what it removed |
| MetricsTracker.ObjectTracker.AddIfNotPresent | pkg/patterns/declarative/metrics.go:207-275 | adding, counting and expiring over the nested maps is one pass of the state machine for all objects, with the problems reported in order |
| MetricsTracker.ObjectTracker.DeleteMetricsIfNeeded | pkg/patterns/declarative/metrics.go:269-275 | drops exactly the expired objects and exactly their series |
| MetricsTracker.ObjectTracker.OnCreate | pkg/patterns/declarative/metrics.go:544-558 | sets the series of a tracked object to 1 and touches nothing else |
| MetricsTracker.ObjectTracker.OnUpdate | pkg/patterns/declarative/metrics.go:560-592 | with both objects tracked, sets the old one's series to 0 and the new one's to 1, or the one series to 1; otherwise nothing |
| MetricsTracker.ObjectTracker.OnDelete | pkg/patterns/declarative/metrics.go:594-608 | marks a tracked object, keeping its count, and sets its series to 0; touches nothing else |
| DirectHttp.PipeIsFaithful | mockkubeapiserver/direct_http.go:79-168 | in every interleaving, bytes read followed by bytes buffered are the bytes written, and whoever sleeps still has nothing to wake for |
| DirectHttp.HandedIsRead | mockkubeapiserver/direct_http.go:111-131 | what the readers were handed, in order, is what left the buffer |
| DirectHttp.WrittenIsOutput | mockkubeapiserver/direct_http.go:149-159 | what counts as written is what the handler's writes held, in order |
| DirectHttp.ReadsTakeTheNextBytes | mockkubeapiserver/direct_http.go:111-131 | a read is handed the next bytes of that output, as many as it asked for or as there are; with none left it is told EOF after the close and sleeps before it |
| DirectHttp.EofExactlyWhenDrained | mockkubeapiserver/direct_http.go:111-131 | a read is told EOF exactly when the pipe is closed and all bytes written so far have been handed out |
| DirectHttp.EofMeansEverythingRead | mockkubeapiserver/direct_http.go:111-142 | with no write after the close, once EOF was reported the readers have been handed everything, in order |
| DirectHttp.ClosedNeverBlocks | mockkubeapiserver/direct_http.go:133-142 | after the close no one is asleep and whoever runs returns |
| DirectHttp.HeadersFollowTheHandler | mockkubeapiserver/direct_http.go:79-97 | headers are handed out exactly once the handler has written or returned, with the last status it set, 200 by default |
| DirectHttp.DirectResponseWriter.ReadTurn | mockkubeapiserver/direct_http.go:111-131 | one turn of the read loop takes up to `n` bytes off the front, reports EOF or sleeps, and is a step of the model |
| DirectHttp.DirectResponseWriter.ResponseTurn | mockkubeapiserver/direct_http.go:79-97 | one turn of the header loop returns the status, 200 by default, or sleeps, and is a step of the model |
| DirectHttp.DirectResponseWriter.Broadcast | mockkubeapiserver/direct_http.go:139 | every sleeper competes for the lock again |
| DirectHttp.DirectResponseWriter.WriteBytes | mockkubeapiserver/direct_http.go:149-159 | appends, makes the headers known and wakes everyone |
| DirectHttp.DirectResponseWriter.WriteStatus | mockkubeapiserver/direct_http.go:162-168 | sets the status, makes the headers known and wakes everyone |
| DirectHttp.DirectResponseWriter.CloseBody | mockkubeapiserver/direct_http.go:133-142 | ends the body, makes the headers known and wakes everyone |
| RequestLog.Log.SortGETs | ktest/httprecorder/request_log.go:216-260 | the restarted swapping loop ends, with the normal form of the log |
| RequestLog.SwapRemovesInversion | ktest/httprecorder/request_log.go:216-260 | a swap removes exactly one inversion |
| RequestLog.MovableExactly | ktest/httprecorder/request_log.go:216-249 | what may be moved are exactly the GETs of `/apis`, `/api/v1`, `/apis/v1` and of one version of one group under `apis`, sorted by their paths |
| RequestLog.SwapKeepsNormalForm | ktest/httprecorder/request_log.go:216-260 | a swap does not change the normal form |
| RequestLog.NormalizedPermutes | ktest/httprecorder/request_log.go:216-260 | the result is a permutation |
| RequestLog.NormalizedKeepsBarriers | ktest/httprecorder/request_log.go:216-260 | every entry that may not move keeps its index |
| RequestLog.RunIsSorted | ktest/httprecorder/request_log.go:216-260 | within a run of movable entries any two are in key order |
| RequestLog.NormalizedIsStable | ktest/httprecorder/request_log.go:216-260 | entries with equal keys keep their order |
| RequestLog.NormalizedRunByRun | ktest/httprecorder/request_log.go:216-260 | the runs on the two sides of a barrier are sorted independently |
| RequestLog.NormalizedIsIdempotent | ktest/httprecorder/request_log.go:216-260 | sorting again changes nothing |
| Patch.ApplyPatch | mockkubeapiserver/patchresource.go:157-180 | succeeds exactly when every value can be written, with the same result, for every order the patch is ranged over in |
| Patch.AcceptsExactly | mockkubeapiserver/patchresource.go:157-180 | a patch is accepted exactly if, at every path where the existing value is an object all the way, it has a string or a number, or an object over an object or nothing |
| Patch.IdempotentExactlyWhenPlain | mockkubeapiserver/patchresource.go:157-180 | an accepted patch is accepted again if and only if it is made of strings, numbers and objects, and then changes nothing more |
| Patch.NestedListAppliesOnce | mockkubeapiserver/patchresource.go:163-168 | a list under a new key is accepted once and refused the second time |
| Patch.UntouchedPathsSurvive | mockkubeapiserver/patchresource.go:157-180 | every path that leaves the patch reads as before |
| Patch.PatchedPathsAreWritten | mockkubeapiserver/patchresource.go:157-180 | every string or number of the patch is read back at its path, and so is anything where nothing was |
| Patch.PatchesCompose | mockkubeapiserver/patchresource.go:157-180 | one patch and then another succeed exactly when the second merges into the first and the merged patch applies, with equal results |
| Discovery.Cache.FetchAllGroups | pkg/restmapper/caching.go:34-57 | answers the server's groups by name and keeps them; asks only if it has none, fails exactly if that request does, never fetches them successfully twice and never remembers an error |
| Discovery.Cache.FetchServerResources | pkg/restmapper/caching.go:163-206 | answers the server's resources, none for not found; asks only if it holds none, fails exactly if that request does, adds exactly a successful answer to those remembered, forgets none, and never fetches one successfully twice |
| Discovery.Cache.FindRESTMapping | pkg/restmapper/caching.go:142-160 | finds a mapping of the kind, or there is none |
| Discovery.Cache.RESTMappings | pkg/restmapper/controllerrestmapper.go:71-127 | an answer the uncached lookup allows, or an error exactly if the last discovery request it made failed |
| Discovery.Cache.RESTMapping | pkg/restmapper/controllerrestmapper.go:54-66 | the mapping of the first searched version that has the kind |
| Discovery.PreferredFirstThenServerOrder | pkg/restmapper/controllerrestmapper.go:76-109 | with no version asked for, the preferred version comes first if it has the kind, then the others that have it, in the server's order |
| Discovery.AskedVersionsInOrder | pkg/restmapper/controllerrestmapper.go:111-120 | with versions asked for, those of them that have the kind are answered, in that order |
| Discovery.NoMatchExactly | pkg/restmapper/controllerrestmapper.go:71-127 | there is no match exactly if the group is unknown or none of the versions searched has the kind |
| Discovery.Cache.KindsForVersion | pkg/restmapper/caching.go:208-230 | lists the kind of each matching resource of the group-version once |
| Discovery.Cache.KindsFor | pkg/restmapper/caching.go:91-128 | lists every match once, version by version in the server's order |
| Discovery.Cache.KindFor | pkg/restmapper/controllerrestmapper.go:23-36 | the kind of the only match; otherwise says whether there is none or more than one |
| Discovery.ResourcesAreFiled | pkg/restmapper/caching.go:184-205 | resources are filed under their own name and group-version, subresources not at all |
| Discovery.ResourcesExactly | pkg/restmapper/caching.go:184-205 | exactly the entries that are no subresources are there |
| Discovery.LastResourceCounts | pkg/restmapper/caching.go:184-205 | each as the last entry of its name describes it, scope and kind included |
| Discovery.GroupsExactly | pkg/restmapper/caching.go:45-56 | groups are known by their names |
| Discovery.LastGroupCounts | pkg/restmapper/caching.go:45-56 | each as the last entry of its name describes it |
| Discovery.KindsAreTheMatches | pkg/restmapper/caching.go:91-128 | the kinds listed are exactly those of the matching resources of the version asked for, or of every version the server has of the group |
| Manifest.SetChangesOneEdge | pkg/patterns/declarative/pkg/manifest/objects.go:282-309 | a set changes one field of one existing map, whatever the sharing |
| Manifest.SettableExactly | pkg/patterns/declarative/pkg/manifest/objects.go:289-299 | a set goes through exactly if no path on the way reads as something that is not a map |
| Manifest.UntakenPathsSurvive | pkg/patterns/declarative/pkg/manifest/objects.go:282-309 | in any heap, a path that does not take the written field reads as before |
| Manifest.TakenPathsGoThroughTheField | pkg/patterns/declarative/pkg/manifest/objects.go:282-309 | in any heap, a path that takes the written field reads, before and after, what the field leads to under the rest of the path |
| Manifest.WrittenFieldReads | pkg/patterns/declarative/pkg/manifest/objects.go:282-309 | the written field leads to the value under the maps made on the way, to those maps before it, and nowhere else |
| Manifest.ReadsAsBeforeExactly | pkg/patterns/declarative/pkg/manifest/objects.go:282-309 | in any heap, shared maps, cycles and maps made on the way included, whether a path reads as before a set, by the step it takes, the rest of it and the value |
| Manifest.OldHeapDecides | pkg/patterns/declarative/pkg/manifest/objects.go:282-309 | the same by the old heap alone, unless the rest of the path under a map value comes round to the written field |
| Manifest.LeafReadsAsBeforeExactly | pkg/patterns/declarative/pkg/manifest/objects.go:282-309 | for a value that is no map, the same by the old heap alone |
| Manifest.DistinctNamesReadBack | pkg/patterns/declarative/pkg/manifest/objects.go:282-309 | in any heap a path whose names differ reads back what was set |
| Manifest.SharedMapShowsTheWrite | pkg/patterns/declarative/pkg/manifest/objects.go:282-309 | an object with a shared map in which a set changes an unrelated path |
| Manifest.SetReadsBack | pkg/patterns/declarative/pkg/manifest/objects.go:282-309 | in a tree the path reads back what was set |
| Manifest.UnrelatedPathsSurvive | pkg/patterns/declarative/pkg/manifest/objects.go:282-309 | in a tree every path that is neither prefix nor extension reads as before |
| Manifest.SetKeepsPlaces | pkg/patterns/declarative/pkg/manifest/objects.go:282-309 | setting a value that holds no map keeps a tree a tree |
| Manifest.ManifestObject.NestedFieldNoCopy | pkg/patterns/declarative/pkg/manifest/objects.go:148-162 | the loop finds the value, that it is missing, or that something on the way is not a map |
| Manifest.ReadExactly | pkg/patterns/declarative/pkg/manifest/objects.go:148-162 | reading fails exactly at something that is not a map, and finds nothing exactly where a map lacks the next field |
| Manifest.ManifestObject.WritePath | pkg/patterns/declarative/pkg/manifest/objects.go:289-303 | the walk fails exactly when something on the way is not a map, and then changes nothing |
| Manifest.ManifestObject.SetNestedFieldNoCopy | pkg/patterns/declarative/pkg/manifest/objects.go:282-309 | sets the path and drops the cached JSON, or fails and changes neither |
| Manifest.ManifestObject.SetName | pkg/patterns/declarative/pkg/manifest/objects.go:130-136 | in any heap the name beside the tree and the name in it change together or not at all, and fail exactly when the path is blocked |
| Manifest.PartDecidesWhole | pkg/patterns/declarative/pkg/manifest/objects.go:226-251 | in a tree, changes to the map at a path and below show in the whole tree exactly when they show in that map |
| Manifest.ManifestObject.MutatePodSpec | pkg/patterns/declarative/pkg/manifest/objects.go:226-251 | calls back exactly if there is a map at `spec.template.spec`, or `spec.jobTemplate.spec.template.spec` of a `CronJob`; drops the cached JSON on success; after a callback error the JSON kept stands for the current tree if and only if the tree looks as it did before the call |
| Manifest.ManifestObject.JSON | pkg/patterns/declarative/pkg/manifest/objects.go:311-322 | the bytes kept, or else what the tree marshals to, which are then kept |
| Manifest.Mutate | pkg/patterns/declarative/pkg/manifest/objects.go:226-322 | each call changes tree, addresses and cached JSON as the replayed step does |
| Manifest.BytesComeFrom | pkg/patterns/declarative/pkg/manifest/objects.go:311-322 | after any sequence of calls the JSON kept is what the tree marshalled to when it came in, or the bytes parsed at first |
| Manifest.FreshExactly | pkg/patterns/declarative/pkg/manifest/objects.go:226-322 | and it stands for the current tree if and only if the tree looks as it did then |
| Manifest.FreshWithoutFailure | pkg/patterns/declarative/pkg/manifest/objects.go:226-322 | which is the same tree when no callback failed |
| Manifest.ApplyMutations | pkg/patterns/declarative/pkg/manifest/objects.go:226-322 | after any sequence of these calls, maps as values and failing callbacks included, the object is what they make of it one after the other, and the JSON returned is that of the tree when those bytes came in: the current one if no callback failed, otherwise exactly if it looks the same |
| ObjectOrder.BeforeIsAsymmetric | pkg/patterns/declarative/pkg/manifest/objects.go:368-383 | the comparison is asymmetric, and ties are exactly equal score, group, kind and name |
| ObjectOrder.FirstDifferenceDecides | pkg/patterns/declarative/pkg/manifest/objects.go:368-383 | the first of score, group, kind and name in which two objects differ decides |
| ObjectOrder.BeforeIsTransitive | pkg/patterns/declarative/pkg/manifest/objects.go:368-383 | the comparison is transitive |
| ObjectOrder.NotAfterIsTransitive | pkg/patterns/declarative/pkg/manifest/objects.go:368-383 | not being after is transitive, so it is a strict weak order |
| ObjectOrder.DeterministicExactlyWithoutTies | pkg/patterns/declarative/reconciler.go:505-578 | the apply order is the same for every order of files and every outcome of the sort if and only if no two different objects tie |
| ObjectOrder.ScoreFollowsStage | pkg/patterns/declarative/sort.go:29-69 | the score of the joined group and kind is that of the listed pair: no other pair reads the same |
| ObjectOrder.StagesComeInOrder | pkg/patterns/declarative/sort.go:29-69 | in every outcome of the sort, by the names of the kinds: definitions precede namespaces, then accounts and roles, bindings, configuration, workloads, autoscalers and services |
| ObjectOrder.BuildDeploymentObjects | pkg/patterns/declarative/reconciler.go:505-578 | gathers all objects whatever the file order, sorted, and without ties always the same list |

## Left out

- SHA-256 and base64 of the set id: the id is a constant of the configuration.
- The API server and server-side apply: an apply makes the object exist with the set's label and keeps or issues its uid; a delete removes it, without finalizers or preconditions.
- Namespaces of other shape than the parent's and the objects': a stored namespace is non-empty and comma-free, and kinds are comma-free and dot-free, as Kubernetes names are.
- A kind that changes scope between runs, uids shared between kinds, and two runs at the same time on one parent.
- A RESTMapper that returns neither mapping nor error, and an object that cannot be marshalled (it counts as a refused apply).
- Pruner concurrency: the list calls are made in an order that does not matter to their result.
- Health of applied objects: whether an object is healthy is an input.
- The tracker fields that carry over between `SetDesiredObjects` calls (applylib/applyset/tracker.go) affect no request and are not part of this model.
- Watch callback errors: backfill failure returns with the mutex held and broadcast failure blocks under the lock; watches here have callbacks that succeed.
- Storage hooks, deletion timestamps, generations and the JSON of watch events.
- Timers and activity timeouts of the dynamic watch: a connection may end at any point.
- Event handlers of the metrics tracker are atomic: an eviction between the handler's look-up and its write to the gauge is not modelled, nor are errors when a kind's event source is started.
- Response headers, `Close` of the reader and more than one writer's bytes interleaved inside one `Write`.
- The rest of the request log (formatting, replacing, JSON rewriting).
- Patch.ApplyPatch: what is left in the map after a failed patch, which the caller throws away.
- The unsupported operations of the RESTMapper, which return errors, and a server whose answers change.
- JSON encoding: marshalling and decoding are functions of which one thing is known, that decoding what a tree marshals to gives a tree that looks the same.
- Manifest.ManifestObject.SetNestedFieldNoCopy: an empty path is refused in advance, where the program panics.
- `AddLabels`, `AddAnnotations`, `SetNestedStringMap`, `SetNestedSlice` and `MutateContainers`: they differ from the modelled mutators only in library calls and the value set; `SetNestedField` is modelled for values without maps.
- Changes made through `UnstructuredObject()`, which do not touch the cached JSON.
- Kustomize, manifest loading and parsing, transformations, status, the kubectl appliers, HTTP routing and the test tooling.
