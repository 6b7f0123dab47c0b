# Kstone in Dafny

Kstone is a Kubernetes controller that manages etcd clusters: it creates and resizes them through an etcd operator
(or watches imported ones), checks their members, and turns features such as monitoring, backup checks and
inspections on and off. This project models the parts of Kstone whose correctness spans several functions or whole
runs, and proves what they keep.

| file | what it models |
|---|---|
| `Cluster.dfy` | the cluster object, the decision which handler runs, and what the create, update, status and label handlers make of the object, as methods of a class that change it field by field |
| `Controller.dfy` | all runs of the reconcile loop over one stored object: stale caches, any number of workers, hooks that fail at any of three points, lost and rejected writes, crashes, user edits |
| `Convergence.dfy` | undisturbed rounds of that loop and the rank they lower |
| `KstoneSpec.dfy` | the document written for the etcd operator and the comparison that reads it back |
| `ExtClientUrl.dfy` | the `extClientURL` annotation, its printer and its parser |
| `FeatureGates.dfy` | the `featureGates` annotation and its reader |
| `FeatureSync.dfy` | bringing inspection tasks in line with the gates, pass by pass |
| `FeatureRounds.dfy` | the feature handlers inside a round of the controller |
| `KeyCount.dfy` | gauges that count keys per label from a snapshot and a stream of watch events |
| `UserStore.dfy` | users in one versioned config map, changed by concurrent read-edit-write calls |
| `WorkQueue.dfy` | the work queue and the workers that empty it |
| `Consistency.dfy` | samples collected by concurrent goroutines and their spread |
| `BackupStat.dfy` | the early-exit scan of backup files and the desired and failed counts |
| `PortNames.dfy` | port names of the monitoring objects and the relabel rule that undoes them |
| `JsonDetect.dfy` | sniffing protobuf and JSON in stored values |
| `HelmEscape.dfy`, `RuleSplice.dfy`, `RuleConditions.dfy`, `RuleFiles.dfy` | the text transforms of the Prometheus rule generator, and two of them in a row |
| `Text.dfy`, `Options.dfy` | Go and Python string operations with their laws; an option type |

Run `dafny verify dfyconfig.toml` to check everything.

Assumptions about the environment, all of them part of the models:

* The API server accepts a write only at the current resource version, and a write that changes nothing keeps the
  version. The `EtcdCluster` resource has no status subresource, so an update writes the whole object. A write may
  be lost, and a call that reports an error may still have taken effect.
* The work queue follows client-go: one copy of an item, no item with two workers, delayed adds are kept.
* A panic ends the pass of its worker, and what it did to the operator's document stays; that other passes end with it is
  covered by the crashes every run may hold. A map without entries is stored as none and read back as nil.
* `FeatureSync` passes read the statuses that are stored when they begin.
* The clock does not run backwards. Health checks, member lists, object listings and clock readings are inputs.

Findings that the proofs state exactly, on inputs where the code does less than it seems to promise:

* Escaped rule text renders back exactly for safe texts (`HelmEscape.EscapeRoundTrip`); a leftover `{` before a `}}`
  pair, or `{{`, a backquote and `}}` in a row, produce a template that does not render.
* Undisturbed rounds settle a cluster exactly if it is imported, or a kstone cluster with a disk size below 2^63 that
  either still has to be created and has annotations, or has the operator's document (`Convergence.Settles`). A kstone
  cluster without annotations is created again in every round, and each creation panics after writing the document
  (`Convergence.PanicsForever`). A created imported cluster whose type is edited to kstone has no document and is never
  updated successfully again (`Convergence.HopelessNeverSettles`). With a larger disk size no round checks the status
  (`Convergence.HugeDiskNeverSettles`).
* Members added by a resize are not translated by the annotation, which is written after creation only
  (`ExtClientUrl.MemberAddress`).
* Labels of a cluster that already has labels are changed in place and compared with themselves, so the label
  handler asks for a write only for an object without labels (`Cluster.ClusterObject.HandleLabels`).
* A pass does not take over the version its own status write made (`Controller.ChangingSaveMakesStale`), so its later
  writes are refused (`Controller.StalePassWritesNothing`). An undisturbed round stores new feature states exactly when
  the status it finds is stored already (`Convergence.FeaturesStoredExactly`); the next round of a healthy cluster
  therefore gets through (`Convergence.SecondHealthyRoundSyncs`).
* A pass whose status write is lost leaks exactly the inspection tasks it creates under a status "disabled"
  (`FeatureSync.CleanExactly`), and a leaked one stays while its gate is off (`FeatureSync.LeakLasts`).
* The watch starts, and starts again after a failure, without a revision. The gauges then count the live keys exactly
  when, label by label, as many creations as deletions were missed (`KeyCount.GapsExactly`).
* An empty user store stays empty, and every call to add a user panics (`UserStore.EmptyStaysEmpty`).
* The backup scan loses files exactly when a recent file is listed before an old one (`BackupStat.EarlyExit`).

## Model

| member | source | states |
|---|---|---|
| Controller.EveryRun | pkg/controllers/etcdcluster/etcdclusters_controller.go:255-292 | in every run from a fresh object, each stored condition list is empty, one create condition, or a finished create and an update condition, with ordered times; labels and features are handled only for clusters found healthy in the same pass, features only with a nonempty member list |
| Controller.RunKeepsInv | pkg/controllers/etcdcluster/etcdclusters_controller.go:366-395 | the same, with what every pass under way knows, as an invariant of all steps |
| Controller.SpecIsTheUsers | pkg/controllers/etcdcluster/etcdclusters_controller.go:222-240 | the stored spec is always the one of the last user edit: no write from a stale copy takes it back |
| Controller.Accepted | pkg/controllers/etcdcluster/etcdclusters_controller.go:233-239 | a write extends the history by at most one version and never rewrites it |
| Controller.ChangingSaveMakesStale | pkg/controllers/etcdcluster/etcdclusters_controller.go:278 | a pass whose first write changed the object holds an outdated version from then on until it ends, along every run |
| Controller.StalePassWritesNothing | pkg/controllers/etcdcluster/etcdclusters_controller.go:366-395 | in every run, no later step of an outdated pass changes the stored object |
| Controller.HooksWriteDocument | pkg/clusterprovider/providers/kstone/kstone.go:90-185 | a creation without a document makes one named and annotated like the cluster, an update replaces the spec of one that has a spec, with pods that carry the labels and annotations of the cluster; in all other cases, also for a creation that finds a document, it is left as it was |
| Controller.RunKeepsDocument | pkg/clusterprovider/providers/kstone/kstone.go:90-185 | in every run a document stays, and of its fields only the spec ever changes |
| Controller.UpdateNeedsDocument | pkg/clusterprovider/providers/kstone/kstone.go:161-168 | an update of a kstone cluster without a document fails and stays unfinished |
| Controller.OutcomeIsStored | pkg/controllers/etcdcluster/etcdclusters_controller.go:270-290 | what a handler made of the object, also the reason of a failure, is stored iff the write arrives at the version the pass has read; only a failure of the handler ends the pass |
| Controller.LabelsStored | pkg/controllers/etcdcluster/etcdclusters_controller.go:310-321 | labels are stored exactly for an object without labels by a pass that holds the current version; a pass that should store them and cannot ends |
| Convergence.Settles | pkg/controllers/etcdcluster/etcdclusters_controller.go:420-453 | after every run from a fresh cluster, edits of its type and annotations included, the third and later undisturbed rounds check the status iff the cluster is one of these; then they create at most once and update at most once, and otherwise no round ever checks the status |
| Convergence.ReachableSound | pkg/controllers/etcdcluster/etcdclusters_controller.go:255-292 | every world that a run reaches keeps the invariant, with a document that was generated for the spec of a stored version |
| Convergence.HopelessNeverSettles | pkg/clusterprovider/providers/kstone/kstone.go:161-195 | a cluster whose creation panics, whose document is missing after its creation, or whose type is unknown stays so, and no round ever checks its status |
| Convergence.PanicsForever | pkg/clusterprovider/providers/kstone/kstone.go:123-153 | every round of a kstone cluster without annotations is a creation |
| Convergence.RoundLowersRank | pkg/controllers/etcdcluster/etcdclusters_controller.go:481-558 | for a cluster that can be operated a round with an operation to do lowers the rank, and a status round keeps it at zero |
| Convergence.RunKeepsDoc | pkg/clusterprovider/providers/kstone/kstone.go:90-120 | in every run, edits of the type included, the operator document was generated for the spec of one of the stored versions |
| Convergence.HugeDiskNeverSettles | pkg/clusterprovider/providers/kstone/kstone.go:187-245 | from every ready world, with a disk size of 2^63 or more no round is ever a status round |
| Convergence.SecondHealthyRoundSyncs | pkg/controllers/etcdcluster/etcdclusters_controller.go:323-395 | of two undisturbed rounds that see the same healthy members the second reaches the features with its writes accepted |
| Convergence.FeaturesStoredExactly | pkg/controllers/etcdcluster/etcdclusters_controller.go:278-395 | an undisturbed round of any reachable world stores new feature states iff it checks the status and the check finds what is stored already, with running members |
| Convergence.HealthyFeaturesStored | pkg/controllers/etcdcluster/etcdclusters_controller.go:278-395 | for a check that finds the members healthy: iff the checked status is stored already |
| Cluster.NextConditions | pkg/controllers/etcdcluster/etcdclusters_controller.go:455-479 | the list ends unfinished; it is left alone if it did so already, otherwise a started condition of the asked kind follows the earlier ones, in place of a last one of the same kind |
| Cluster.ActionsTaken | pkg/controllers/etcdcluster/etcdclusters_controller.go:420-453 | when each action is taken: unfinished operations first, then an update iff a readable document differs, and a status check iff it does not, or for imported clusters |
| Cluster.OperationLeaves | pkg/controllers/etcdcluster/etcdclusters_controller.go:481-558 | the phase of the operation, and a last condition that is finished iff no hook failed and otherwise names the first failure; annotations change only by a creation without failures |
| Cluster.RunningIsTruthful | pkg/clusterprovider/providers/kstone/kstone.go:268-309 | a check reports Running only if every listed member is healthy in it and, for kstone clusters, the list is nonempty and as long as the spec's size; for both providers and all error branches |
| Cluster.HealthyIsRunning | pkg/clusterprovider/helper.go:161-186 | and it does report Running when the list can be read, fits, and all are healthy |
| Cluster.CheckedStatus | pkg/clusterprovider/providers/kstone/kstone.go:268-309 | every case of a check: a check that cannot go on takes a kstone cluster from Running to Unknown and keeps its other phases, an imported cluster is Unknown then; otherwise Running or UnHealthy by the members |
| Cluster.CreationNamesService | pkg/clusterprovider/providers/kstone/kstone.go:123-133 | creation changes only its own annotations, and the first check afterwards names the service by the scheme, the name and the namespace of the cluster |
| Cluster.ReachedMember | pkg/clusterprovider/helper.go:100-155 | with the annotation printed for some members, each listed member that announces the host of one of them is reached at the headless address of that one; other hosts are kept |
| Cluster.UntranslatedMember | pkg/clusterprovider/helper.go:108-122 | without an annotation every member is reached at the address it announces |
| Cluster.CheckedAtOwnAddress | pkg/clusterprovider/helper.go:100-186 | creation, list and check together: every member of a status that announces one of the created hosts carries the headless address of that host and is running, unhealthy or unknown as the health of this address says |
| Cluster.GetRuntimeMembers | pkg/clusterprovider/helper.go:100-155 | the loop gives the runtime members, whose addresses `Cluster.ReachedMember` states |
| Cluster.RuntimeMembersInOrder | pkg/clusterprovider/helper.go:100-155 | they are the listed members that announce an address, all of them, in their order |
| Cluster.GetMemberStatus | pkg/clusterprovider/helper.go:161-186 | every member's phase, and Running exactly when all are healthy |
| Cluster.ClusterObject.HandleOperation | pkg/controllers/etcdcluster/etcdclusters_controller.go:481-558 | phase and conditions after the hooks, with the error of the first hook that fails, and the panic of a kstone creation without annotations, before which nothing but the start is recorded |
| Cluster.ClusterObject.AfterCreate | pkg/clusterprovider/providers/kstone/kstone.go:123-153 | the annotations written after creation, and the panic on a nil map |
| Cluster.ClusterObject.HandleStatus | pkg/controllers/etcdcluster/etcdclusters_controller.go:562-593 | the status of the check, or the object unchanged on an error |
| Cluster.ClusterObject.ProviderStatus | pkg/clusterprovider/providers/imported/cluster.go:109-142 | the status of both providers, field by field |
| Cluster.ClusterObject.HandleLabels | pkg/controllers/etcdcluster/etcdclusters_controller.go:299-321 | the labels a running cluster ends with, and that a write is asked for exactly when there were none |
| Cluster.LabelsRead | pkg/controllers/etcdcluster/etcdclusters_controller.go:299-321 | the labels under each name: type, version, gates, and every other label as it was |
| KstoneSpec.UpToDateExactly | pkg/clusterprovider/providers/kstone/kstone.go:187-245 | read against a document written for another spec, a spec is up to date iff size, version, disk size, the four quantities and the environment agree and the disk size fits 63 bits |
| KstoneSpec.UpdateSettles | pkg/clusterprovider/providers/kstone/kstone.go:161-185 | what an update writes is up to date for its spec iff the disk size fits 63 bits |
| KstoneSpec.WritesDocument | pkg/clusterprovider/providers/kstone/kstone.go:90-185 | creating and updating both leave a document that the comparison reads as generated for the spec |
| KstoneSpec.ReadSecure | pkg/clusterprovider/providers/kstone/kstone.go:400-415 | generated certificates, the given names and the authority are in the spec iff the scheme is https |
| KstoneSpec.ReadRepository | pkg/clusterprovider/providers/kstone/kstone.go:422-424 | the image repository is named iff the annotation names one |
| KstoneSpec.ReadPodMeta | pkg/clusterprovider/providers/kstone/kstone.go:343-350 | the pods carry all labels and annotations of the cluster and no others |
| KstoneSpec.ReadPods | pkg/clusterprovider/providers/kstone/kstone.go:371-440 | the arguments of etcd, client certificates being asked for iff the scheme is https, the affinity, and the tolerations iff there are any |
| KstoneSpec.ReadClaim | pkg/clusterprovider/providers/kstone/kstone.go:355-368 | access mode and storage class of the volume claim |
| KstoneSpec.ReadDocument | pkg/clusterprovider/providers/kstone/kstone.go:90-104 | kind, name, namespace and annotations of the created object, and the generated spec below `spec` |
| KstoneSpec.UpdateReplacesSpec | pkg/clusterprovider/providers/kstone/kstone.go:312-326 | an update succeeds iff the document has a spec, replaces it, and leaves every other field alone |
| KstoneSpec.StorageCompares | pkg/clusterprovider/providers/kstone/kstone.go:329-446 | the printed storage of one size reads as another iff the sizes are equal and below 2^63 |
| KstoneSpec.ResourceEqual | pkg/clusterprovider/providers/kstone/kstone.go:448-484 | true iff the four quantities read back as the desired ones, absent entries as zero |
| ExtClientUrl.RoundTrip | pkg/clusterprovider/providers/kstone/kstone.go:134-151 | parsing the printed annotation yields one entry per member with distinct keys and distinct addresses, iff name and namespace hold no separator |
| ExtClientUrl.OwnHost | pkg/clusterprovider/providers/kstone/kstone.go:137-144 | the address of a member continues its own host in the headless domain |
| ExtClientUrl.AddressInjective | pkg/clusterprovider/providers/kstone/kstone.go:137-144 | no two members share an address |
| ExtClientUrl.PrintExtClientURL | pkg/clusterprovider/providers/kstone/kstone.go:134-151 | the loop prints the items joined by commas, and nothing for a size that is not positive as a signed number |
| ExtClientUrl.PopulateExtensionClientURLMap | pkg/clusterprovider/helper.go:53-68 | the table of the items before the first malformed one, and that one as the error |
| ExtClientUrl.ParsedClean | pkg/clusterprovider/helper.go:53-68 | whatever the text, no separator is left in a parsed key or address |
| ExtClientUrl.LastItemWins | pkg/clusterprovider/helper.go:53-68 | of several items with one key the last one counts |
| ExtClientUrl.MemberAddress | pkg/clusterprovider/helper.go:108-122 | spelled out: the host of a member below the printed size is translated to the same host in the headless domain, under the announced scheme; hosts of later members are kept |
| FeatureGates.IsFeatureGateEnabled | pkg/featureprovider/util/util.go:48-64 | true iff some well-formed item for this name parses true |
| FeatureGates.PrintedGatesRead | pkg/featureprovider/util/util.go:48-64 | any printing of a table of gates, in any order, reads back as exactly its true entries |
| FeatureGates.SpellingsOfTrue | pkg/featureprovider/util/util.go:48-64 | which spellings of a value turn a feature on |
| FeatureSync.Reconciler.Equal | pkg/inspection/inspection.go:178-212 | settled iff the inspection task is there for an open gate; for a closed one, if the status says disabled or the inspection task is gone |
| FeatureSync.Reconciler.Sync | pkg/inspection/inspection.go:188-231 | the one task created or deleted, also when the call fails after taking effect |
| FeatureSync.Reconciler.HandleFeature | pkg/controllers/etcdcluster/etcdclusters_controller.go:340-362 | one visit of a feature changes its task and its status as the gate, the read and the call say, and nothing else |
| FeatureSync.Reconciler.HandleClusterFeature | pkg/controllers/etcdcluster/etcdclusters_controller.go:323-364 | every feature ends as if visited alone and nothing else changes; nothing happens for clusters not running or without members |
| FeatureSync.OrderIndependent | pkg/controllers/etcdcluster/etcdclusters_controller.go:340-362 | every order of the provider table gives the same tasks and statuses, even when calls fail |
| FeatureSync.PassReports | pkg/controllers/etcdcluster/etcdclusters_controller.go:340-362 | after a pass a feature that was not settled reads "enabled" iff its gate is on and the call succeeded, "disabled" iff it is off and the call succeeded, and otherwise the failure |
| FeatureSync.VisitAligns | pkg/inspection/inspection.go:178-231 | a visit whose call succeeds brings the inspection task in line with the gate, whether it could be read or not, unless the gate is off, the status says disabled and there is a task |
| FeatureSync.FairPassMatchesGates | pkg/inspection/inspection.go:178-231 | a pass without failures makes every task present iff its gate is on, iff no task was leaked before |
| FeatureSync.SecondPassIsIdle | pkg/inspection/inspection.go:178-212 | after it every feature is settled and a second pass changes nothing |
| FeatureSync.OtherClustersUntouched | pkg/inspection/inspection.go:126-152 | no pass touches a task of another cluster when feature names hold no dash |
| FeatureSync.TaskNamesDiffer | pkg/inspection/inspection.go:130 | the name of an inspection task determines cluster and feature |
| FeatureSync.DashedNamesCollide | pkg/inspection/inspection.go:130 | with dashes in feature names it would not |
| FeatureSync.StoredRunsConverge | pkg/controllers/etcdcluster/etcdclusters_controller.go:340-363 | while the statuses are stored, any run of passes, failures and gate changes stays clean, and one pass without failures brings all tasks in line |
| FeatureSync.LostWriteLeaks | pkg/controllers/etcdcluster/etcdclusters_controller.go:363 | a round whose status write is lost leaks a feature iff it creates its inspection task under a status "disabled", be it by a call that reported a failure |
| FeatureSync.CleanExactly | pkg/controllers/etcdcluster/etcdclusters_controller.go:340-363 | a round keeps the state clean iff its statuses are stored or it creates no such inspection task |
| FeatureSync.LeakLasts | pkg/inspection/inspection.go:178-186 | a leaked task survives every later pass that reads the stored statuses while its gate is off |
| FeatureRounds.RoundLeaksExactly | pkg/controllers/etcdcluster/etcdclusters_controller.go:278-363 | an undisturbed round of a healthy cluster leaks inspection tasks iff it had to save a changed status first and created one under a status "disabled" |
| KeyCount.LabelMap.SetPrefixAndResource | pkg/inspection/request.go:131-142 | the labels of the key under their names, other labels kept |
| KeyCount.LabelsAreSegments | pkg/inspection/request.go:131-142 | the prefix is the second and the resource the third segment of a key, each empty when missing, whatever follows |
| KeyCount.Collector.ProcessEvent | pkg/inspection/request.go:203-228 | one event moves one gauge and one counter, and the reused label map has exactly the declared names at each metric call |
| KeyCount.Collector.ProcessEvents | pkg/inspection/request.go:203-228 | the vectors after any events, handled in order with one label map |
| KeyCount.Collector.Collect | pkg/inspection/request.go:51-116 | only a first successful call counts the snapshot |
| KeyCount.GaugesAreLiveCounts | pkg/inspection/request.go:119-128 | after any snapshot and any processed prefix of a gap-free stream each gauge is the number of live keys with its labels |
| KeyCount.FeedInOrder | pkg/inspection/request.go:181-228 | however watch and counters take turns on the buffered channel, the processed events are a prefix of the delivered ones and the vectors are those of exactly these events |
| KeyCount.GaugesAtEveryMoment | pkg/inspection/request.go:65-116 | so at every moment of a gap-free feed each gauge is the number of live keys with its labels as of the last processed event |
| KeyCount.GaugesFollow | pkg/inspection/request.go:203-228 | along a gap-free stream gauges that are right stay right |
| KeyCount.GaugesSum | pkg/inspection/request.go:119-128 | the gauges add up to the number of live keys |
| KeyCount.RequestsSum | pkg/inspection/request.go:203-228 | the request counters add up to the number of processed events |
| KeyCount.RequestsCounted | pkg/inspection/request.go:203-228 | each request counter is the number of processed puts, or deletions, of its labels |
| KeyCount.SnapshotCountedOnce | pkg/inspection/request.go:65-68 | repeated collect calls never count a snapshot twice |
| KeyCount.GaugesMissGaps | pkg/inspection/request.go:163-200 | for any stream with any gaps each gauge is off by the creations minus the deletions that were missed of its labels |
| KeyCount.GapsExactly | pkg/inspection/request.go:163-200 | the gauges count the live keys iff for all labels as many creations as deletions were missed |
| KeyCount.GaugesWithGaps | pkg/inspection/request.go:181-228 | the same at every moment of the buffered channel |
| KeyCount.SnapshotGap | pkg/inspection/request.go:92-112 | after one gap between snapshot and watch the gauges are right, whatever is watched later, iff the gap left the number of keys of all labels as it was |
| KeyCount.MissedCreateSticks | pkg/inspection/request.go:163-178 | one missed creation leaves the gauge of its labels one too low for good, whatever happens to the key later |
| UserStore.Linearizable | pkg/authentication/store.go:70-149 | every interleaving of any number of calls leaves the users that the committed calls give one after the other, in the order of their commits |
| UserStore.CommitsAreLegal | pkg/authentication/store.go:85-149 | the guard of every committed call holds when its turn comes in that order |
| UserStore.AnswersExplained | pkg/authentication/store.go:70-149 | no call is committed twice, and every answer, also of reads and refusals, was right at one moment of that order, not before the call began |
| UserStore.RealTimeOrder | pkg/authentication/store.go:70-149 | a call that ended before another one began comes before it in that order |
| UserStore.LastWriteIsRead | pkg/authentication/store.go:70-149 | after every run a read of a name finds the password of the last committed write that concerns it, nothing if that was a deletion, and what was there at first if there was none |
| UserStore.DoneIsVisible | pkg/authentication/store.go:85-149 | a call that is done is visible to every later read of its user and to no other read |
| UserStore.GuardsAgree | pkg/authentication/store.go:70-149 | which calls are done, refused or panic, by what reads find; what is refused as the last user is the only one |
| UserStore.NeverEmptied | pkg/authentication/store.go:101-118 | a nonempty store never becomes empty, its size is the initial one plus additions minus deletions, and no call panics |
| UserStore.EmptyStaysEmpty | pkg/authentication/store.go:85-99 | an empty store stays empty and every addition panics on the nil map |
| UserStore.LaterWriteConflicts | pkg/authentication/store.go:94-97 | a call that read before a change ends without effect |
| UserStore.BothAcceptedOnlyIfIdle | pkg/authentication/store.go:135-149 | of two calls that read the same version both are accepted iff the first changes nothing |
| UserStore.UserGet | pkg/authentication/store.go:70-83 | the stored password or an error |
| UserStore.UserAdd | pkg/authentication/store.go:85-99 | the guard, the panic on an empty store, and the copy with the new user under its password and all others as before |
| UserStore.UserDelete | pkg/authentication/store.go:101-118 | the two guards and the copy without the user and with all others as before |
| UserStore.UserChangePassword | pkg/authentication/store.go:135-149 | the guard and the copy with the new password of the user and all others as before |
| UserStore.RunAlone | pkg/authentication/store.go:70-149 | a call without company has its sequential meaning, and what it did is what the next read finds |
| WorkQueue.ProcessWorkQueue | pkg/controllers/util/util.go:175-195 | what each of the three outcomes does to the queue, with `Done` always last |
| WorkQueue.EveryRun | pkg/controllers/etcdcluster/etcdclusters_controller.go:171-193 | under any number of workers no item is queued twice or held twice, every get is matched by one done, and what was requested, during processing or by a failed sync too, is pending until taken |
| WorkQueue.QuietMeansSynced | pkg/controllers/etcdcluster/etcdclusters_controller.go:178-193 | when nothing is pending and no worker is busy, every item's last sync succeeded and began after the last request for it |
| WorkQueue.RecordsAreTrue | pkg/controllers/etcdcluster/etcdclusters_controller.go:178-193 | told by the events: an item counts as synced iff its last sync succeeded, and its delay counts the failures since the last success |
| WorkQueue.QuietReturns | pkg/controllers/etcdcluster/etcdclusters_controller.go:178-193 | when the queue is quiet the last sync of every item ever taken succeeded |
| WorkQueue.BecomesPending | pkg/controllers/util/util.go:175-195 | a request and a failed sync make an item pending |
| WorkQueue.StaysPending | pkg/controllers/etcdcluster/etcdclusters_controller.go:171-176 | a pending item stays so until a worker takes it |
| WorkQueue.ServedInTurn | pkg/controllers/etcdcluster/etcdclusters_controller.go:171-176 | a queued item waits for no more than the items before it |
| Consistency.Metadata.Append | pkg/inspection/consistency.go:91-95 | what a goroutine adds under the mutex, in any order of its kinds |
| Consistency.Metadata.Collect | pkg/inspection/consistency.go:42-103 | the samples of all members in the order of the goroutines, failed iff one member failed |
| Consistency.Metadata.Diffs | pkg/inspection/consistency.go:124-127 | lists sorted in place, last minus first is the spread |
| Consistency.CollectDiffs | pkg/inspection/consistency.go:107-127 | for every order of the goroutines each difference is the spread over the members; nothing is reported if one failed |
| Consistency.OrderIrrelevant | pkg/inspection/consistency.go:91-95 | every order of the members appends the same multiset of samples |
| Consistency.Spread | pkg/inspection/consistency.go:126 | the largest difference of two samples, zero iff all agree |
| Consistency.LastMinusFirst | pkg/inspection/consistency.go:125-126 | the unsigned subtraction does not wrap around and gives the spread |
| BackupStat.StatS3 | pkg/backup/providers/s3/s3.go:108-124 | the backward loop computes the scan, with the clock read at every step |
| BackupStat.StatCOS | pkg/backup/providers/cos/cos.go:107-126 | the same with times that may not parse |
| BackupStat.BadTimeExactly | pkg/backup/providers/cos/cos.go:113-116 | an unreadable time is an error iff only recent files are listed after it |
| BackupStat.SteadyScan | pkg/backup/providers/s3/s3.go:113-122 | by a clock that stands still the scan counts the recent suffix |
| BackupStat.SuffixIsLongest | pkg/backup/providers/s3/s3.go:113-122 | the scan counts the longest recent suffix |
| BackupStat.EarlyExit | pkg/backup/providers/s3/s3.go:113-122 | it never exceeds the full count, and equals it iff no recent file is listed before an old one |
| BackupStat.MovingClock | pkg/backup/providers/s3/s3.go:113-122 | a clock that moves during the scan keeps the result between the counts at its two ends |
| BackupStat.AddedSuffix | pkg/backup/providers/s3/s3.go:113-122 | how one more file anywhere changes the count: it falls iff the file is old and lands inside the counted tail |
| BackupStat.StatBackupFiles | pkg/inspection/backupcheck.go:78-92 | the two gauges, and the division by zero of a missing interval |
| BackupStat.Failed | pkg/inspection/backupcheck.go:83-90 | zero iff enough files are there, otherwise what is missing |
| BackupStat.DesiredFits | pkg/inspection/backupcheck.go:79-82 | desired is the largest number, up to the maximum, whose intervals fit into one day |
| BackupStat.NoFailureReported | pkg/inspection/backupcheck.go:72-90 | for ascending listings no failure is reported iff enough files are recent |
| BackupStat.AddedFileNeverFails | pkg/inspection/backupcheck.go:83-90 | for ascending listings an added file never raises the failures |
| PortNames.InitEtcdSvc | pkg/monitor/prometheus.go:387-412 | one numbered port per member whose name differs from the one before, with its target port; the panic of an address without a port |
| PortNames.InitEtcdEndpoint | pkg/monitor/prometheus.go:442-475 | one subset per member of an imported cluster, with both ways to fail |
| PortNames.InitEtcdServiceMonitor | pkg/monitor/prometheus.go:299-349 | one scraped port per member |
| PortNames.SamePortNames | pkg/monitor/prometheus.go:387-475 | the three objects carry the same set of port names |
| PortNames.ServicePorts | pkg/monitor/prometheus.go:389-412 | service port names are distinct iff equal names come from adjacent members, and the ports are 2379, 2380 and so on |
| PortNames.PortOfAddress | pkg/monitor/prometheus.go:390-410 | host and port of an address end up in the objects as they are printed in it |
| PortNames.AtoiOfPrinted | pkg/monitor/prometheus.go:391 | printed numbers read back, with a sign or without, as far as they fit 64 bits; beyond that the nearest one and an error |
| PortNames.ThreeCuts | pkg/monitor/prometheus.go:303-311 | the greedy groups of the relabel rule |
| PortNames.RelabelRoundTrip | pkg/monitor/prometheus.go:303-324 | the rule turns the port name of an endpoint back into it iff it has fewer than three separators and no dot, or its last three separators are dots and the others dashes |
| PortNames.FourLabels | pkg/monitor/prometheus.go:303-324 | so it does for every endpoint of four labels |
| JsonDetect.TryFindJSON | pkg/etcd/encoding.go:136-153 | the loop finds the leftmost document, as the bytes up to its closing delimiter |
| JsonDetect.TryFindProto | pkg/etcd/encoding.go:125-131 | found iff the prefix occurs, and then the bytes from its leftmost occurrence on |
| JsonDetect.DetectAndExtract | pkg/etcd/encoding.go:110-122 | protobuf before JSON before an error |
| JsonDetect.DecodeUnknown | pkg/etcd/encoding.go:167-174 | the two prefix checks |
| JsonDetect.DetectMeaning | pkg/etcd/encoding.go:110-153 | each answer is given iff such data exists; binary data is the longest suffix the prefix checks accept, JSON the longest valid suffix |
| JsonDetect.LengthExcludesNothing | pkg/etcd/encoding.go:142-144 | the exit on a rest of one byte loses no document |
| JsonDetect.DetectIdempotent | pkg/etcd/encoding.go:110-122 | what is extracted is detected as the same thing again |
| JsonDetect.LeadingBytesSkipped | pkg/etcd/encoding.go:110-153 | leading bytes that start neither form change nothing |
| HelmEscape.EscapeRoundTrip | charts/charts/kube-prometheus-stack/hack/sync_prometheus_rules.py:182-183 | Helm renders the escaped text back to the text iff it is safe, and stops with an error otherwise |
| HelmEscape.EscapeWithoutQuotes | charts/charts/kube-prometheus-stack/hack/sync_prometheus_rules.py:182-183 | without backquotes the four replacements are one token-wise map |
| HelmEscape.EscapeIsTokenMap | charts/charts/kube-prometheus-stack/hack/sync_prometheus_rules.py:182-183 | the four replacements are one token-wise map iff no `{{` fuses with a later `}}` |
| HelmEscape.ThreeReplacements | charts/charts/kube-prometheus-stack/hack/sync_prometheus_rules.py:182-183 | the first three replacements are a token-wise map on every text |
| RuleSplice.AddCustomLabels | charts/charts/kube-prometheus-stack/hack/sync_prometheus_rules.py:242-261 | the loop splices the condition exactly once into each alert block, just before its last character |
| RuleSplice.SpliceAtCorrectedIndex | charts/charts/kube-prometheus-stack/hack/sync_prometheus_rules.py:253 | the k-th splice is found in the final text at its drift-corrected index |
| RuleSplice.CharacterMoves | charts/charts/kube-prometheus-stack/hack/sync_prometheus_rules.py:253-254 | every character of the input is in the result, moved by the splices before it |
| RuleSplice.RemovalGivesInputBack | charts/charts/kube-prometheus-stack/hack/sync_prometheus_rules.py:244-261 | removing the condition gives the input back iff no piece between two insertions held it |
| RuleSplice.AlertLinesFound | charts/charts/kube-prometheus-stack/hack/sync_prometheus_rules.py:247-248 | every alert line is found |
| RuleConditions.AddRulesConditions | charts/charts/kube-prometheus-stack/hack/sync_prometheus_rules.py:208-240 | the nested loops compute, on every text, one wrapped block per entry of the table, and none of their searches fails |
| RuleConditions.OnlyAdds | charts/charts/kube-prometheus-stack/hack/sync_prometheus_rules.py:213-239 | on every text an entry inserts the condition line directly at the first alert of its name and the end line somewhere behind its start, or nothing if there is no such alert |
| RuleConditions.BreakInside | charts/charts/kube-prometheus-stack/hack/sync_prometheus_rules.py:225-233 | the backward search for a line break always succeeds and never leaves the block |
| RuleConditions.ConditionsNest | charts/charts/kube-prometheus-stack/hack/sync_prometheus_rules.py:208-240 | a file of a head and alert blocks comes out as the same head and blocks, each wrapped in the conditions of the entries that name it, each closed right after its own block whatever the order of the table |
| RuleFiles.LabelsFile | charts/charts/kube-prometheus-stack/hack/sync_prometheus_rules.py:242-261 | labels put into a file of a head and alert blocks give the same head and the same blocks, each with the label lines at its end |
| RuleFiles.GeneratedFile | charts/charts/kube-prometheus-stack/hack/sync_prometheus_rules.py:276-278 | labels first and conditions second, as the generator does: the same head, and every block with its label lines inside the conditions that name it |

## Left out

- Kubernetes, etcd, S3, COS, Prometheus and HTTP calls: their answers are inputs, and the rule for versions is an assumption.
- Leader election, signals, informers, flag parsing, routing, TLS, password hashing and tokens: library behaviour or wrappers.
- JSON, YAML and protobuf codecs: writing and reading a stored object is taken to be faithful, and what is valid JSON is a parameter.
- Deletion of a cluster and changes of the operator's document by others: the repository reacts to neither.
- Cluster.GetRuntimeMembers: member versions, roles, ids and the port text are not modelled, nor the panic on an announced address without two colons.
- KeyCount: two clusters of one name in different namespaces would share the maps of the source and are not modelled.
- Monitoring and backup features: their comparison does not become true after a sync (`pkg/backup/backup.go:313` compares a pointer with a pointer to one, `pkg/monitor/prometheus.go:496` an empty label map), so `FeatureSync` covers the features built on inspections.
- Consistency.Metadata.Collect: the shared client configuration that the goroutines overwrite is not modelled; every member answers for itself.
- PortNames.RelabelRoundTrip: labels with line breaks, which the regular expression would not match, do not occur in port names and are not treated separately.
- RuleConditions.ConditionsNest: files whose alert blocks are not made of whole lines, or end in an empty or a condition line, are covered by `OnlyAdds` only, since a block is then not closed at a block boundary.
- Logs, events, reason texts beyond empty on success, metrics of failed inspections, IPv6 addresses and Unicode normalisation.
- KstoneSpec.GenerateEtcdSpec: takes the list of extra certificate names as an input instead of parsing it from its annotation.
- KstoneSpec.Document: without the owner reference.
