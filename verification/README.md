# Habana AI Operator: the DeviceConfig reconcile protocol

This project models what the operator's controller does to a cluster and proves what its users
rely on: when two DeviceConfigs cannot share a node, that no Module outlives the DeviceConfig it belongs
to, when a status which says Ready is true, and that retrying gets there.

## How it is built

A *world* (`Store.dfy`) holds versioned DeviceConfigs, labelled nodes, the child objects and the
operator's gauge, with the API server's rules: a write needs the version that was read, a deleted object
waits for its finalizers, DeviceConfig or Module, and a patch changes only what the writer changed. Every
API call may go through, fail, or take effect and still report a failure.

One pass of the controller is a machine that makes one API call per step (`Machine.dfy`). The same steps
are used three times:

- `Reconciler.dfy` is the controller as it is written: methods that change the cluster object and the
  DeviceConfig in place, with loops and early returns. `Reconcile` is proved to have exactly the effect,
  the calls and the outcome of the machine, so what is proved about the machine holds of those methods.
- `Sequential`, `Dropping`, `Convergence`, `Confluence` and `NonInterference` are about passes that run
  one after the other, under every sequence of failures. `Dropping` is about the pass whose finalizer
  write leaves an empty selector out.
- `System`, `Invariant`, `Preservation`, `Tracking`, `Safety`, `PlainSelectors`, `Status` and
  `Exclusivity` are about whole runs, in which one worker per key, users, nodes, the garbage collector,
  other controllers and restarts of the operator interleave call by call in any order. `Gauge` is about
  both. `LonePass` shows that passes of the second kind are runs of the third, and `Adoption` that what is
  shown of them applies to every live DeviceConfig of a conflict-free reachable state.

Three things can happen behind the operator's back that its results turn on. Others may put a finalizer on
a Module, which matters only if a Delete then meets it (`SparesAll` says of a run that none does;
`Spared` gives a simple kind of such runs). Somebody may strip the operator's finalizer from a DeviceConfig.
And a selector may be present but empty, which a write leaves out. Each theorem names what it needs of
these, and `HeldModule`, `HeldCommit`, `Stripping`, `Editing` and `EmptySelector`, with the scene in
`Staging`, build the runs that show what happens without it.

`Deployment` says in names and values what the cluster holds for a DeviceConfig, and `Outcome` what a user
may conclude from it: from a reason, from Ready, from a child that is there. `Patching` says what a write
of a child leaves to others.

The other files are the components: the API types and the effective selector (`Api`), owner references
and merge patches (`Objects`), the four children (`KmmModule`, `NodeLabeler`, `NodeMetrics`, `Children`),
the status conditions (`Conditions`), the finalizer list (`Finalizers`), the node selector validator
(`NodeSelector`), and the cluster as an object (`Client`).

## What to read first

1. `Exclusivity.NodeExclusivity`. The validator runs once per pass, reads one list after another, and
   other actors move in between. Exclusivity still holds in every reachable state, because a validator in
   flight whose DeviceConfig is still the one it read has every other on its list, or is on theirs; the
   finalizer and the version check on the write that adds it keep that so.
2. `EmptySelector.EmptySelectorBreaksExclusivity`. The Go type of the specification is encoded without an
   empty selector, so the write that adds the finalizer turns `nodeSelector: {}`, which matches every
   node, into no selector, which matches the nodes with the PCI label; the reply is decoded into the object
   the pass holds (`vendor/k8s.io/apimachinery/pkg/runtime/serializer/json/json.go`, lines 201-206), where
   the absent field keeps its value, and the pass goes on with the empty one. The lemma says for exactly
   which specifications and finalizers a creation can make two Modules share a node.
3. `Safety.ReleaseKeepsOwnersIff`. A Delete only marks a Module that carries a finalizer of its own, and
   the controller takes it for done and releases the DeviceConfig: every Module still has its owner then
   exactly when nobody held on to this one. `HeldModule` and `HeldCommit` show for every finalizer what
   else comes of it: two Modules on one node, and a DeviceConfig that says Ready, or that its Module is
   applied, and has none.
4. `Status.ReadyCommitIsSound` and `Status.ReadyStaysTrue`. They rest on the version being carried
   from the finalizer write to the status write, and hold whoever strips whichever finalizer from a
   DeviceConfig and puts whichever on a Module, as long as no Delete meets a held Module.
5. `Outcome.ReasonTells`, `Outcome.ReadyTells` and `Patching.WriteLeavesTheRest`: the same, as a reader of
   the cluster sees it.
6. `Gauge.GaugeIsLastWrite` and `Gauge.PassWritesItsOutcome`, `Safety.FinalizerSafety`,
   `Convergence.RetriesConverge`, `Convergence.DeletionTerminates`, `Confluence.OrderDoesNotMatter`,
   `NodeSelector.ScanIsExact`.

Where documentation and code differ the model follows the code. `docs/design.md` describes the
validation as happening when a DeviceConfig is created; the code validates at the start of every pass
over a live DeviceConfig. The device type passed to the selector has no effect, because the switch that
reads it first declares an empty variable of the same name. The condition reason for conflicting
selectors is declared and never written: a refusal leaves the status as it is and is not retried.

## Model

| member | source | states |
|---|---|---|
| Reconciler.Reconcile | controllers/deviceconfig_controller.go:102-183 | from any cluster and with any replies a pass changes the cluster, consumes replies and ends exactly as the machine's pass does, and returns an error exactly for the outcomes that are queued again |
| Reconciler.Validate | controllers/deviceconfig_controller.go:131-147 | a refusal ends the pass without an error and with the gauge at 1; otherwise the finalizer is added before anything else is written, and a failure to add it ends the pass |
| Reconciler.Remove | controllers/deviceconfig_controller.go:117-129 | the Module is deleted before the finalizer is taken off, and either failure ends the pass with an error |
| Reconciler.Apply | controllers/deviceconfig_controller.go:149-182 | the stages run in order, the first error is reported and stops the pass with Errored=True and the reason ModuleFailed, NodeLabelerFailed or NodeMetricsFailed of the part that failed, and the gauge is cleared before Ready is written |
| Reconciler.ReportFailure | controllers/deviceconfig_controller.go:149-171 | a stage error is written to the status with the reason given, which is what the DeviceConfig at hand then shows, and then to the gauge, and a failing status write does not hide it |
| Reconciler.Finish | controllers/deviceconfig_controller.go:182-182 | the pass succeeds exactly when the final Ready write is acknowledged |
| Reconciler.CheckForConflictingNodeSelector | controllers/nodeselector.go:41-65 | accepts only if no node is selected by two stored DeviceConfigs, reports a conflict only if one is, fails otherwise exactly when one of its own list calls failed, and changes nothing in the cluster |
| Reconciler.GetDeviceConfigSelectedNodes | controllers/nodeselector.go:67-82 | lists the nodes the effective selector matches, and writes that selector into the loop's own copy only |
| Finalizers.AddFinalizer | vendor/sigs.k8s.io/controller-runtime/pkg/controller/controllerutil/controllerutil.go:353-362 | in place: the finalizer is appended unless it is there; nothing else of the object changes |
| Finalizers.RemoveFinalizer | vendor/sigs.k8s.io/controller-runtime/pkg/controller/controllerutil/controllerutil.go:366-377 | in place, deleting while scanning: every occurrence goes, the others keep their order, nothing else changes |
| Reconciler.AddDeletionFinalizer | internal/finalizers/finalizers.go:42-48 | adds the finalizer to the object at hand and stores it if the version still matches; on success the object carries the new version |
| Reconciler.RemoveDeletionFinalizer | internal/finalizers/finalizers.go:50-56 | takes every occurrence of the finalizer off and stores the rest if the version still matches |
| Reconciler.SetStatusCondition | vendor/k8s.io/apimachinery/pkg/api/meta/conditions.go:30-55 | the search and in-place update agree with the upsert by type |
| Reconciler.SetConditionsReady | internal/conditions/conditions.go:53-68 | both conditions are set in the object and committed in one status write, which other writers' versions can refuse |
| Reconciler.SetConditionsErrored | internal/conditions/conditions.go:70-85 | likewise for the errored pair, with the reason and message given |
| Reconciler.ReconcileChild | internal/module/module.go:73-108 | reads the child, then creates or patches it; ends as the machine's stage does, with an error or past the stage |
| Reconciler.CreateOrPatch | vendor/sigs.k8s.io/controller-runtime/pkg/controller/controllerutil/controllerutil.go:232-334 | re-reads, runs the setter, creates what is missing, patches what differs and writes nothing when nothing differs; an object that vanished after the first read cannot be created again |
| Reconciler.ReconcileNodeMetrics | internal/node/metrics/metrics.go:82-94 | the Service is touched only after the DaemonSet succeeded |
| Reconciler.DeleteModule | internal/module/module.go:110-124 | deletes the Module called like this DeviceConfig with "-module" appended, in its namespace, and one that is missing, or only marked because it carries finalizers, counts as deleted |
| Client.Cluster.Update | internal/finalizers/finalizers.go:44-44 | the store's rule for a full update under each of the three replies: the specification is stored without an empty selector, and the caller's object is refreshed only on success and keeps what was left out |
| Client.Cluster.UpdateStatus | internal/conditions/conditions.go:67-67 | the store's rule for a status update under each of the three replies |
| Client.Cluster.DeleteChild | internal/module/module.go:118-118 | removes the object, marks it if it carries finalizers, or reports that there is none, under each of the three replies |
| Machine.StepMakesProgress | controllers/deviceconfig_controller.go:102-183 | a pass ends whatever its calls return |
| Machine.RepliesMean | controllers/deviceconfig_controller.go:102-183 | for every call: if it fails the store is as it was, if its acknowledgement is lost the store is as if it went through, and the pass goes on in the same way from either |
| NodeSelector.ContainsDuplicates | controllers/nodeselector.go:84-93 | true exactly when some name occurs twice |
| NodeSelector.FlattenIsExact | controllers/nodeselector.go:48-60 | lists without repetition, appended to each other, have a repetition exactly when two of them share a name |
| NodeSelector.SizesAreExact | controllers/nodeselector.go:48-60 | the sizes add up to the size of the union exactly when no two lists share a name |
| NodeSelector.ScanIsExact | controllers/nodeselector.go:48-62 | the duplicate scan over all appended names accepts exactly when the selected node sets are pairwise disjoint, equally when their sizes add up to that of their union |
| NodeSelector.ConflictFreeMeans | controllers/nodeselector.go:41-65 | the verdict over the listing is the statement about all pairs of stored DeviceConfigs, whichever one is asked about |
| NodeSelector.VerdictMonotone | controllers/nodeselector.go:41-65 | adding nodes or DeviceConfigs or weakening selectors never makes a conflict go away |
| NodeSelector.StrongerSelectsFewer | controllers/nodeselector.go:74-79 | a selector with more requirements selects a subset |
| Store.SelectionExact | controllers/nodeselector.go:74-79 | a node list holds exactly the matching nodes, each once |
| Api.OneSelectorForAll | api/v1alpha1/deviceconfig_types.go:75-89 | every device type gives the validator's selector; an empty selector matches every node; a nil one matches exactly the nodes with the PCI label |
| Api.EncodingKeepsClaimIff | api/v1alpha1/deviceconfig_types.go:41-41 | writing a specification back keeps the nodes it claims exactly when its selector is not a present but empty one |
| KmmModule.SetDesiredModule | internal/module/module.go:126-147 | in place: the whole specification is replaced, the rest kept, and the owner set or refused |
| KmmModule.SplitAtColon | internal/module/module.go:197-197 | image and version can be read back from the image string when versions have no colon |
| KmmModule.SameModuleIff | internal/module/module.go:126-203 | without colons in the versions, under any two settings two DeviceConfigs ask for the same Module exactly when image, version, effective selector and the device plugin image agree |
| KmmModule.AmbiguousIffColon | internal/module/module.go:194-203 | some other image and version render to the same string exactly when the image or the version contains a colon |
| NodeLabeler.SetDesiredNodeLabelerDaemonSet | internal/node/labeler/labeler.go:140-189 | in place: the copy loop yields the effective selector, the managed fields are set and the others kept |
| NodeLabeler.SameTemplateIff | internal/node/labeler/labeler.go:140-233 | of all settings and of the DeviceConfig the pods depend on the labeler image and the effective selector, and on nothing else |
| NodeMetrics.SetDesiredNodeMetricsDaemonSet | internal/node/metrics/metrics.go:213-266 | in place: the copy loop yields the effective selector, the managed fields are set and the others kept |
| NodeMetrics.SameTemplateIff | internal/node/metrics/metrics.go:213-348 | of all settings and of the DeviceConfig the pods depend on the metrics image and the effective selector, and on nothing else |
| NodeMetrics.SetDesiredNodeMetricsService | internal/node/metrics/metrics.go:268-295 | in place: labels, annotations and specification are replaced, and the owner set or refused |
| Objects.ControllerIsSet | vendor/sigs.k8s.io/controller-runtime/pkg/controller/controllerutil/controllerutil.go:59-94 | refused exactly when another object controls the child; otherwise this one is the first controller and all other owners stay |
| Objects.ReferenceGoesIn | vendor/sigs.k8s.io/controller-runtime/pkg/controller/controllerutil/controllerutil.go:123-141 | the reference takes the place of the first entry of that kind and name, or is appended once; every other entry keeps its place |
| Objects.OnlyControllerIff | vendor/sigs.k8s.io/controller-runtime/pkg/controller/controllerutil/controllerutil.go:59-94 | afterwards the reference is the only controller if and only if no entry but the first that names the same object was one |
| Objects.TwoControllers | vendor/sigs.k8s.io/controller-runtime/pkg/controller/controllerutil/controllerutil.go:85-94 | a list with one controller can end with two: an entry for the same object that controls nothing came first |
| Objects.ControllerUnchanged | vendor/sigs.k8s.io/controller-runtime/pkg/controller/controllerutil/controllerutil.go:123-141 | the owner list is left alone exactly when the reference is already in place |
| Objects.PatchOfSame | vendor/sigs.k8s.io/controller-runtime/pkg/controller/controllerutil/controllerutil.go:254-300 | the merge patch applied to the object it was computed from yields the intended object |
| Objects.PatchOfAlike | vendor/sigs.k8s.io/controller-runtime/pkg/controller/controllerutil/controllerutil.go:254-300 | applied to an object that others have since held on to or let go of, the patch leaves the finalizers as they are now |
| Objects.PatchKeepsOthersChanges | vendor/sigs.k8s.io/controller-runtime/pkg/controller/controllerutil/controllerutil.go:250-300 | for any three objects, each field and each label and annotation key the writer left alone is as it is now, and each it changed, added or removed is as the writer has it |
| Patching.WriteLeavesTheRest | vendor/sigs.k8s.io/controller-runtime/pkg/controller/controllerutil/controllerutil.go:250-300 | in every reachable state, without any assumption on the run, a write of a child touches no other object and leaves its finalizers, its deletion and, but for the Service, its labels and annotations exactly as they are at that moment; an object that has vanished since it was read is not created again |
| Children.ChildKeysDistinct | internal/node/metrics/metrics.go:78-80 | two children have the same kind, namespace and name exactly when DeviceConfig and stage are the same |
| Deployment.ChildrenAreThere | internal/module/module.go:68-90 | the children are in the namespace of the DeviceConfig, called like it with "-module", "-node-labeler" and, twice, "-node-metrics" appended |
| Deployment.ConformsIffShows | internal/module/module.go:126-203 | a child is what a DeviceConfig asks for exactly when it belongs to it and holds these images, arguments, labels, directories, accounts and ports, value by value |
| Deployment.ServiceReachesMetricsPods | internal/node/metrics/metrics.go:268-348 | the Service selects the pods of the metrics DaemonSets of its namespace, whichever DeviceConfig they belong to, and none of a labeler; each DaemonSet selects its own pods |
| Outcome.PassPutsInPlace | controllers/deviceconfig_controller.go:131-182 | after a pass without failures each child is at its name, controlled by the DeviceConfig and with the values asked for, and the status has the Ready reason and message |
| Outcome.DeletionClears | controllers/deviceconfig_controller.go:117-129 | after the requeue loop for a deleted DeviceConfig the object called like its Module is gone exactly when it carried no finalizers |
| Outcome.ChildrenComeInOrder | controllers/deviceconfig_controller.go:149-171 | in every reachable state, if no Delete met a held Module, who finds the Service finds the metrics DaemonSet, who finds that the labeler, and who finds that the Module, all owned by the live DeviceConfig |
| Children.SetterMeansConform | internal/node/metrics/metrics.go:213-295 | a setter fails exactly on a foreign controller, makes the object conform field by field, and changes nothing exactly when it conformed |
| Children.SetterIdempotentAndFramed | internal/node/metrics/metrics.go:213-295 | setting twice is setting once, managed fields do not depend on the object found, and all other fields survive |
| Children.ValidatedNodesAreDeployedNodes | internal/node/labeler/labeler.go:140-189 | every conforming child that has a selector carries the one the validator checked |
| Conditions.UpsertLaws | vendor/k8s.io/apimachinery/pkg/api/meta/conditions.go:30-55 | types stay unique, other entries keep place and content, and the time moves exactly on a flip |
| Conditions.UpdateLaws | internal/conditions/conditions.go:53-85 | after either setter the pair is stored as written and complementary, unrelated conditions are untouched, and each time moves exactly when its status flips |
| Conditions.UpdateShows | internal/conditions/conditions.go:24-85 | the types, statuses, reasons and messages a reader finds after either setter, value by value |
| Conditions.UpdateOutcome | internal/conditions/conditions.go:53-85 | the pair is well formed again, Ready exactly after the Ready setter, with the given reason after the other |
| Conditions.HistoryLaws | internal/conditions/conditions.go:53-85 | after any sequence of calls the last one decides the pair and unrelated conditions are untouched |
| Conditions.RepeatIsNoOp | internal/conditions/conditions.go:53-85 | the same call again changes nothing, not even a time |
| Finalizers.RemoveLaws | internal/finalizers/finalizers.go:50-56 | exactly the operator's finalizer goes |
| Finalizers.RemoveIsPointwise | vendor/sigs.k8s.io/controller-runtime/pkg/controller/controllerutil/controllerutil.go:366-377 | the others keep their order and their number |
| Finalizers.AddLaws | vendor/sigs.k8s.io/controller-runtime/pkg/controller/controllerutil/controllerutil.go:353-362 | nothing moves, and a new finalizer comes last, once |
| Finalizers.RemoveUndoesAdd | internal/finalizers/finalizers.go:42-60 | adding and removing restores the list as it was |
| Safety.FinalizerSafety | controllers/deviceconfig_controller.go:117-147 | in every reachable state a stored Module belongs to a stored DeviceConfig that owns it and carries the operator's finalizer, if nobody else takes that off and no Delete meets a Module that others hold on to |
| Safety.FinalizerOutlivesModule | controllers/deviceconfig_controller.go:117-129 | in those runs any event that takes the finalizer or the DeviceConfig away finds the Module gone |
| Stripping.StrippingLosesTheOwner | controllers/deviceconfig_controller.go:117-129 | there is a run from an initial state, undisturbed but for one event that strips the operator's finalizer from a DeviceConfig being deleted, that ends with a Module and no DeviceConfig |
| Stripping.StrippingBreaksExclusivity | controllers/deviceconfig_controller.go:117-129 | likewise one that ends with two Modules matching one node |
| Safety.ReleaseKeepsOwnersIff | controllers/deviceconfig_controller.go:120-127 | in a reachable state, when the Delete of a Module and then the removal of the finalizer are acknowledged, every Module still has its owner if and only if nobody else held on to this one |
| HeldModule.HeldModuleLosesTheOwner | internal/module/module.go:110-124 | for every finalizer that somebody else puts on a Module there is a run, with the DeviceConfig finalizers left alone, that ends with a Module and no DeviceConfig |
| HeldModule.HeldModuleBreaksExclusivity | internal/module/module.go:110-124 | likewise one that ends with two Modules matching one node |
| HeldModule.HeldModuleBreaksReady | internal/module/module.go:110-124 | likewise one without any edit that ends with a live DeviceConfig that says Ready, owns a DaemonSet and has no Module |
| HeldCommit.HeldModuleBreaksReadyCommit | internal/module/module.go:110-124 | likewise one that ends with a pass whose Ready write is stored while there is no Module |
| HeldCommit.HeldModuleBreaksErroredCommit | internal/module/module.go:110-124 | likewise one that ends with a pass that reports a failure of the stage after the Module while there is no Module |
| Safety.PinsReachable | controllers/deviceconfig_controller.go:117-129 | the invariant behind it: the finalizer a pass has seen keeps its DeviceConfig stored, and a pass takes it off only without a Module |
| PlainSelectors.FinalizerWriteKeepsClaimIff | internal/finalizers/finalizers.go:42-48 | after the write that adds the finalizer the stored specification is the one the pass goes on with, and claims the same nodes, exactly when its selector is not a present but empty one |
| PlainSelectors.SafeReachable | api/v1alpha1/deviceconfig_types.go:41-41 | if nobody writes an empty selector, or only together with the operator's finalizer which nobody else takes off, no write ever leaves a selector out, and every Ready commit is exact |
| LonePass.PassIsARun | controllers/deviceconfig_controller.go:102-183 | a pass on its own, with any replies, is a run of the interleaved system |
| Adoption.ReachableIsHealthy | vendor/sigs.k8s.io/controller-runtime/pkg/controller/controllerutil/controllerutil.go:59-94 | in every reachable state, without any assumption on the run, what is shown of passes applies to a live DeviceConfig if and only if no two DeviceConfigs share a node: nobody else ever controls an object it would adopt, and its conditions are in order |
| Adoption.OneOwnerEach | vendor/sigs.k8s.io/controller-runtime/pkg/controller/controllerutil/controllerutil.go:59-94 | in every reachable state, without any assumption on the run, there are no children but at the names of some DeviceConfig, and each has exactly one owner reference: a DeviceConfig of that name as controller |
| Tracking.TrackReachable | controllers/deviceconfig_controller.go:102-183 | in every reachable state, without any assumption on the run, a worker's snapshot is not ahead of the store, and with the stored version it is what is stored but for a dropped selector |
| Spared.UnheldRunsAreSpared | internal/module/module.go:110-124 | if nobody puts a finalizer on a Module, no Delete ever meets one that is held |
| Safety.Reachable | controllers/deviceconfig_controller.go:102-183 | the inductive invariant holds in every reachable state, whoever strips whichever finalizer from a DeviceConfig and puts whichever on a Module, if no Delete meets a Module that others hold on to |
| Status.StoredConditionsComplementary | internal/conditions/conditions.go:53-85 | in every reachable state, without any assumption on the run, the stored pair is both absent or complementary |
| Status.StoredConditionsAreScripted | internal/conditions/conditions.go:24-85 | in every reachable state, without any assumption on the run, a DeviceConfig has no conditions, or Ready and then Errored with the reasons of a complete pass or of one of the three failures; no other reason is ever stored |
| Status.ReadyCommitIsSound | controllers/deviceconfig_controller.go:143-182 | when Ready=True is stored, even if users edit or strip finalizers concurrently and even if the acknowledgement is lost, all four children are what the specification held by the pass asks for; that is what the specification stored at that instant asks for exactly when the two are equal, and they differ at most by a dropped empty selector; no Delete may have met a held Module |
| Status.ErroredCommitIsSound | controllers/deviceconfig_controller.go:149-171 | under the same condition, when an error is stored for a stage, the reason is ModuleFailed, NodeLabelerFailed or NodeMetricsFailed as the stage calls for, and every earlier stage is what the specification held by the pass asks for, which differs from the stored one at most by a dropped empty selector |
| Outcome.ReasonTells | controllers/deviceconfig_controller.go:149-171 | under the same condition, when a failure is stored its reason tells the part that failed and what is in place: the Module for NodeLabelerFailed, the Module and the labeler for NodeMetricsFailed |
| Status.ReadyStaysTrue | controllers/deviceconfig_controller.go:149-182 | under the same condition, a live DeviceConfig that says Ready, from a commit that was exact, and was not edited since has all four children as asked for, in every reachable state |
| Status.ReadyStaysTruePlainly | controllers/deviceconfig_controller.go:149-182 | if nobody writes an empty selector, Ready and unedited alone are enough |
| Outcome.ReadyTells | controllers/deviceconfig_controller.go:149-182 | the same as a reader finds it: the first condition True, the generation unchanged since, and each child at its name with the values asked for |
| Status.OwnedChildrenArePrefix | controllers/deviceconfig_controller.go:149-171 | under the same condition, the children a live DeviceConfig owns by uid are a prefix of the pipeline at every step and failure point, also when finalizers are stripped |
| Exclusivity.NodeExclusivity | docs/design.md:62-67 | if the operator's finalizer is left alone and no Delete meets a Module that others hold on to, selectors are not edited and are not empty unless they come with the operator's finalizer, and nodes only leave, no node is matched by the selectors of two stored Modules in any reachable state |
| Exclusivity.ExclusiveReachable | controllers/deviceconfig_controller.go:131-155 | the invariant behind it: of two validators in flight one sees the other, and each sees every deployed DeviceConfig or is disjoint from it |
| Exclusivity.CoversOneMore | controllers/nodeselector.go:48-58 | one more node list, fetched later and after nodes left, covers one more DeviceConfig |
| EmptySelector.EmptySelectorBreaksExclusivity | docs/design.md:62-67 | allowing creations with one more specification and list of finalizers keeps every run exclusive if and only if the selector is not a present but empty one or the operator's finalizer is on the list |
| Exclusivity.JoiningNodeConflictsIffCompatible | docs/design.md:62-67 | in a reachable state every node that could join or be relabelled keeps exclusivity if and only if the selectors of any two stored Modules disagree on some label |
| Editing.EditingBreaksExclusivity | docs/design.md:62-67 | there is a run, undisturbed but for one edit of a selector, that ends with two Modules matching one node |
| Convergence.RefusedIff | controllers/deviceconfig_controller.go:131-141 | a live DeviceConfig is refused exactly when it can be read and one of the validator's own list calls fails or two stored DeviceConfigs share a node; the pass then ends without an error |
| Convergence.PassAlone | controllers/deviceconfig_controller.go:131-182 | a pass under any replies changes only what is its own, towards what the specification it found asks for, and ends short of Ready only if a call failed; then the stored specification has what it asks for exactly when the finalizer write left nothing out |
| Dropping.RunIgnoresSpec | controllers/deviceconfig_controller.go:149-182 | from the pipeline on a pass goes by the specification it holds: with any other one stored it makes the same calls, ends with the same verdict and leaves the same world, that specification excepted |
| Convergence.RetriesConverge | controllers/deviceconfig_controller.go:102-183 | with at most k failed calls, lost acknowledgements included, the requeue loop ends within k+1 passes, with all children applied and Ready stored if no list call of the validator failed; with an empty selector and no finalizer to begin with, what is settled is the stored specification or the one found |
| Convergence.OneMorePassSettles | controllers/deviceconfig_controller.go:131-182 | once the finalizer is stored or the selector is not empty, a pass without failures settles the stored specification |
| Convergence.DeletionTerminates | internal/module/module.go:110-124 | with at most k failed calls at most k+1 passes delete the Module, which stays marked if it carries finalizers, and take the finalizer off, leaving other finalizers as they were |
| Convergence.DeletionRemovesDeviceConfig | controllers/deviceconfig_controller.go:117-129 | if the operator's finalizer is the only one the DeviceConfig is gone too, and the Module is gone with it exactly when it carried no finalizers |
| Convergence.AcknowledgedDeleteIff | internal/module/module.go:118-121 | after an acknowledged Delete the pass goes on to its finalizer, and the Module is absent exactly when it carried no finalizers |
| Confluence.PassReachesTargets | controllers/deviceconfig_controller.go:131-182 | a pass without failures turns every child into its target and reports Ready, and settles the stored specification exactly when the finalizer write left nothing out |
| Confluence.AllReachTargets | controllers/deviceconfig_controller.go:131-182 | passes over many keys, in which only keys that come up once may have a selector left out, reach every target, computed from the cluster before any of them ran |
| Confluence.OrderDoesNotMatter | controllers/deviceconfig_controller.go:131-182 | two orders over the same keys end in the same child store |
| Confluence.OutcomeIsUnion | controllers/deviceconfig_controller.go:131-182 | every child of every key is its target, everything else is untouched, the validator still finds no conflict, and exactly the DeviceConfigs whose selector was not left out are settled |
| Confluence.RepeatingIsHarmlessIff | controllers/deviceconfig_controller.go:131-182 | a key reconciled twice ends with the same children as once exactly when the finalizer write of the first pass leaves nothing out |
| Confluence.SecondPassWritesNothing | controllers/deviceconfig_controller.go:131-182 | after a successful pass another one leaves the whole world as it is, versions, times and gauge included, exactly when the first left nothing out of the specification; a third never changes anything |
| Gauge.GaugeRun | controllers/deviceconfig_controller.go:106-173 | from any point of a pass on, the gauge it ends with is decided by its verdict alone |
| Gauge.PassGauge | controllers/deviceconfig_controller.go:106-173 | the gauge after a pass is decided by its verdict alone, and is untouched by a failed read or a failed finalizer write |
| Gauge.GaugeReads | controllers/deviceconfig_controller.go:106-173 | the gauge of the name reads 1 after a refusal or a failed part, 0 after a deletion, a missing DeviceConfig or a complete application, and what it read before if the DeviceConfig could not be read or pinned |
| Gauge.StepWrites | controllers/deviceconfig_controller.go:106-173 | each call writes the gauge of its own name or leaves it alone as its place in the pass says, and the writes of a pass add up to the one its verdict calls for |
| Gauge.GaugeIsLastOutcome | internal/metrics/metrics.go:21-34 | after any run of passes, with any events and restarts in between, the gauge of a name is what the last writing pass over that name since the last restart says, whatever its namespace |
| Gauge.GaugeIsLastWrite | internal/metrics/metrics.go:21-34 | in every reachable state the gauge of a name is its last recorded write since the last restart, however passes over that name overlap |
| Gauge.PassWritesItsOutcome | controllers/deviceconfig_controller.go:106-173 | in every run a pass that ends had begun, and has made exactly the write its verdict calls for, or none |
| NonInterference.RunTouchesOnlyOwn | controllers/deviceconfig_controller.go:102-183 | a pass changes nothing but its own DeviceConfig, the children named after its key and the gauge of its name |
| NonInterference.PassLeavesOthersAlone | internal/node/metrics/metrics.go:78-80 | the DeviceConfig and the four children of any other key are exactly as before |

## Left out

- Exclusivity.NodeExclusivity: does not cover empty selectors that come without the operator's finalizer, for which it fails (`EmptySelectorBreaksExclusivity` is the exact condition), Deletes that meet a held Module (`HeldModuleBreaksExclusivity`), stripped finalizers (`StrippingBreaksExclusivity`), edited selectors (`EditingBreaksExclusivity`), or joining and relabelled nodes; `JoiningNodeConflictsIffCompatible` says when a joining node breaks it.
- Safety.FinalizerSafety: assumes that nobody but the operator removes the operator's finalizer (`StrippingLosesTheOwner` shows why), and that no Delete meets a Module that others hold on to (`HeldModuleLosesTheOwner` shows why; `ReleaseKeepsOwnersIff` is the exact condition).
- Status.ReadyStaysTrue: assumes that no Delete meets a Module that others hold on to, as the other results about what a status says do. A Module that is going may be adopted and disappear at any later moment: after the pass (`HeldModuleBreaksReady`, also for `OwnedChildrenArePrefix`), before Ready is written (`HeldModuleBreaksReadyCommit`) or before an error further on is (`HeldModuleBreaksErroredCommit`).
- Convergence.RetriesConverge: starts from a live DeviceConfig in a cluster without conflicts, which in a reachable state is all it asks (`ReachableIsHealthy`), and lets no other actor move between the passes.
- Confluence.OrderDoesNotMatter: a DeviceConfig with an empty selector and no finalizer may come up once only; `RepeatingIsHarmlessIff` shows that this is exact for a single key.
- Objects.ControllerIsSet: does not promise a single controller, which the library does not for every list (`TwoControllers`; `OnlyControllerIff` is the exact condition). In reachable states it comes to that (`OneOwnerEach`).
- Reads are of the current store. Delayed caches are not modelled.
- The children are written by the operator and deleted by the operator and the garbage collector only. Others may put finalizers on Modules and take them off; DaemonSets and Services carry none.
- Server-side defaulting, scheduling of pods, and what the KMM operator does with a Module.
- Ports, volumes, resource quantities, commands, probes and security contexts that are constants of a child: those that are the same in every object are not fields of the model.
- The texts of errors and events. An error's text in a condition is one fixed string per kind of error.
- Two condition updates of one setter share one reading of the clock.
- ReconcileModule, ReconcileNodeLabelerDaemonSet, ReconcileNodeMetricsDaemonSet and ReconcileNodeMetricsService have the same text; `Reconciler.ReconcileChild` takes the stage as a parameter instead.
- An owner is recognised by kind and name, as the library does, so that a DeviceConfig created again under the same name adopts what its predecessor left; only `Status.OwnedChildrenArePrefix` and `Safety.FinalizerSafety` compare uids.
- A Go slice shared by two variables is a value here; the fresh copy of the selector map is a loop in the DaemonSet setters.
- Manager set-up, flags, leader election, probes, logging, loading of settings, generated mocks and deep copies, templates and manifests.
- DeleteNodeLabeler and DeleteNodeMetrics, which the controller never calls; garbage collection takes their place.
