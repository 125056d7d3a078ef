# Verified model of the TMC syncer and its controllers

The repository is a set of Kubernetes controllers. A *syncer* runs for each
*sync target* (a physical cluster). Its spec controller copies upstream objects
into the cluster; its status controller carries their status back; a finalizer
on the upstream object says that the syncer owns it for as long as a copy may
exist. Around it are the controller that negotiates one API schema from many
imports and publishes it as a CRD, the merge-patch committer, the delayed
cleaner of downstream namespaces, the source of watched resources with its
notifications, and the manager that starts and stops controllers.

The model keeps the branches, error cases and constants of the code. Each
controller body is a step over explicit state, and the theorems are about every
run of such steps, in any interleaving. Code that changes fields in place is a
class whose methods are proved against those steps.

## Files

| file | content |
|---|---|
| `Wrappers.dfy`, `Json.dfy`, `Iteration.dfy` | option type; JSON and merge patches (section 2 of RFC 7396); repeating a step until it rests |
| `Kube.dfy`, `Naming.dfy`, `Locators.dfy`, `Finalizers.dfy` | stored objects, names up and down, namespace locators and their index, claiming and releasing an object |
| `Syncer.dfy`, `SyncerControllers.dfy` | the spec step, the status step and the downstream delete handler; the two controllers as classes with methods that refine them |
| `CopyContents.dfy`, `StepEffects.dfy` | what a copy carries and what status goes back; the two steps said in one piece, on the fields that they read and write |
| `Ownership.dfy`, `OwnershipLimits.dfy`, `StaleReads.dfy` | safety over all runs; exactly when a step, and a run, with reads of any age is safe |
| `ForeignObjects.dfy` | which objects that nobody synced a spec step destroys |
| `Convergence.dfy`, `TerminatingDeletes.dfy`, `HeldObjects.dfy`, `SkipUpdate.dfy` | where the protocol comes to rest; deletes that take their time; objects that an external owner holds; updates that are ignored |
| `Conditions.dfy`, `Negotiation.dfy`, `NegotiationSteps.dfy`, `NegotiationOrder.dfy` | condition lists, the schema fold, what each strategy makes of it, its independence of order |
| `CrdVersions.dfy`, `HandMadeCrds.dfy` | CRD versions and their owners; CRDs made by hand, and what publishing and cleaning up leave alone |
| `Committer.dfy`, `Base62.dfy` | merge-patch generation; sync target keys |
| `NamespaceCleaner.dfy`, `CleaningDelays.dfy`, `CleaningPlans.dfy` | the timed cleaning machine; how long it waits and which plans it serves; what spec steps mean for it |
| `NamespaceController.dfy`, `NamespaceWorker.dfy` | the controller around the machine and the DNS table; runs of its worker next to everybody else |
| `GvrSource.dfy`, `Notifications.dfy`, `ControllerManager.dfy` | watched resources, wake-ups, managed controllers |

## Assumptions

- *Upstream objects* (`Ownership.Conforms`): their names are not names that
  other objects' copies are read back to (the configmap `kcp-root-ca.crt`,
  secrets starting `kcp-default-token`), and whether a secret named like a
  default token belongs to the default account does not change.
  `Ownership.AddressRoundTrip` and `OwnershipLimits.RenamingEditStrandsCopy`
  show what happens otherwise.
- *Other actors* may create, edit and delete objects and namespaces in any order
  (`Ownership.Possible`), with these limits (`Ownership.WithinLimits`). They do not
  take away syncer finalizers. A namespace that they create or edit downstream
  carries a locator of this sync target only if it is the one labelled namespace of
  that locator, and a namespace of this sync target keeps its locator and its label
  for as long as it exists. They leave on a copy the label that the syncer's
  informers select on (pkg/syncer/syncer.go:195-197); an object of their own may
  carry that label if it is named as a copy would be.
  `OwnershipLimits.UnlabellingEditStrandsCopy` shows what happens otherwise.
- *Fresh reads and atomic steps* in `Ownership` and `Convergence`. For reads of
  any age, `OwnershipLimits` gives the exact condition under which one step
  keeps ownership, and `StaleReads` the same for whole runs, in which other actors
  have no limits at all. An update from an old read is refused.
- *A turn of the namespace worker* (`NamespaceWorker`) is one step, while the code
  reads the lister first and plans or cancels later.
- *Downstream deletes*: for safety, a delete may remove the object or leave it
  terminating (`SpecTerminating`). For coming to rest (`Convergence`,
  `HeldObjects`) it removes the object before the next step; for an object that is
  to go, `TerminatingDeletes` lets the delete take any time.
- *Code outside the model* enters as functions: the JSON encoding of locators
  (decoding recovers what was encoded), the hashes behind namespace names and
  tenant labels (nothing is assumed, so they may collide), mutators, JSON patches
  of the spec, the schema comparison (`Negotiation.Lawful`: a partial meet) and
  the comparison of version names (`CrdVersions.Lawful`: a total preorder).
- *Mutators* (`Convergence.Transparent`, `SkipUpdate.MutatesAlike`): they look
  neither at a status nor at the finalizer of their syncer to decide whether they
  fail, and treat objects alike that are not told apart.
- *Nothing in the way* (`Convergence.Ready`): the state is one that a run leads to
  (`Ownership.Consistent`; so every copy carries the syncer's label), the DNS server
  is ready, the object can be transformed, and its downstream namespace is not one
  of another locator.
- What the syncer sees upstream is filtered by the state label
  (tmc/virtual/syncer/builder/template.go:213-215).

## Where the code and its comments differ

The model follows the code.

- `SyncerFinalizerNamePrefix` is said to be removed only when the downstream
  object is deleted (pkg/syncer/shared/finalizer.go:35-36). The release looks at
  the deletion annotation alone and at one downstream name. So it also happens to
  an object that an external owner still holds, exactly when a status step comes by
  its key while no copy is listed (`HeldObjects.HeldObjectIsKeptIff`,
  `HeldObjects.HeldObjectIsKeptAlongIff`; `HeldObjects.HeldObjectIsGivenUp` is such
  a state), and while the copy is still there: after an annotation edit that renames
  it (`OwnershipLimits.RenamingEditStrandsCopy`), and after an edit that takes the
  syncer's label off it (`OwnershipLimits.UnlabellingEditStrandsCopy`).
- An object that is gone upstream is deleted downstream under its upstream name,
  which is not the name of a renamed copy (`Convergence.UnseenCopyRemovedIff`) and
  may be the name of something that nobody synced
  (`ForeignObjects.ForeignDestroyedIff`): the root certificate of the downstream
  cluster goes and the copy stays (`ForeignObjects.UnseenRootCertificate`). This path
  alone does not check the locator of the namespace
  (`ForeignObjects.ForeignNamespaceIsSafeIff`).
- `SchemaUpdateStrategy` is said to default to `UpdateUnpublished`
  (apis/apiresource/v1alpha1/apiresourceimport_types.go:100), but an empty
  strategy never updates (`Negotiation.UnknownStrategyNeverUpdates`).
- `overrideStrategy` is passed by every caller and never read
  (pkg/reconciler/apiresource/negotiation.go:361).
- Nothing promotes another version when a cleanup takes the storage version away
  (`CrdVersions.CleanupStorageIff`; `CrdVersions.CleanupLeavesNoStorage` is such a
  run). A cleanup that comes late removes the version
  of the resource that replaced the deleted one, exactly when the deleted one is
  still among the owners (`CrdVersions.VersionSurvivesIff`,
  `CrdVersions.VersionSurvivesRunIff`; `CrdVersions.LateCleanupRemovesNewVersion`
  is such a run).
- The delayed worker looks for a key in the map but not at its planned time. So the
  delay counts from the last plan exactly when no earlier plan is still under way
  (`CleaningDelays.DelayFromLastPlanIff`; `CleaningDelays.DelayIsNotFromLastPlan` is
  a run where one is), and a cancellation after the check comes too late
  (`NamespaceCleaner.CancelComesTooLate`).
- A namespace that is not empty is said to stay a candidate for later cleaning
  (pkg/syncer/namespace/namespace_downstream_controller.go:323-326). It stays in
  the map, but a plan that follows before the planned time is ignored and nothing
  looks at the namespace again. `CleaningDelays.PlanIsServedIff` says exactly which
  plans are followed by a look; `CleaningDelays.PlanCanBeLost` is a run in which one
  is not.
- The DNS table is said to hold the namespaces of one workspace; it does not look
  at the sync target of a locator (`NamespaceController.TableIsDeterminedIff`), so
  two sync targets that share a cluster share its entries
  (`NamespaceController.TwoTargetsShareAnEntry`).

## Model

| member | source | states |
|---|---|---|
| Ownership.CopiesAreOwned | pkg/syncer/spec/spec_process.go:229-236 | In every state of every run of spec and status steps of any number of sync targets, outside edits, deletion requests and downstream deletions: whenever a target has a copy, the upstream object exists and carries that target's finalizer. |
| Ownership.NamespacesAreNotMixed | pkg/syncer/spec/spec_process.go:303-314 | Over every run, also when namespace hashes collide: copies share a downstream namespace if and only if they come from the same upstream namespace, the one its locator names; and no object has two copies on one target. |
| Ownership.CopiesLeadBack | pkg/syncer/status/status_process.go:63-163 | In every state of every run, the downstream delete handler gets from each copy back to exactly the cluster, namespace and name it was made from, unless the copy is in Upsync mode, and so does the status controller if and only if the namespace does not start with the prefix of a syncer's own. |
| Ownership.AddressRoundTrip | pkg/syncer/spec/spec_process.go:119-152 | For any object, the namespace and name chosen by the spec step lead the delete handler back to it if and only if its name is not reserved and the deleted object was not in Upsync mode, and the status step if and only if, besides, the namespace does not start with the prefix of a syncer's own. |
| Ownership.AddressesInjective | pkg/syncer/spec/spec_process.go:557-571 | Two objects with names that are not reserved are never sent to the same downstream key. |
| Ownership.SpecKeeps | pkg/syncer/spec/spec_process.go:108-237 | A spec step from any state keeps the whole invariant: owned, addressed and separated copies, one watched namespace per locator. |
| Ownership.StatusKeeps | pkg/syncer/status/status_process.go:53-177 | The same for a status step, whose release, made when no labelled object is listed at its key, is safe since that key is the only place of a copy and copies keep their label. |
| Ownership.SpecTerminatingKeeps | pkg/syncer/spec/spec_process.go:425-447 | The same for a spec step whose delete leaves the downstream object terminating. |
| Ownership.EditNamespaceKeeps | pkg/syncer/shared/namespace.go:75-92 | Rewriting the annotation or labels of a downstream namespace, in either locator format, keeps the invariant as long as a namespace of this sync target keeps its locator. |
| Ownership.StepKeeps | pkg/syncer/shared/finalizer.go:34-101 | Every step of the controllers, and every step of others within the limits listed above, keeps the invariant. |
| Ownership.EnsureNamespaceKeeps | pkg/syncer/spec/spec_process.go:242-326 | Creating or checking the namespace leaves it with the desired locator and keeps every other locator. |
| CleaningPlans.PlannedIffRemoved | pkg/syncer/spec/spec_process.go:242-246 | After a spec step on an object it sees, the namespace is planned for cleaning if and only if the step removed an object from it, whatever was planned before; after a step on an object it does not see it always is; other namespaces are left alone. |
| OwnershipLimits.SpecStepOwnedIff | pkg/syncer/spec/spec_process.go:358-448 | Whatever a spec step read, it keeps ownership if and only if, in case it applies, the stored object has the finalizer and, in case it gives up the finalizer, no copy is left under any name. |
| OwnershipLimits.StatusStepOwnedIff | pkg/syncer/status/status_process.go:161-164 | Whatever a status step read, it keeps ownership if and only if, in case nothing is listed at its key and the release is accepted, no copy of the object is left, with the label or without. |
| OwnershipLimits.ReleaseOwnedIff | pkg/syncer/shared/finalizer.go:57-93 | An accepted release keeps ownership if and only if the target has no copy of the object. |
| StaleReads.StaleRunIsOwnedIff | pkg/syncer/shared/finalizer.go:42-99 | Over every run in which the controllers act on reads of any age, deletes may take their time and others may do anything at all, every copy is owned in every state if and only if each controller step met its condition on what it had read and no edit took away a finalizer that a copy needs. |
| OwnershipLimits.UnlabellingEditStrandsCopy | pkg/syncer/status/status_process.go:161-164 | A concrete state in which taking the syncer's label off a copy makes the next status step release an object whose copy still exists. |
| ForeignObjects.ForeignDestroyedIff | pkg/syncer/spec/spec_process.go:165-183 | Whatever a spec step read: an object that nobody synced is deleted if and only if it sits under the upstream name of an object the step does not see, or where the copy of an object that is to go belongs; it is overwritten if and only if it sits where a copy is applied; and nothing else ever happens to it. |
| ForeignObjects.ForeignNamespaceIsSafeIff | pkg/syncer/spec/spec_process.go:165-183 | In a namespace with another locator or none, an object that nobody synced is left alone unless the step does not see the upstream object, finds no namespace for it, and the hashed name is the name of this one. |
| ForeignObjects.UnseenRootCertificate | pkg/syncer/spec/spec_process.go:165-179 | A concrete state in which the spec step deletes the downstream cluster's own root certificate and leaves the renamed copy, now and at every later step. |
| OwnershipLimits.RenamingEditStrandsCopy | pkg/syncer/spec/spec_process.go:404-439 | A concrete state in which editing the service account annotation makes the next spec step release an object whose copy still exists. |
| Convergence.StayingObjectIsSynced | pkg/syncer/spec/spec_process.go:376-393 | Left alone from any state with nothing in the way, an object that is to stay ends, after eight rounds at most, with finalizer, a copy in its namespace that carries every label, annotation, field of metadata and top-level field it should, and the status of the copy in the status field or annotation upstream. |
| Convergence.LeavingObjectIsGone | pkg/syncer/spec/spec_process.go:423-448 | An object that is to go ends, after eight rounds at most, without a copy, with finalizer, state label and deletion annotation gone; copies keep their label, and downstream deletes are complete by the next step (`TerminatingDeletes` drops the latter). |
| Convergence.GoneIsForever | pkg/syncer/shared/finalizer.go:57-87 | In every interleaving of the two controllers, what is gone at some point is never recreated. |
| TerminatingDeletes.LeavingIsGoneIff | pkg/syncer/spec/spec_process.go:423-448 | In every course of steps, and of downstream deletes that begin and end at any time, an object that is to go is gone exactly from the first spec step that finds the place of its copy empty, or status step that comes by its key and finds nothing listed there. |
| TerminatingDeletes.VanishedIsGone | pkg/syncer/spec/spec_process.go:425-447 | However long the delete takes: the first spec step after the copy is gone takes the object from the target, and it stays gone. |
| Convergence.FewStepsChangeAnything | pkg/syncer/spec/spec_process.go:229-236 | In every interleaving of spec and status steps at most eight steps change anything. |
| Convergence.RestIsTheGoal | pkg/syncer/shared/finalizer.go:56-93 | Wherever an interleaving comes to rest, an object that was to stay is synced and one that was to go is gone. |
| Convergence.SpecDecreases | pkg/syncer/spec/spec_process.go:229-236 | A spec step changes nothing or strictly decreases a measure of the work left. |
| Convergence.StatusDecreases | pkg/syncer/status/status_process.go:179-257 | The same for a status step. |
| Convergence.RoundsSettle | pkg/syncer/spec/spec_process.go:108-237 | After eight rounds neither controller changes anything any more. |
| CopyContents.SentCarries | pkg/syncer/spec/spec_process.go:450-554 | An object is sent unless the mutator fails, or a spec diff applies and gives neither an object nor null. The copy then has all labels, annotations, metadata and top-level fields of the mutated object, except the state label, the cluster and status annotations, five metadata fields, finalizers, deletion mark and status; it has its syncer's label; and a spec diff decides its spec. |
| CopyContents.CarriedIsDetermined | pkg/syncer/spec/spec_process.go:534-545 | What a copy carries leaves nothing open: two copies of one object are equal. |
| CopyContents.WrittenStatusIsUpstream | pkg/syncer/status/status_process.go:200-241 | A written status is afterwards in the annotation of its target, as JSON text, or in the status field; nothing else changes; and a write changes nothing if and only if the status was there. |
| StepEffects.SpecStepLeaves | pkg/syncer/spec/spec_process.go:182-237 | A spec step that reads an object goes exactly one of eight ways, decided on the fields that were read, and leaves exactly what that way says: both stores key by key, namespace by namespace, the outcome and the cleaner calls. |
| StepEffects.SomeWayIsGone | pkg/syncer/spec/spec_process.go:182-237 | There is a way for whatever a spec step reads, so the eight ways cover all of it. |
| StepEffects.OtherSpecSteps | pkg/syncer/spec/spec_process.go:127-179 | A step that reads no object empties the place under the upstream name and plans the cleaning; one that finds several namespaces fails and does nothing. |
| StepEffects.NamespaceIsFound | pkg/syncer/spec/spec_process.go:119-152 | The namespace of a step is the one listed namespace that carries the locator, or the hashed name if there is none. |
| StepEffects.StatusStepLeaves | pkg/syncer/status/status_process.go:53-177 | A status step does nothing unless the namespace is listed, carries a locator of this sync target and is not a syncer's own; then it gives the object up if nothing is listed at its key, and stores the status otherwise, unless there is none or the object is in Upsync mode. |
| StepEffects.DeleteIsReported | pkg/syncer/spec/spec_controller.go:275-350 | The delete handler plans the cleaning of every listed namespace and queues the upstream object that its locator names, whichever sync target it is of, unless the deleted object was in Upsync mode. |
| StepEffects.ServedIff | tmc/virtual/syncer/builder/template.go:213-215 | A syncer is served exactly the objects whose state label for its target is Sync. |
| Convergence.UnseenCopyRemovedIff | pkg/syncer/spec/spec_process.go:165-179 | The copy of an object that is gone upstream is deleted if and only if the copy was not renamed. |
| HeldObjects.HeldObjectIsKeptIff | pkg/syncer/shared/finalizer.go:57-60 | A status step leaves an object that is to go but is held with its finalizer if and only if it does not come by a key at which no copy is listed. |
| HeldObjects.HeldObjectIsGivenUp | pkg/syncer/status/status_process.go:161-164 | A concrete held object whose copy was deleted downstream and which the next status step takes from the target. |
| HeldObjects.HeldObjectIsKeptAlongIff | pkg/syncer/status/status_process.go:161-164 | In every interleaving of the two controllers a held object stays held and owned if and only if no status step comes by its key while no copy is listed there; otherwise it is gone. |
| HeldObjects.HeldBySpec | pkg/syncer/spec/spec_process.go:376-448 | A spec step never changes a held object. |
| HeldObjects.HeldObjectIsRestoredBySpec | pkg/syncer/spec/spec_process.go:409-423 | A spec step puts the copy of a held object where an apply puts it. |
| SkipUpdate.AlikeIsEquivalence | pkg/syncer/spec/spec_process.go:54-106 | The comparison apart from status is reflexive, symmetric and transitive. |
| SkipUpdate.DeepEqualApartFromStatus | pkg/syncer/spec/spec_process.go:54-106 | The comparison as it runs, over copies of the maps and the union of the keys, decides that relation. |
| SkipUpdate.ToldApartIff | pkg/syncer/spec/spec_process.go:77-105 | Two versions are told apart if and only if a label, a finalizer, the deletion mark, an annotation other than a status, or a top-level field other than the status differs, a missing field being null. |
| SkipUpdate.SkippedUpdateMakesTheSameCopy | pkg/syncer/spec/spec_process.go:77-105 | Where the mutator leaves objects alone, two versions that are not told apart make copies that are not told apart. |
| SkipUpdate.WithoutStatusAnnotations | pkg/syncer/spec/spec_process.go:62-66 | The loop deletes exactly the status annotations of all targets. |
| SkipUpdate.StatusIsNotCompared | pkg/syncer/status/status_process.go:204-239 | What a status controller writes upstream is never told apart, so the spec controller ignores it. |
| SkipUpdate.SkippedUpdateIsHarmless | pkg/syncer/spec/spec_process.go:358-554 | Spec steps from two states that differ in what is not compared take the same branch, end alike, make the same cleaner calls, and leave states that again differ in such things alone. |
| SkipUpdate.DownstreamAlikeIff | pkg/syncer/spec/spec_process.go:501-531 | For all mutators and patches, two versions not told apart give downstream objects that are not told apart if and only if a spec diff applies to both or to neither (a null spec is compared like a missing one). |
| SyncerControllers.Controllers.Process | pkg/syncer/spec/spec_process.go:108-237 | The spec controller as it runs leaves exactly the state, outcome and cleaner calls of the spec step, on every path. |
| SyncerControllers.Controllers.EnsureDownstreamNamespaceExists | pkg/syncer/spec/spec_process.go:242-326 | Cancels the cleaning, then creates the namespace, repairs its tenant label, or fails on any other locator without a change. |
| SyncerControllers.Controllers.EnsureSyncerFinalizer | pkg/syncer/spec/spec_process.go:358-396 | Appends the finalizer exactly when it is missing and the object is not to go, from the object as it was read. |
| SyncerControllers.Controllers.ApplyToDownstream | pkg/syncer/spec/spec_process.go:398-554 | Deletes and plans cleaning, or releases when there was nothing to delete, or applies the transformed object. |
| SyncerControllers.Controllers.TransformForDownstream | pkg/syncer/spec/spec_process.go:450-532 | The field-by-field edits give an object that carries the mutated one, or fail where a mutator, a patch or its result does. |
| SyncerControllers.Controllers.EnsureUpstreamFinalizerRemoved | pkg/syncer/shared/finalizer.go:40-101 | The loop over finalizers and the deletions from the maps give the release of the protocol, and a conflict is a failure. |
| SyncerControllers.Controllers.ProcessStatus | pkg/syncer/status/status_process.go:53-177 | The status controller as it runs leaves exactly the state and outcome of the status step, which looks for the copy in the list that is filtered by the syncer's label. |
| SyncerControllers.Controllers.UpdateStatusInUpstream | pkg/syncer/status/status_process.go:179-257 | After it the status of the copy is in the annotation or in the status field of the object as it was read, and nothing else of it has changed; an annotation that is there already is not written again. |
| Finalizers.ClaimIsLocal | pkg/syncer/spec/spec_process.go:361-382 | A claim puts one finalizer at the end and leaves everything any other target decides on. |
| Finalizers.ReleaseIsLocal | pkg/syncer/shared/finalizer.go:64-87 | A release removes finalizer, state label and deletion annotation of its target together, keeps all other finalizers in order, leaves what other targets decide on, and commutes with the release of another target. |
| Finalizers.ReleaseUndoesClaim | pkg/syncer/shared/finalizer.go:64-72 | Claiming and then releasing leaves what releasing alone leaves. |
| Finalizers.WithoutCommutes | pkg/syncer/shared/finalizer.go:64-72 | Removing the finalizers of two targets gives the same list in either order. |
| Naming.NameRoundTrip | pkg/syncer/shared/helpers.go:53-64 | The reverse mapping undoes the transformation if and only if the name is not reserved, whatever account a secret belongs to. |
| Naming.NamesInjective | pkg/syncer/spec/spec_process.go:557-571 | Downstream names tell apart all names that are not reserved. |
| Naming.NamesChangeIff | pkg/syncer/spec/spec_process.go:557-571 | Exactly `kube-root-ca.crt` and the default tokens of the default account are renamed on the way down, to the names given here, and exactly what is named like them is renamed on the way up. |
| Locators.IndexIsScan | pkg/syncer/indexers/indexes.go:33-49 | Looking up an encoded locator finds exactly the namespaces a scan finds, in either annotation format; a locator in the old form is never found. |
| Locators.FormatsAgree | pkg/syncer/shared/namespace.go:51-73 | Annotations of both formats decode to the locator that the spec step asks for. |
| Locators.NormaliseIdempotent | pkg/syncer/shared/namespace.go:85-91 | Normalising twice is normalising once, and changes exactly the locators that have a deprecated path; the path becomes the cluster name where that is missing and is dropped elsewhere. |
| Committer.CommitYieldsIntended | pkg/reconciler/committer/committer.go:104-168 | Applying the generated patch to the stored old object gives the new object on the changed half, and leaves the other half, uid, resource version and all other members, if and only if a merge patch can express the change (null members). |
| Committer.PatchIsConditional | pkg/reconciler/committer/committer.go:136-149 | Every patch names uid and resource version of the old object if and only if they are not empty, so a stored object accepts it if and only if it has the same. |
| Committer.DiffThenMerge | pkg/reconciler/committer/committer.go:156-159 | For all JSON objects, merging the difference into the old one gives the new one if and only if the change is expressible. |
| Committer.EmptyDiffMeansEqual | pkg/reconciler/committer/committer.go:116-118 | A difference is empty if and only if the objects are equal. |
| Committer.Storage.Commit | pkg/reconciler/committer/committer.go:86-102 | A commit sends nothing when nothing changed, refuses a change of metadata or spec together with the status, sends a patch if and only if exactly one of these sides changed, and patches the stored document if and only if it has the uid and resource version that were read, as far as these are not empty; a document that is still the one read becomes the intended one if and only if the change can be expressed. |
| Json.MergeIntoNothing | pkg/reconciler/committer/committer.go:156-159 | Merging into something that is not an object reproduces the patch if and only if it has no null members. |
| Base62.KeyIsShortAndUnique | apis/workload/v1alpha1/helpers.go:28-38 | The key of any 28-byte hash has 1 to 38 letters and digits, and two hashes have the same key if and only if they are equal. |
| Base62.TextRoundTrip | apis/workload/v1alpha1/helpers.go:34-38 | Reading base-62 text gives back the number it was written from. |
| Base62.DigitsInOrder | apis/workload/v1alpha1/helpers.go:34-38 | Digits come before small letters and these before capitals, most significant first. |
| Base62.FromBytesInOrder | apis/workload/v1alpha1/helpers.go:34-38 | The bytes of a hash are read from the most significant one on. |
| Negotiation.MarksAreHonest | pkg/reconciler/apiresource/negotiation.go:474-600 | Over every run without a CRD made by hand: an import that is marked compatible and was not written since it was examined accepts every document the negotiated schema accepts, although that schema kept narrowing or was computed anew. |
| Negotiation.StepKeepsHonest | pkg/reconciler/apiresource/negotiation.go:103-135 | Every step of the controller and of others keeps all marks honest. |
| Negotiation.ProcessingOnlyNarrows | pkg/reconciler/apiresource/negotiation.go:505-553 | Processing one import never widens the schema, changes nothing else of the resource, and changes nothing at all if the import may not update it. |
| Negotiation.UnknownStrategyNeverUpdates | apis/apiresource/v1alpha1/apiresourceimport_types.go:83-93 | An import with an empty or unknown strategy never changes an existing negotiated resource, and is marked if and only if it accepts all that the resource accepts. |
| Negotiation.ManualSchemaIsFixed | pkg/reconciler/apiresource/negotiation.go:426-470 | With a CRD made by hand, each examined import is marked if and only if it accepts what the CRD accepts, and the CRD's schema is never narrowed. |
| Negotiation.ExamineMarks | pkg/reconciler/apiresource/negotiation.go:495-546 | An examined import is marked if and only if it was the first or the comparison succeeded. |
| Negotiation.FoldSatisfies | pkg/reconciler/apiresource/negotiation.go:474-569 | The schema the loop ends with satisfies all imports it marked and all that were satisfied before. |
| Negotiation.FoldReports | pkg/reconciler/apiresource/negotiation.go:588-593 | The loop reports an update whenever the negotiated resource changed, so nothing that changed goes unwritten. |
| Negotiation.Controller.EnsureAPIResourceCompatibility | pkg/reconciler/apiresource/negotiation.go:361-601 | The loop as it runs, for a given import or all of them, leaves exactly the imports and the negotiated resource of the fold. |
| NegotiationSteps.StrategyDecides | pkg/reconciler/apiresource/negotiation.go:505-553 | Processing an import: with `UpdateNever`, an unknown strategy, `UpdateUnpublished` while published, or an enforced resource, the negotiated resource stays and the import is marked if and only if it accepts what the schema accepts; else the schema becomes the common one whenever there is one, and the import is marked if and only if there is. Which conditions are written, and that nothing else is, follows. |
| NegotiationSteps.FirstImportDecides | pkg/reconciler/apiresource/negotiation.go:477-503 | The first import brings its schema to a resource that is not to be published and has no conditions. |
| NegotiationSteps.RecomputeStartsAfresh | pkg/reconciler/apiresource/negotiation.go:477-503 | A computation from scratch starts from the schema of the first import, however narrow the stored one is, narrows by each other import whose strategy lets it, keeps whether the resource is to be published and drops its conditions. |
| NegotiationSteps.RecomputeMarks | pkg/reconciler/apiresource/negotiation.go:505-553 | The same computation marks the first import, and each other one if and only if it fits the schema that the imports before it left. |
| NegotiationSteps.RemovalIs | pkg/reconciler/apiresource/negotiation.go:603-629 | After an import went, the negotiated resource is deleted if and only if no import is left and it is not enforced; else it is computed from scratch. |
| NegotiationSteps.ManualResourceIs | pkg/reconciler/apiresource/negotiation.go:426-470 | A CRD made by hand gives a resource with its schema that is to be published, is published and is enforced. |
| NegotiationSteps.SpreadIs | pkg/reconciler/apiresource/negotiation.go:793-837 | The available condition of every import follows the published condition, if there is one; a cleanup removes it and the compatible one; nothing else of an import changes. |
| NegotiationOrder.IncrementalIsBatch | pkg/reconciler/apiresource/negotiation.go:405-411 | When all meets exist and every import may update, processing imports one at a time, in any order, with repetitions and while others publish, ends with the schema that any order gives from scratch: their greatest lower bound. |
| NegotiationOrder.BatchIsGlb | pkg/reconciler/apiresource/negotiation.go:474-553 | From scratch, in any order, the result is the greatest lower bound of all schemas. |
| NegotiationOrder.OrderDoesNotMatterIff | pkg/reconciler/apiresource/negotiation.go:477-553 | Where meets may be missing, two imports give the same schema in both orders if and only if the comparison narrows both ways; else the first one wins and the other is not marked. |
| NegotiationOrder.OrdersAgreeIff | pkg/reconciler/apiresource/negotiation.go:389-392 | For any number of imports that may update, all orders of the index give the same schema if and only if every order ends with one that satisfies all imports. |
| NegotiationOrder.OrdersAgreeIffBounded | pkg/reconciler/apiresource/negotiation.go:523-553 | Where the comparison narrows whenever it can, all orders agree if and only if some schema satisfies all imports. |
| CrdVersions.RunsKeepVersions | pkg/reconciler/apiresource/negotiation.go:729-774 | Over every run of publishing and cleaning up: version names are unique, at most one version is the storage version, none is greater than it, every version has an owner of its own, and the CRD is never taken for one made by hand. |
| CrdVersions.StorageStaysUntilRemoved | pkg/reconciler/apiresource/negotiation.go:745-755 | A CRD with a storage version keeps exactly one over every run in which no cleanup takes the storage version away. |
| CrdVersions.PublishStorageIff | pkg/reconciler/apiresource/negotiation.go:729-755 | Publishing leaves a storage version if and only if there was one or the version is the latest, and makes the published version the storage version if and only if it is the latest. |
| CrdVersions.CleanupStorageIff | pkg/reconciler/apiresource/negotiation.go:872-895 | A cleanup leaves the CRD without a storage version if and only if it had none or lost it; and deletes the CRD if and only if no other version is left. |
| CrdVersions.CleanupLeavesNoStorage | pkg/reconciler/apiresource/negotiation.go:872-895 | A concrete run, for any two versions, that ends with a version and without a storage version. |
| CrdVersions.VersionSurvivesIff | pkg/reconciler/apiresource/negotiation.go:859-891 | A version survives a cleanup for a resource of its name if and only if that resource's uid is not among the owners, whatever other resource of the name is. |
| CrdVersions.VersionSurvivesRunIff | pkg/reconciler/apiresource/negotiation.go:757-768 | After any run, a version survives the cleanup for a resource of its name if and only if that resource was not published since the last cleanup that took it, or the CRD, away. |
| CrdVersions.OwnedIffPublishedSince | pkg/reconciler/apiresource/negotiation.go:757-768 | Over every run a resource is an owner if and only if it was published and no cleanup took it, or the CRD, away since. |
| CrdVersions.LateCleanupRemovesNewVersion | pkg/reconciler/apiresource/negotiation.go:859-891 | A concrete run in which the cleanup after a deleted resource removes the version of the one that replaced it. |
| CrdVersions.NegotiatedNamesDiffer | pkg/reconciler/apiresource/negotiation.go:398-403 | Negotiated resources of different versions have different names. |
| CrdVersions.CrdController.PublishNegotiatedResource | pkg/reconciler/apiresource/negotiation.go:671-774 | The loops over versions and owners leave exactly the published version list and owners, and a CRD made by hand as it was. |
| CrdVersions.CrdController.CleanupNegotiatedAPIResource | pkg/reconciler/apiresource/negotiation.go:850-897 | The loops that rebuild both lists leave exactly the cleaned CRD, none, or the CRD as it was. |
| CrdVersions.CrdController.IsManuallyCreatedCRD | pkg/reconciler/apiresource/negotiation.go:207-215 | A CRD is manual if and only if no owner is a negotiated resource. |
| HandMadeCrds.HandMadeStaysIff | pkg/reconciler/apiresource/negotiation.go:724-727 | Over every run of publishing and cleaning up, a CRD none of whose owners is a negotiated resource ends as it was if and only if no cleanup named one of its owners and versions: publishing never touches it, and what a cleanup takes away never comes back. |
| HandMadeCrds.PublishWritesOneVersion | pkg/reconciler/apiresource/negotiation.go:729-755 | Publishing writes the version of its name, in place or at the end, as storage version if and only if no version compares greater, which takes the role from all others; their names, schemas and places stay. |
| HandMadeCrds.PublishAddsItsOwner | pkg/reconciler/apiresource/negotiation.go:757-768 | The resource is appended to the owners unless it is one. |
| HandMadeCrds.CleanupTakesOneVersion | pkg/reconciler/apiresource/negotiation.go:859-895 | A cleanup for an owner and a version of the CRD takes away exactly these two, and the CRD if and only if no version is left; any other does nothing. |
| HandMadeCrds.VersionsKeepOrder | pkg/reconciler/apiresource/negotiation.go:872-880 | The versions that are kept stay in their order. |
| HandMadeCrds.OwnersKeepOrder | pkg/reconciler/apiresource/negotiation.go:859-870 | So do the owners. |
| Conditions.SetIsLocal | apis/apiresource/v1alpha1/apiresourceimport_helpers.go:26-42 | Setting a condition changes what is found of its type and nothing else, keeps all others in order, and lengthens the list only if the type was missing. |
| Conditions.WithoutIsLocal | apis/apiresource/v1alpha1/apiresourceimport_helpers.go:45-53 | Removing a type leaves none of it and what is found of every other type. |
| Conditions.ConditionList.SetCondition | apis/apiresource/v1alpha1/negotiatedapiresource_helpers.go:26-42 | The list is changed in place to the replaced or extended one. |
| Conditions.ConditionList.RemoveCondition | apis/apiresource/v1alpha1/negotiatedapiresource_helpers.go:45-53 | The loop keeps exactly the conditions of other types, in order. |
| Conditions.ConditionList.FindCondition | apis/apiresource/v1alpha1/apiresourceimport_helpers.go:56-64 | Points to the first condition of the type, so that writing through the pointer is setting the condition. |
| Conditions.ConditionList.IsConditionPresentAndEqual | apis/apiresource/v1alpha1/apiresourceimport_helpers.go:77-84 | True if and only if the condition that is found has the status. |
| NamespaceCleaner.DeletionsAreJustified | pkg/syncer/namespace/namespace_downstream_controller.go:312-338 | Over every interleaving: each deleted namespace had a plan that took effect at least the delay before, the last firing found it planned and then empty, and it is still planned at the deletion if and only if it was not cancelled, without a later plan, during that firing. |
| NamespaceCleaner.PlansAreRemembered | pkg/syncer/namespace/namespace_downstream_controller.go:257-278 | A key is in the map if and only if its last plan that took effect came after its last cancellation, and a planned key waits, is ready, is being processed, or was found in use since that plan. |
| NamespaceCleaner.PlansDoNotPostpone | pkg/syncer/namespace/namespace_downstream_controller.go:270-278 | Planning again before the planned time changes neither map nor queue, and no plan makes a waiting key wait longer. |
| NamespaceCleaner.CancelComesTooLate | pkg/syncer/namespace/namespace_downstream_controller.go:314-336 | A cancellation after the probe does not stop the deletion. |
| CleaningDelays.DelayFromLastPlanIff | pkg/syncer/namespace/namespace_downstream_controller.go:270-338 | After a plan that takes effect, no run without another such plan deletes the namespace before the delay is over, if and only if nothing earlier is under way for the key: nothing queued or waiting for a sooner time and no firing, or a firing that is past its deletion. |
| CleaningDelays.PlanIsServedIff | pkg/syncer/namespace/namespace_downstream_controller.go:270-338 | After a plan call, every run that neither plans nor cancels the key again and works off its queue looks at the namespace, if and only if the call is not ignored while nothing is queued for the key and does not come between the deletion and the end of a firing. |
| CleaningDelays.LostPlanFollowsFullProbe | pkg/syncer/namespace/namespace_downstream_controller.go:323-326 | A call that is lost without a firing under way comes after the namespace was found in use, and not later than the time it is planned for. |
| CleaningDelays.PlanCanBeLost | pkg/syncer/namespace/namespace_downstream_controller.go:323-326 | A concrete run, for every delay, to a state in which the key is planned, nothing is queued for it, and the next plan call is lost. |
| CleaningDelays.DelayIsNotFromLastPlan | pkg/syncer/namespace/namespace_downstream_controller.go:270-278 | A concrete run, for every delay, that deletes a namespace one unit of time after its last plan. |
| NamespaceCleaner.StepKeeps | pkg/syncer/namespace/namespace_downstream_controller.go:287-310 | Every phase, failure and retry keeps the invariant of map, queue, firings and log. |
| NamespaceController.FireDeletesIff | pkg/syncer/namespace/namespace_downstream_controller.go:312-338 | A firing that nothing interrupts deletes if and only if the key is planned and the namespace empty and there; the key then leaves the map, and stays in it when the probe or the deletion fails. |
| NamespaceController.FireKeepsInvariant | pkg/syncer/namespace/namespace_downstream_controller.go:287-338 | Such a firing keeps the invariant of map, queue, firings and log, and leaves nothing of the key in progress. |
| NamespaceController.FailedFiringIsRetried | pkg/syncer/namespace/namespace_downstream_controller.go:297-310 | A firing whose probe or deletion fails leaves the plan alone and queues the key again after the back-off, or for a sooner time it already waits for. |
| NamespaceController.DownstreamController.PlanCleaning | pkg/syncer/namespace/namespace_downstream_controller.go:270-278 | The fields afterwards are those of the plan step. |
| NamespaceController.DownstreamController.CancelCleaning | pkg/syncer/namespace/namespace_downstream_controller.go:264-268 | The fields afterwards are those of the cancel step. |
| NamespaceController.DownstreamController.ProcessNextDelayedWorkItem | pkg/syncer/namespace/namespace_downstream_controller.go:287-338 | The fields afterwards are those of an uninterrupted firing, with retries after failures. |
| NamespaceWorker.PlannedIffCondemned | pkg/syncer/namespace/namespace_downstream_process.go:84-103 | Over every run of the worker, the cleaner and changes of namespaces, a key is planned if and only if the last act that decided about it condemned it; for the worker that is a turn at which the namespace was live and ours and its upstream namespace did not exist. |
| NamespaceWorker.DeletedWasOrphan | pkg/syncer/namespace/namespace_downstream_process.go:90-99 | Where nobody but the worker plans a key, its namespace is deleted only after a turn that found it live while its upstream namespace was gone. |
| NamespaceController.DownstreamController.Process | pkg/syncer/namespace/namespace_downstream_process.go:37-104 | Afterwards the key is planned if and only if the upstream namespace named by the locator does not exist, provided the namespace is live and ours, the DNS table was refreshed and the lister answered; otherwise nothing changes; a key that is newly planned is queued with the full delay, and no other key is touched. |
| NamespaceController.UpdateDNSConfigMap | pkg/syncer/namespace/namespace_downstream_process.go:121-145 | The loop fills a table with an entry for exactly the upstream namespaces of the workspace that some downstream namespace stands for. |
| NamespaceController.TableIsDeterminedIff | pkg/syncer/namespace/namespace_downstream_process.go:141-144 | Every order of a list of downstream namespaces gives the same table if and only if no upstream namespace of the workspace has downstream namespaces of two names. |
| NamespaceController.FittingTablesAgreeIff | pkg/syncer/namespace/namespace_downstream_process.go:141-144 | The tables that name, for each upstream namespace of the list, one of its downstream namespaces are all equal under the same condition. |
| NamespaceController.TwoTargetsShareAnEntry | pkg/syncer/namespace/namespace_downstream_process.go:121-145 | Two sync targets that sync one upstream namespace to a cluster: the table names the namespace of the one that is listed last. |
| GvrSource.SyncTargetGvrSource.Reconcile | pkg/syncer/synctarget/gvr_source.go:276-319 | Afterwards exactly the required resources are watched that are allowed and already watched or discovered, or already watched and whose review failed; subscribers get a token if and only if the set changed. |
| GvrSource.SyncTargetGvrSource.AddGVR | pkg/syncer/synctarget/gvr_source.go:157-176 | Adds a resource exactly when it is new and discovered. |
| GvrSource.SyncTargetGvrSource.RemoveUnusedGVRs | pkg/syncer/synctarget/gvr_source.go:138-153 | Keeps exactly the required resources, and reports whether any went. |
| GvrSource.SyncTargetGvrSource.NotifySubscribers | pkg/syncer/synctarget/gvr_source.go:205-220 | Every channel has a token afterwards, full or not. |
| GvrSource.GetAllGVRs | pkg/syncer/synctarget/gvr_source.go:245-274 | The required resources are the built-in ones and every version of every accepted resource. |
| GvrSource.ReconcileIsIdempotent | pkg/syncer/synctarget/gvr_source.go:276-319 | A second reconcile with the same answers changes nothing. |
| GvrSource.WatchedIff | pkg/syncer/synctarget/gvr_source.go:286-311 | Whether a resource is watched afterwards depends on its own answers alone, and what was known of a watched one is kept. |
| Notifications.NoLostWakeUp | pkg/syncer/synctarget/gvr_source.go:205-220 | In every interleaving, a subscriber whose last reading is out of date has a token waiting, has taken one and will read, or will still be sent to by the reconcile that changed the resources. |
| Notifications.QuietMeansUpToDate | pkg/syncer/synctarget/gvr_source.go:126-135 | Once all is quiet every subscriber has read the current resources, however many changes shared a token. |
| ControllerManager.RunsBalance | pkg/syncer/controllermanager/controllermanager.go:142-199 | Over every sequence of informer changes and creation failures, starts minus cancellations is one for a running controller and zero for others, and after each call every running one has all its resources. |
| ControllerManager.EachIsDecided | pkg/syncer/controllermanager/controllermanager.go:168-198 | Controller by controller: one with all its resources runs on, or is started once if it can be created; any other that runs is cancelled once. |
| ControllerManager.WaitsIff | pkg/syncer/controllermanager/controllermanager.go:144-166 | Another call is asked for if and only if, for some controller, the first resource that is not synced is one of those that are to be. |
| ControllerManager.ReadyStaysRunning | pkg/syncer/controllermanager/controllermanager.go:168-178 | A running controller whose resources stay synced is neither cancelled nor started again. |
| ControllerManager.AllReadyRunIff | pkg/syncer/controllermanager/controllermanager.go:180-198 | After a call exactly the ready controllers run if and only if each was running or could be created. |
| ControllerManager.Manager.Process | pkg/syncer/controllermanager/controllermanager.go:142-199 | The three loops do exactly one resynchronisation, and ask for another one if and only if the first missing resource of some controller is still to be synced. |
| ControllerManager.Manager.ToStart | pkg/syncer/controllermanager/controllermanager.go:144-166 | Collects exactly the controllers that have all their resources. |

## Left out

- Cluster-scoped objects and the check for cluster-wide collisions (pkg/syncer/spec/spec_process.go:328-356), and objects in Upsync mode beyond their exclusion from status updates.
- The annotation with the original API version (pkg/syncer/spec/spec_process.go:189-199), and the two spellings of a resource type (kind and resource name), which are taken to correspond.
- Malformed annotations and downstream namespaces without any labels.
- Owner references, uid and the other metadata of objects beyond being stripped; server-side apply is modelled as replacing the copy, without field managers.
- DNS objects: their state is an input of the spec step.
- LeavingObjectIsGone: takes a downstream delete as complete by the next step, because how long an object stays terminating is up to the downstream cluster; likewise the other members of `Convergence` and `HeldObjects`. `TerminatingDeletes` states the course of a leaving object without this. What an API server makes of an apply to a terminating object is not modelled.
- Objects of others that carry the syncer's label under a name that no copy could have: a status step that comes by such a key may release an object by another name. `StaleReads` includes them.
- Work queues and retries of the syncer: a step may run at any time, which covers every schedule. That a step does run again after an event is not modelled.
- The comparison that lets the status controller ignore updates (pkg/syncer/status/status_process.go:43-51).
- Status writes of the negotiation go through ordinary updates and are modelled as stored; an API server that keeps status apart would store none of the marks.
- Non-schema parts of imports (names, scope, columns, subresources), condition messages and transition times.
- Pushing a CRD made by hand into stored negotiated resources, and CRD conditions (pkg/reconciler/apiresource/negotiation.go:217-315): without such a CRD their effect is covered by arbitrary changes of the conditions of the negotiated resource.
- Writes of a negotiation that fail half way, and two workers negotiating one resource at the same time.
- JSON numbers beyond integers, and quantities that are equal without being the same text: semantic equality is equality of JSON values.
- The virtual workspaces, the shard manager, the API importer, the tunneler, scheduling and the command line.
