# Karpenter provider for vSphere: models and proofs

This project models the parts of the provider in which something can go wrong between several
steps, objects or parties, and proves what they promise. Each `.dfy` file holds one module; `dafny
verify dfyconfig.toml` checks all of them.

**Three protocols over shared state.** Each is a transition system with one action per API call. A
state keeps the objects as stored, what every controller currently holds in its hands, and a record
of the past that no step depends on. An action that is not possible changes nothing, so theorems over
all action lists are theorems over all interleavings, with failures and retries at any point.

* *Hash and drift migration* (`Drift`, `HashMigration`, `HashController`). `Hash` is an arbitrary
  function of an arbitrary type of specs. Patches may be refused, or applied with the acknowledgement
  lost; claims come and go, specs are edited and the Drifted condition changes between any two calls.
  `DriftExact` gives the drift report at every moment of every run, from the spec that each side was
  stamped with. `HashController` has the loops as the controller runs them; `PassIsRun` connects them
  to the transition system, and `RetriesConverge` shows that failures do not change where the
  migration ends.
* *Termination against launch* (`Termination`). Listing claims and removing the finalizer are separate
  steps. Two assumptions are guards of steps: reads see the stored objects, and Karpenter core does not
  remove a claim whose launch is in flight. `GoneMeansQuiet` and `NoLatePass` are the safety theorems.
  The finalizer patch of the status controller carries no resource version. `AddIsExactIff` says for every
  run which foreign finalizers it loses and which removed ones it brings back, and when it does neither;
  `AddCanDropForeign` and `AddCanReviveForeign` are runs in which it does. That launches happen is
  `LaunchesIff`, `LaunchIsPossible` and `LifeEnds`.
* *Garbage collection* (`GarbageCollection`, `GarbageCollector`, `GcTiming`). `SafeIffBounded` settles which
  time bounds make collection safe: the time to persist a provider id and the time between the claim list and a
  worker's look at the clock must together be at most the five minutes that are waited. In the
  untimed half each worker looks its machine up, powers it off, destroys it and deletes the node, in
  calls that read and change one cluster, in any order with the calls of the others.
  `OrderIndependentIff` settles when the order matters: exactly if one worker can find a machine that
  another can take away. `AlwaysIndependentIff` puts this in terms of the list: whatever becomes of the
  calls, the order makes no difference unless a running machine is collectable under two entries.

**Patches** (`MergePatch`, `ObjectPatches`). All controllers send JSON merge patches, section 2 of RFC
7396. For any target, a patch made earlier stays in force after a later one exactly when the two are
compatible, which is also exactly when their order does not matter. The controllers' own patches, made
from copies of any age, are compatible wherever they go to different places of an object, and the
optimistic lock makes finalizer removal exact.

**State machines and lookups.** `KubernetesVersion` is the no-downgrade reconciler over the precedence
of section 11 of Semantic Versioning 2.0.0 (`SemVer`). `Tags` is the tag registry with its write and read
normalisation, `TagSelector` selection by counting. `InstanceTypes` shows exactly when the type of a running
instance can be found again from its tags, through the pool and the class that they lead to by then
(`ClassLookup`). `Devices` gives the device changes of a clone their meaning on
the template's hardware, with 64-bit arithmetic written out.

**Codecs.** `Base64` is section 4 of RFC 4648 with the decoder's treatment of line breaks,
`Base64Standard` its meaning in bits and letters, and `InstanceMetadata` the loop that decodes until it
fails. `YamlBlock` reads literal block scalars by sections 8.1.1.1, 8.1.1.2 and 8.1.2 of YAML 1.2.2;
`CloudConfig` renders files and reads them back. `InitData` puts them together, from the agent's
configuration to the guest, and `AgentConfig` reads that configuration by its keys. `Taints` and
`ProviderId` are the taint arguments and provider ids, the latter against the meaning of the regular
expression. `Text` and `Prelude` hold what the others share.

Objects whose methods update fields are classes here, loops that update variables are methods with
loops. Each is proved against a function or predicate on values, about which the theorems are proved.

Where the code and its evident intent differ, the code is modelled:

* A positive drift decision is returned with an error, and `IsDrifted` then drops the reason
  (`pkg/cloudprovider/drift.go:16-19`, `pkg/cloudprovider/cloudprovider.go:271-274`); theorems about
  drift are about the decision, and `Drift.ReasonOnlyForAbsentClass` says what reaches the caller.
* User data that is itself valid base64 is decoded, not wrapped (`InstanceMetadata.FaithfulIffNotBase64`),
  and data that decodes to line breaks only keeps the loop going forever
  (`InstanceMetadata.LoopEndsIffNeverBlank`, `InstanceMetadata.LineFeedNeverEnds`). Rendered text is never
  either of these: it begins with `#` or `{` (`InstanceMetadata.UserDataIsPlain`).
* A first discovered version that cannot be parsed is stored all the same and then blocks every later one
  (`KubernetesVersion.WedgedIffUnreadable`).
* Sizes are converted in 64 bits without a check, and negative sizes keep the template's disk
  (`Devices.MetIff`, `Devices.HugeSizeVanishes`).
* Memory with and without the `Gi` suffix makes the same type name (`InstanceTypes.UnitIsLost`).
* With both zone keys given, the tag read back depends on the order of a listing
  (`Tags.ReadBackIffNoClash`).
* Class tags are copied over the provider's own. With a pool in them that does not exist, an instance is
  resolved to a type without processors or memory; with an empty one, or a pool whose class is gone, the
  lookup fails (`InstanceTypes.GonePoolLeavesName`, `InstanceTypes.NoLivePoolFails`).
* A listing that names one machine twice makes the error slots depend on the order of the workers: the
  second one succeeds if it asks after the first has destroyed the machine, and fails if it asked before
  (`GarbageCollection.ListedTwiceCanFail`).
* Additional user data that cannot be read is not an error of a launch: the machine gets no user data at all
  (`InitData.GetInitData`).
* A claim created once the class carries the current hash version is never stamped, so that no later edit of the
  spec makes it drift (`HashMigration.LateClaimNeverReported`).
* An entry of a class behind one that differs from it in the unit of memory only is found as the other one
  (`InstanceTypes.ShadowedEntryIsLost`).
* A stale copy whose annotations already agree with the goal makes a hash patch that sets nothing
  (`ObjectPatches.HashPatchOnAny`).

## Model

| member | source | states |
|---|---|---|
| Drift.ReasonOnlyForAbsentClass | pkg/cloudprovider/cloudprovider.go:251-276 | the reason is returned if and only if the class that the claim leads to is missing or terminating and this could be read; a positive decision on a live class always comes back as an error |
| Drift.NoReasonAndErrorIff | pkg/cloudprovider/cloudprovider.go:251-276 | exactly when a check ends without a reason, an undrifted claim of a live class included, and exactly when it ends in an error |
| HashMigration.DriftExact | pkg/cloudprovider/drift.go:24-36 | in every run, with any failures and edits, and with the claim read before the class: a claim is reported if and only if the spec it was stamped with hashes differently from the one the class was stamped with, or it was left unstamped because drifted and its old hash differs; before the class is stamped nothing new is reported |
| HashMigration.NoSpuriousDrift | pkg/controllers/nodeclass/hash/controller.go:65-95 | with the spec unedited, a claim that never had the Drifted condition is reported at no moment of the migration unless it was reported before it |
| HashMigration.DriftedClaimKeepsHash | pkg/controllers/nodeclass/hash/controller.go:80-84 | a claim that has the Drifted condition throughout keeps its old hash in every run |
| HashMigration.PassStampsCurrentSpec | pkg/controllers/nodeclass/hash/controller.go:40-49 | a pass during which the spec is not edited stamps the class with its own spec |
| HashMigration.ClassVersionComesLast | pkg/controllers/nodeclass/hash/controller.go:35-49 | in every run the class has the current version only when every claim of the last successful list has it or is gone |
| HashMigration.LateClaimNeverReported | pkg/controllers/nodeclass/hash/controller.go:35-39 | a claim created once the class has the current version is never stamped, and reported against no later state of the class |
| HashMigration.EditIsReported | pkg/cloudprovider/drift.go:24-36 | a run in which an edit of the spec makes a migrated claim reported, for every hash that tells the two specs apart |
| HashMigration.OthersAct | pkg/controllers/nodeclass/hash/controller.go:30-95 | what others do to the class and its claims between any two calls takes effect |
| HashMigration.RewritesAreCounted | pkg/controllers/nodeclass/hash/controller.go:45-89 | an annotation changes only in a step that sends a patch, one at most |
| HashMigration.RecordIsExact | pkg/controllers/nodeclass/hash/controller.go:80-84 | the record of claims that ever had the Drifted condition, which the statements about drift refer to, has those and no others |
| HashMigration.RunKeepsInv | pkg/controllers/nodeclass/hash/controller.go:30-95 | every run keeps the invariant: copies agree with the store on the two annotations, and both annotations of every object are traced to the spec they were made from |
| HashMigration.OthersKept | pkg/controllers/nodeclass/hash/controller.go:40-49 | in every run every annotation of the class and of a claim other than the two of the provider stays as it was |
| HashController.Controller.UpdateNodeClaimHash | pkg/controllers/nodeclass/hash/controller.go:65-95 | exactly the unversioned claims whose patch took effect are stamped, drifted ones without the hash; it fails exactly if the list does or a patch is answered with an error other than that the claim is gone |
| HashController.Controller.Reconcile | pkg/controllers/nodeclass/hash/controller.go:30-52 | the whole effect of a pass, claims deleted under it included: claims only for an unversioned class, the class only if nothing failed before, nothing if nothing differs, and when it ends in an error |
| HashController.PassIsRun | pkg/controllers/nodeclass/hash/controller.go:30-95 | the actions of a pass, run in the transition system from rest, have exactly the effect promised by `Reconcile` |
| HashController.CleanPassConverges | pkg/controllers/nodeclass/hash/controller.go:30-52 | a pass whose list and patches all succeed migrates the class and every claim that was not deleted meanwhile |
| HashController.CleanPassStamps | pkg/controllers/nodeclass/hash/controller.go:35-49 | after a clean pass the class has version v1 and the hash of its spec, an unversioned class has given its claims without the version the version and, unless drifted, that hash, and no other annotation changed; by the names of the annotations |
| HashController.PassKeepsTarget | pkg/controllers/nodeclass/hash/controller.go:70-94 | a pass with failures anywhere does not change the state that a clean pass leads to |
| HashController.RetriesConverge | pkg/controllers/nodeclass/hash/controller.go:70-94 | after any number of passes with any failures, the first clean pass reaches the state a single clean pass would have reached |
| HashController.NothingLeftToPatch | pkg/controllers/nodeclass/hash/controller.go:35-49 | after a clean pass a further one sends no patch and changes nothing |
| Termination.GoneMeansQuiet | pkg/controllers/nodeclass/termination/termination.go:50-79 | in every run, once an incarnation of the class is gone, no claim that passed its check is left and no launch that passed it is in flight |
| Termination.NoLatePass | pkg/cloudprovider/cloudprovider.go:324-336 | once an incarnation is marked for deletion, no claim passes its check any more, in any continuation of any run |
| Termination.EveryPassRecorded | pkg/cloudprovider/cloudprovider.go:68-91 | every claim in the store and every launch in flight that passed a check is in the record that `NoLatePass` is about |
| Termination.LaunchesIff | pkg/cloudprovider/cloudprovider.go:324-336 | in every state a launch passes the check if and only if its claim exists and is not in flight and the class exists, is not being deleted and is ready; it is then in flight for that incarnation, and otherwise nothing changes |
| Termination.LaunchIsPossible | pkg/cloudprovider/cloudprovider.go:68-91 | with any finalizers in its manifest a class becomes ready and launches a claim |
| Termination.LifeEnds | pkg/controllers/nodeclass/termination/termination.go:50-79 | that run goes on until the class is gone, or only foreign finalizers are left on it |
| Termination.RunKeepsInv | pkg/controllers/nodeclass/status/controller.go:47-53 | every run keeps the invariant: a claim that passed the check holds its incarnation in the store by the termination finalizer, and a ready class that is not being deleted has that finalizer |
| Termination.RemovalIsExact | pkg/controllers/nodeclass/termination/termination.go:66-77 | the finalizer patch takes away the termination finalizer and nothing else, or is a conflict and changes nothing |
| Termination.AddIsExactIff | pkg/controllers/nodeclass/status/controller.go:47-53 | in every run an accepted finalizer patch loses exactly the foreign finalizers missing in its copy and brings back exactly those only in the copy, so it keeps them as stored if and only if the two agree; they do whenever the stored version is still that of the copy |
| Termination.AddCanDropForeign | pkg/controllers/nodeclass/status/controller.go:47-53 | a run in which a foreign finalizer is lost |
| Termination.AddCanReviveForeign | pkg/controllers/nodeclass/status/controller.go:47-53 | a run in which a removed foreign finalizer comes back |
| Termination.AddRefusedIff | pkg/controllers/nodeclass/status/controller.go:47-53 | the finalizer patch is refused if and only if the class is being deleted and lacks one of the finalizers wanted; otherwise it gets exactly those |
| Termination.OthersAct | pkg/controllers/nodeclass/termination/termination.go:41-79 | creation, deletion and foreign finalizers take effect in every state that allows them, and a class being deleted goes with its last finalizer |
| Termination.WorkersLetGo | pkg/controllers/nodeclass/termination/termination.go:66-79 | a controller can stop at any call and does after its last one, on a missing class and on a conflict |
| Termination.Cluster.ReconcileTermination | pkg/controllers/nodeclass/termination/termination.go:41-79 | waits ten minutes while claims exist, retries at once on a conflict, fails exactly on other errors of the list or the patch, and leaves the store as the locked removal says exactly if the patch takes effect |
| Termination.Cluster.ReconcileStatus | pkg/controllers/nodeclass/status/controller.go:44-78 | the stored class after both halves, and exactly when it fails: on a refused finalizer patch, an unknown version, or a status that changes (its version, condition or observed generation) and could not be written to an existing class |
| Termination.TerminationIsTwoSteps | pkg/controllers/nodeclass/termination/termination.go:55-72 | without faults the effect of the method is that of the list step and the removal step in a row |
| Termination.StatusIsTwoSteps | pkg/controllers/nodeclass/status/controller.go:47-73 | the effect of the method is that of the finalizer step and, where a status is written, the status step in a row |
| GarbageCollection.Managed | pkg/controllers/nodeclaim/garbagecollection/garbagecollection.go:45-47 | exactly the listed instances that are not being deleted |
| GarbageCollection.ManagedConcat | pkg/controllers/nodeclaim/garbagecollection/garbagecollection.go:45-47 | in the order of the list, repetitions included |
| GarbageCollection.ReplayKeepsInv | pkg/providers/instance/instance.go:288-316 | for every schedule of calls: a machine that is gone was powered off and destroyed by one worker, which alone went on to its node; a worker's slot holds an error if and only if its lookup failed or it found its machine and did not go all the way |
| GarbageCollection.CompleteIsSettled | pkg/controllers/nodeclaim/garbagecollection/garbagecollection.go:60-66 | without a race, the machines left and running, the nodes left and every error slot are the same for every complete schedule |
| GarbageCollection.OrderIndependentIff | pkg/controllers/nodeclaim/garbagecollection/garbagecollection.go:60-70 | all complete schedules end with the same machines, nodes and error slots if and only if no worker can find a machine that another one can take away |
| GarbageCollection.AlwaysIndependentIff | pkg/controllers/nodeclaim/garbagecollection/garbagecollection.go:60-70 | this holds whatever becomes of the calls if and only if no running machine is collectable under two entries of the list |
| GarbageCollection.DistinctIdsDoNotRace | pkg/controllers/nodeclaim/garbagecollection/garbagecollection.go:60-66 | distinct provider ids exclude a race |
| GarbageCollection.EarlyLookupFails | pkg/providers/instance/instance.go:288-305 | a worker that has found the machine before another one takes it away ends with an error |
| GarbageCollection.LateLookupIsClean | pkg/providers/finder/name.go:39-50 | a worker that asks afterwards finds nothing and ends without an error |
| GarbageCollection.ListedTwiceCanFail | pkg/controllers/nodeclaim/garbagecollection/garbagecollection.go:60-66 | a list that names one machine twice, on which the outcome depends on the order although every call gets through |
| GarbageCollection.CleanPassRemovesExactly | pkg/controllers/nodeclaim/garbagecollection/garbagecollection.go:45-70 | in any order, a complete pass without errors removes exactly the listed machines that are managed, unresolved and older than five minutes when looked at |
| GarbageCollection.NodesFollowMachines | pkg/controllers/nodeclaim/garbagecollection/garbagecollection.go:82-90 | in any order and at any moment, the nodes deleted are the first listed nodes of machines removed, and no more of them than machines |
| GarbageCollector.VirtualMachine.LookForVm | pkg/controllers/nodeclaim/garbagecollection/garbagecollection.go:62-64 | a worker finds its machine exactly if it is collectable, the lookup gets through and the machine still exists; it fails exactly if the lookup does not get through |
| GarbageCollector.VirtualMachine.CollectNode | pkg/controllers/nodeclaim/garbagecollection/garbagecollection.go:83-90 | of the nodes, exactly the first listed one with the machine's id goes if the call takes effect; a lost answer is an error all the same |
| GarbageCollector.VirtualMachine.NextCall | pkg/providers/instance/instance.go:288-316 | every call of a worker is a step of the workers' world and brings the worker nearer to its end |
| GarbageCollector.VirtualMachine.RunWorkers | pkg/controllers/nodeclaim/garbagecollection/garbagecollection.go:60-66 | the workers' calls in any interleaving are a schedule, complete unless the context was cancelled, and then no worker is left halfway; each slot is its worker's alone and in bounds; complete and without a race the outcome is the one of every order |
| GarbageCollector.VirtualMachine.Reconcile | pkg/controllers/nodeclaim/garbagecollection/garbagecollection.go:38-73 | the whole pass: nothing is touched if a list fails; otherwise machines, nodes and slots as after the schedule, failure exactly if some worker failed, the success counter and the two requeue intervals |
| GcTiming.SafeIffBounded | pkg/controllers/nodeclaim/garbagecollection/garbagecollection.go:40-66 | no run ever loses the machine of an existing claim if and only if the persistence bound and the delay bound add up to at most five minutes |
| GcTiming.DoomedIsNobodys | pkg/controllers/nodeclaim/garbagecollection/garbagecollection.go:61-66 | under those bounds a machine about to be deleted belongs to no claim of the claim list and to none that exists now |
| GcTiming.LateRunIsUnsafe | pkg/controllers/nodeclaim/garbagecollection/garbagecollection.go:62-63 | for all other bounds, a run in which a claim loses its machine |
| GcTiming.LookKeepsPass | pkg/controllers/nodeclaim/garbagecollection/garbagecollection.go:62-65 | a worker that finds a machine old enough looks too late for its claim to have been unpersisted at the claim list |
| GcTiming.CollectedAreGone | pkg/controllers/nodeclaim/garbagecollection/garbagecollection.go:74-79 | in every run no collected machine exists any more |
| GcTiming.StepsAct | pkg/controllers/nodeclaim/garbagecollection/garbagecollection.go:61-66 | a worker looks once and, on an unresolved entry older than five minutes, takes the machine away; claims and machines can go and a pass can end at any time |
| MergePatch.PatchReproducesIff | pkg/controllers/nodeclass/hash/controller.go:45-46 | the patch from a copy to its changed version, applied to the copy, gives the changed version if and only if the change brings in no null |
| MergePatch.EmptyIffUnchanged | pkg/controllers/nodeclass/hash/controller.go:45 | the patch is empty if and only if nothing changed |
| MergePatch.StaysInForceIff | pkg/controllers/nodeclass/termination/termination.go:68-71 | for every target, a patch is still in force after another one if and only if the two are compatible |
| MergePatch.CommuteIff | pkg/controllers/nodeclass/status/controller.go:67-69 | for every target, two patches commute if and only if they are compatible |
| ObjectPatches.PatchWithinPlace | pkg/controllers/nodeclass/hash/controller.go:40-46 | whatever copy it is made from, the patch of each controller writes at its own place of the object only |
| ObjectPatches.UntouchedElsewhere | pkg/controllers/nodeclass/termination/termination.go:66-72 | a patch within one place leaves everything apart from that place as it was, on every target |
| ObjectPatches.NoLostUpdates | pkg/controllers/nodeclass/status/controller.go:66-72 | a controller's write stays in force through any later writes at other places, in any number and order and from stale copies |
| ObjectPatches.SameVersionSameBody | pkg/controllers/nodeclass/termination/termination.go:68-72 | as long as the resource version is the same, so is the document |
| ObjectPatches.LockedRemovalIsExact | pkg/controllers/nodeclass/termination/termination.go:66-77 | after any writes by anyone, locked removal is refused exactly if something changed since the read, and otherwise the list loses exactly the termination finalizer |
| ObjectPatches.HashPatchOnAny | pkg/controllers/nodeclass/hash/controller.go:40-46 | on any document the hash patch sets an annotation exactly where the copy had another value for it, and keeps every other annotation |
| ObjectPatches.HashPatchStamps | pkg/controllers/nodeclass/hash/controller.go:40-49 | the same by the names and values of the two annotations |
| ObjectPatches.AddPatchOnAny | pkg/controllers/nodeclass/status/controller.go:47-53 | on any document the finalizers become those of the copy with the termination finalizer at the end |
| ObjectPatches.RemovePatchOnAny | pkg/controllers/nodeclass/termination/termination.go:66-77 | on any document the finalizers become those of the copy without the termination finalizer, or are absent |
| ObjectPatches.StatusPatchPuts | pkg/controllers/nodeclass/status/controller.go:65-73 | on the copy it was made from the patch puts the new status and changes nothing else |
| SemVer.PrecedenceIsTotalPreorder | pkg/controllers/nodeclass/status/kubernetesversion.go:90-92 | precedence with prereleases is a total preorder |
| SemVer.PrecedenceIff | pkg/controllers/nodeclass/status/kubernetesversion.go:90-96 | one version compares below another if and only if it precedes it by section 11: the first differing number decides, then a prerelease before its release, then the first differing identifier or the shorter list |
| SemVer.SectionElevenExample | pkg/controllers/nodeclass/status/kubernetesversion.go:90-96 | the seven versions of the example of section 11 in their order |
| KubernetesVersion.KubernetesVersionReconciler.Reconcile | pkg/controllers/nodeclass/status/kubernetesversion.go:66-102 | the new status, and exactly when it fails |
| KubernetesVersion.RunningMaximum | pkg/controllers/nodeclass/status/kubernetesversion.go:77-99 | over any events, a settled status stays ready and holds the last of the highest versions discovered, failed and unreadable discoveries passed over |
| KubernetesVersion.NeverDowngrades | pkg/controllers/nodeclass/status/kubernetesversion.go:92-96 | between any two moments of a settled run the version does not go down |
| KubernetesVersion.FirstDiscoverySettles | pkg/controllers/nodeclass/status/kubernetesversion.go:76-79 | after any failures the first discovered version is taken as it is |
| KubernetesVersion.HighestDiscovered | pkg/controllers/nodeclass/status/kubernetesversion.go:71-101 | from the first readable discovery on, whatever failed before and whatever follows, the status is ready and its version is one of the discovered ones, with no comparable one above it |
| KubernetesVersion.WedgedIffUnreadable | pkg/controllers/nodeclass/status/kubernetesversion.go:85-88 | a ready status never changes again, whatever is discovered, if and only if its version cannot be parsed |
| Tags.TagManager.CreateOrUpdateCategory | pkg/providers/finder/tags.go:150-161 | the category of that name, made only if there was none; names stay unique |
| Tags.TagManager.GetOrCreateTag | pkg/providers/finder/tags.go:163-178 | the tag of that name and category, made only if there was none; names stay unique |
| Tags.TagManager.CreateOrUpdateTags | pkg/providers/finder/tags.go:130-148 | one tag per entry in traversal order, under the entry's key or, for the topology zone, in the category `k8s-zone`; no category or tag is made besides, and nothing is made if all exist |
| Tags.TagManager.TagInstance | pkg/providers/finder/tags.go:116-128 | the object carries the value of every entry in the category of its key, the topology zone in `k8s-zone`; no category or tag is made besides, other objects are untouched, uniqueness is kept, and tagging again changes nothing |
| Tags.TagManager.TagsFromVM | pkg/providers/finder/tags.go:189-217 | the keys and names of the tags in listing order, later ones counting |
| Tags.ReadBack | pkg/providers/finder/tags.go:198-216 | without a zone clash the map read back is the map written with the zone key renamed, for every traversal and listing order |
| Tags.ReadBackIffNoClash | pkg/providers/finder/tags.go:130-216 | reading back is exact for every listing order if and only if the two zone keys are not both given with different values |
| Tags.OrdinaryKeysReadBack | pkg/providers/finder/tags.go:198-216 | every other key is read back with its own value, clash or not |
| Tags.ZoneReadsBack | pkg/providers/finder/tags.go:198-216 | the topology zone is read back under its key and nothing under `k8s-zone`, in every order |
| TagSelector.CountingIsIntersection | pkg/providers/finder/tags.go:14-33 | an object counted as often as there are lists is in all of them and conversely, if no list repeats an object |
| TagSelector.RepetitionMiscounts | pkg/providers/finder/tags.go:14-33 | with a repetition the count selects an object that a tag is not attached to |
| TagSelector.GetObjectByType | pkg/providers/finder/tags.go:14-33 | succeeds if and only if there is a tag and some object of the type is attached to every tag, and returns one that is, whichever map iteration yields |
| TagSelector.GetObjectByTag | pkg/providers/finder/tags.go:35-49 | finds an object that carries every tag of the selector, if and only if the selector is not empty and there is one |
| TagSelector.NetworkByTag | pkg/providers/finder/tags.go:68-87 | finds a network if and only if exactly one of Network, DistributedVirtualSwitch, DistributedVirtualPortgroup and OpaqueNetwork has an object with every tag; the two errors are told apart |
| TagSelector.TaggedIsSelected | pkg/providers/finder/tags.go:116-148 | a tagged object carries every tag of the selectors made of its entries, the zone under `k8s-zone` |
| InstanceTypes.SameNameIff | pkg/cloudprovider/cloudprovider.go:278-281 | with numeric parts two type names are equal if and only if processors, trimmed memory and operating system are |
| InstanceTypes.UnitIsLost | pkg/cloudprovider/cloudprovider.go:278-281 | two different memories with the same name |
| InstanceTypes.PlainIff | pkg/cloudprovider/cloudprovider.go:278-281 | the entries that the statements about names call plain: decimal processors and memory in Gi |
| InstanceTypes.NameDecides | pkg/cloudprovider/cloudprovider.go:282-314 | among entries with memory in Gi, types have the same name if and only if they are the same machine |
| InstanceTypes.InstanceTypesFromNodeClass | pkg/cloudprovider/cloudprovider.go:282-314 | one type per entry in order, with its quantities, zone and lowered operating system, the name made of three of them, architecture amd64 and storage of the disk's size in bytes |
| InstanceTypes.TrimGiIs | pkg/cloudprovider/cloudprovider.go:278-281 | one `Gi` at the end is dropped and anything else kept |
| InstanceTypes.BytesExactIff | pkg/utils/utils.go:45-47 | the bytes of a disk are right if and only if its size is in [-2^33, 2^33) |
| InstanceTypes.TagsReadBack | pkg/providers/instance/instance.go:117-124 | each of the six tags of a launch is read back by its name unless the class gives it, and so is every tag of the class |
| InstanceTypes.ResolvedByTags | pkg/cloudprovider/cloudprovider.go:197-229 | in every order of writing and listing tags, an instance is resolved by the pool and the type name that its launch wrote last, class tags over the provider's own |
| InstanceTypes.RecoverableIff | pkg/cloudprovider/cloudprovider.go:197-249 | the type found for an instance has the launched processors, memory and operating system if and only if the class tags give no other type name, and the pool in its tags refers to a live class whose first entry of that name is such an entry |
| InstanceTypes.PlainOffersIffListed | pkg/cloudprovider/cloudprovider.go:207-209 | among entries with numeric processors and memory in Gi it suffices that the class lists such an entry at all |
| InstanceTypes.ShadowedEntryIsLost | pkg/cloudprovider/cloudprovider.go:207-209 | a class in which it does not suffice |
| InstanceTypes.GonePoolLeavesName | pkg/cloudprovider/cloudprovider.go:198-201 | with a pool tag of a pool that does not exist, only the name of the type is found |
| InstanceTypes.NoLivePoolFails | pkg/cloudprovider/cloudprovider.go:202-249 | with an empty pool tag, or a pool of a missing or terminating class, the lookup fails |
| InstanceTypes.EntryGoneFails | pkg/cloudprovider/cloudprovider.go:202-213 | with a pool whose class has no entry of the name, the lookup fails |
| Devices.ExactIffSmall | pkg/utils/utils.go:48-50 | the conversion is exact if and only if the size is in [-2^43, 2^43) |
| Devices.HugeSizeVanishes | pkg/utils/utils.go:48-50 | a size that converts to nothing |
| Devices.GetNetworkSpecs | pkg/providers/instance/instance_devices.go:15-52 | removals of all cards of the template in order, then one new card; none without a backing |
| Devices.GetDiskConfigSpec | pkg/providers/instance/instance_devices.go:90-106 | refuses exactly a positive request below the template, and otherwise edits the disk object in place |
| Devices.GetDeviceSpec | pkg/providers/instance/instance_devices.go:54-88 | succeeds exactly if all lookups do, there is a disk and it may be resized; applied to the template's hardware the changes give the intended hardware; no other disk object is touched |
| Devices.ChangesDoIt | pkg/providers/instance/instance_devices.go:80-86 | removals, the added card and the edited disk, applied one after the other, make the intended hardware |
| Devices.IntendedIs | pkg/providers/instance/instance_devices.go:54-106 | the intended hardware is one card, the first disk resized, and every other device of the template that is not a card, as it was |
| Devices.MetIff | pkg/providers/instance/instance_devices.go:90-106 | the request is met exactly for sizes from 0 to 2^43 - 1, apart from negative sizes that wrap to a positive number below the template |
| Base64.DecodeEncode | pkg/providers/instance/instance_metadata.go:106-112 | decoding undoes encoding for all data |
| Base64.Decode | pkg/providers/instance/instance_metadata.go:106 | a successful decode of data that is not empty is strictly shorter, and empty exactly for line breaks only |
| Base64.ForeignByteFails | pkg/providers/instance/instance_metadata.go:106-109 | a byte that is no symbol, padding or line break makes decoding fail |
| Base64Standard.EncodeIff | pkg/providers/instance/instance_metadata.go:112 | a text is the encoding of the data if and only if its letters spell the bits of the bytes, filled with zero bits, in the literal alphabet, with the padding for the length; it has four symbols for every three bytes begun |
| Base64Standard.DecodeIff | pkg/providers/instance/instance_metadata.go:106 | a text decodes to the data if and only if, line breaks apart, it spells its bits with the padding for the length, whatever the bits filled in |
| Base64Standard.StripIs | pkg/providers/instance/instance_metadata.go:106 | the line breaks left out in decoding are the carriage returns and line feeds, wherever they are |
| Base64Standard.Section10Vectors | pkg/providers/instance/instance_metadata.go:112 | the test vectors of section 10 of RFC 4648 |
| InstanceMetadata.Config.EncodeData | pkg/providers/instance/instance_metadata.go:101-113 | exactly one layer of base64 around what is left when nothing can be decoded any more |
| InstanceMetadata.LoopEndsIffNeverBlank | pkg/providers/instance/instance_metadata.go:105-111 | the loop ends if and only if the data never decodes to line breaks only |
| InstanceMetadata.LineFeedNeverEnds | pkg/providers/instance/instance_metadata.go:105-111 | two inputs on which it never ends |
| InstanceMetadata.LayersCollapse | pkg/providers/instance/instance_metadata.go:98-113 | any number of layers around plain data becomes one |
| InstanceMetadata.Idempotent | pkg/providers/instance/instance_metadata.go:98-113 | encoding what is encoded changes nothing |
| InstanceMetadata.FaithfulIffNotBase64 | pkg/providers/instance/instance_metadata.go:101-113 | the guest decodes what was passed in if and only if that was empty or not base64 |
| InstanceMetadata.UserDataIsPlain | pkg/providers/instance/instance_metadata.go:54-58 | text that begins with `#` or `{` is encoded as it is |
| InstanceMetadata.HostMetadataIsPlain | pkg/providers/instance/instance_metadata.go:36 | so is the metadata of every host name |
| InstanceMetadata.HostMetadataNamesHost | pkg/providers/instance/instance_metadata.go:36 | the quoted name is read back after `local-hostname`, whatever bytes it has |
| InstanceMetadata.Config.SetData | pkg/providers/instance/instance_metadata.go:70-81 | appends the encoded value and its encoding, and keeps what was there |
| InstanceMetadata.Config.SetInitData | pkg/providers/instance/instance_metadata.go:54-65 | the four options of a supported format in order, with empty user data if rendering failed; an unsupported format changes nothing |
| YamlBlock.RoundTrip | pkg/providers/userdata/cloud-config.go:19-20 | the padded lines of a readable content, read as a literal block, give the content with its trailing empty lines dropped, and the reader stops after the block |
| YamlBlock.NoBlockBelowKey | pkg/providers/userdata/cloud-config.go:19-20 | lines indented no further than the key are not read as its content |
| YamlBlock.BlockRoundTrip | pkg/providers/userdata/cloud-config.go:12-25 | for content that is not blank, the block reads back with trailing line feeds replaced by one if and only if the first line that is not blank starts in the first column after empty lines only |
| CloudConfig.IndentText | pkg/providers/userdata/cloud-config.go:30-42 | every line padded and ended by a line feed |
| CloudConfig.RenderFiles | pkg/providers/userdata/cloud-config.go:16-21 | the entries of all files in order |
| CloudConfig.Render | pkg/providers/userdata/cloud-config.go:27-64 | additional files and commands come after the generated ones, unreadable additional data is an error that changes nothing, and the text is that of the files and commands then held |
| CloudConfig.EntryReadsBack | pkg/providers/userdata/cloud-config.go:17-20 | a rendered entry in front of others reads back with its path, permissions and content |
| CloudConfig.RenderedFilesReadBack | pkg/providers/userdata/cloud-config.go:12-25 | from the rendered text every file is read back, in order |
| CloudConfig.RenderedCommandsReadBack | pkg/providers/userdata/cloud-config.go:22-25 | from the same text every command is read back, in order, whatever the files hold |
| CloudConfig.OneFileDocument | pkg/providers/userdata/cloud-config.go:12-25 | the lines of the text with one file and one command, by the keys that cloud-init looks for |
| CloudConfig.ContentKeyIndent | pkg/providers/userdata/cloud-config.go:19 | the indentation below which a reader looks for the content is that of the key |
| CloudConfig.ButaneIndentIsIndent | pkg/providers/userdata/ignition.go:60-65 | the other indentation function makes the same block |
| Taints.FormatTaints | pkg/providers/userdata/rke2common.go:24-35 | one argument per taint in order, the value left out if empty |
| Taints.ReadBackIff | pkg/providers/userdata/rke2common.go:24-35 | a taint is read back if and only if key and value are free of `=` and `:` and the effect of `:` |
| Taints.ConfigReadsBack | pkg/providers/userdata/rke2common.go:12-21 | from the text of the configuration exactly the taints are read, in order |
| AgentConfig.KeysRead | pkg/providers/userdata/rke2common.go:12-21 | for all values the agent reads the server, the token, the one kubelet argument and the texts of the taints under their own keys |
| InitData.GetCommon | pkg/providers/userdata/rke2common.go:37-60 | the generated file with its path, permissions and owner, and the four commands |
| InitData.ConfigIsRenderable | pkg/providers/userdata/rke2common.go:44-52 | the agent's configuration always reads back from a cloud-config |
| InitData.TaintsReachAgent | pkg/providers/userdata/rke2common.go:12-60 | from the rendered cloud-config the agent reads exactly its taints, in order, whatever other files and commands there are |
| InitData.ConfigReachesAgent | pkg/providers/userdata/rke2common.go:12-60 | and so it reads the server, the token and the argument under their keys, from the file at the path and with the permissions that RKE2 expects |
| InitData.HostnameReadsBack | pkg/providers/userdata/cloud-config.go:12-14 | the name of the host is read under `hostname` |
| InitData.GetInitData | pkg/providers/instance/instance_metadata.go:35-66 | the guest decodes exactly the rendered cloud-config, or nothing at all if the additional user data could not be read |
| ProviderId.ParsePrefers | pkg/utils/utils.go:29-40 | the id parsed is the second group of the match that the regular expression finds, leftmost and greedy, and there is none exactly if it does not match |
| ProviderId.RoundTripIff | pkg/cloudprovider/cloudprovider.go:133 | an id comes back from its provider id if and only if it is one line without `://` |

## Left out

- vSphere and Kubernetes clients, login, inventory search, clone and power tasks, events: only the effect of calls on the objects is modelled, their outcomes are parameters.
- Informer caches: reads see the stored objects. `Termination` states this as the guards of its steps; a launch that reads a stale class is not covered.
- Other writers of the two hash annotations, and two reconciles of one class at a time, which controller-runtime rules out: `HashMigration` has one hash controller per class.
- `hashstructure`: the hash is an arbitrary function, so collisions are not excluded and count as equal specs.
- Karpenter core's compatibility and fitting of instance types: the launched type is any type of the class.
- The butane and ignition translation and merge, `parseOwner`, the Go template engine and YAML parsing of additional user data: rendered text is written directly, additional data is a parameter.
- Semantic version parsing: `KubernetesVersion` takes an arbitrary parser that rejects the empty text where that is needed.
- The cluster filter of the instance list, the power-state comparison and `GenerateNodeClaimName`: the cloud listing is a parameter of garbage collection.
- The existence check before cloning: it does not prevent a second clone, so no claim about repeating `Create` holds.
- `GenerateVMName`, memory in MB of the clone, single-valued requirement labels, `GiToMb`: single expressions.
- Errors of the tag manager other than "not found", which the code treats alike.
- Finalizers are a set in `Termination`; order and repetitions are in `ObjectPatches`, where they are a list.
- HashMigration.NoSpuriousDrift: a claim reported before the migration, by annotations of an old version, is excepted, because the code does report it until the class is patched.
- KubernetesVersion.RunningMaximum: starts from a status that can be parsed; the exception is the subject of WedgedIffUnreadable.
- Devices.GetDeviceSpec: takes the device keys of the template to be distinct, as vSphere guarantees.
- InstanceMetadata.Config.EncodeData: requires that the loop ends, since the provider does not return otherwise.
- InstanceTypes.InstanceTypesFromNodeClass: quantities are texts, so that texts that cannot be parsed, on which the provider panics, are not told apart.
- YamlBlock.BlockRoundTrip: does not consider carriage returns and characters that YAML forbids in plain text.
- InitData.ConfigReachesAgent: reads values as they stand in their lines, without the rules of YAML for plain scalars, in which a value may begin a comment.
- CloudConfig.RenderedFilesReadBack: reads path and permissions as they stand in the text, without the rules of YAML for plain and quoted scalars.
- GcTiming.SafeIffBounded: assumes one clock for creation dates and age checks, and at most one running machine to a claim (`Launchable`).
- GarbageCollection.OrderIndependentIff: an id names at most one machine, the moment at which each worker looks at the clock is fixed, and nobody but the workers changes machines or nodes meanwhile; `GcTiming` has the clock and the others.
- GarbageCollection.VmsSettled: promises that the machines left do not depend on the order without a race only, because a worker whose destroy call is refused leaves its machine powered off, and another worker cannot take it away then.
- GarbageCollection.CleanPassRemovesExactly: is about complete passes; one whose context was cancelled can end without error before all workers began.
- Termination.GoneMeansQuiet: nobody but the two controllers adds the termination finalizer to an existing class or removes it.
- Termination.Cluster.ReconcileStatus: does not promise that the stored class is ready after success, because nothing is written for a class that is gone or for a copy whose status does not change.
- HashController.Controller.UpdateNodeClaimHash: what others do to claims besides deleting them after the list is in `HashMigration`.
