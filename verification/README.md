# A verified model of Kubemox's protocols

Kubemox is a Kubernetes operator that manages Proxmox guests: virtual machines, their
templates and LXC containers. Its hard parts are small protocols run against a world that
others change too: the API server, and a Proxmox host that people also edit by hand. This
project models those protocols in Dafny and proves what they guarantee over every run.

`dafny verify dfyconfig.toml` checks all of it.

## What is modelled

Each protocol comes in two layers. Code that changes state is a class with methods
(`ApiServer`, `ClientCache`, `Host`, `ProxmoxClient`, `ContainerReconciler`, `Cluster`,
`VmConfig`, `Guest`), proved against specification functions or two-state relations. Those
same functions and relations are the steps of state machines in which other actors move too,
and the main results are invariants and theorems over all runs of the machines.

| file | subject |
|---|---|
| `GuestName.dfy`, `Ownership.dfy`, `Admission.dfy` | which resource owns a guest name: the orders, the ownership gate, single writer and handover over runs, the name webhook |
| `Credentials.dfy`, `Rotation.dfy`, `ConnectionReconciler.dfy` | resolving credentials, the client cache, and what both guarantee while Secrets rotate |
| `ContainerHost.dfy`, `Containers.dfy`, `Coherence.dfy` | the container caches, deletion and polling against a host that others change |
| `Lifecycle.dfy`, `Replacement.dfy`, `RightGuest.dfy` | finalizer and deletion, OCI-image replacement, and which guests are never replaced, with a crash possible after every effect |
| `ContainerPass.dfy`, `ContainerController.dfy` | the reconcile itself, call by call, with others at work before every call: its history is a run of that machine |
| `Reached.dfy` | runs from a new object that reach each condition under which a result about containers fails |
| `Certs.dfy` | several replicas issuing one webhook certificate with optimistic concurrency |
| `VmSet.dfy`, `Generics.dfy`, `Pci.dfy`, `Disks.dfy` | desired/actual reconcilers: scaling, diffs, PCI devices, the order of disks |
| `OciNaming.dfy`, `IpConfig.dfy`, `Text.dfy` | names and text formats, with the string functions they use |
| `Ordering.dfy`, `Wrappers.dfy` | the string order of Go; Option and Result, replies that may be lost, merge patches |

The lifecycle results are about every run in which host names are unique. Guests may be
created, destroyed and changed by others at any time, any free VMID may be given out again,
and a guest may be cloned from a template or created from an image.

Some properties of the code hold only under a condition. Each such condition is exact:

* A guest has a single writer in every continuation without further harm exactly when the
  step is not `Ownership.Harmful`: it neither places an earlier claim on a guest that a
  running reconcile can write to, nor moves an object off its guest while its reconcile
  holds the finalizer (`SingleWriterExactly`; `RenameOntoBusyGuest` is such a run).
* A guest can never be orphaned exactly when its name is not cached under another VMID at
  the moment it is created (`NeverOrphansExactly`). Otherwise the deletion asks for the
  wrong VMID, finds it gone and lets the object go (`UnfitReached` and `OrphanReached` are
  such runs from a new object).
* The applied image in the status is true ever after exactly when the guest is not created
  under a VMID whose cached object, left over from another container, carries tags that
  name some other image, while the object may still adopt it (`NeverLiesExactly`).
  A replacement that gets its old VMID back, the caches being as the deletion left them, is
  never of that kind (`OwnVmidBack`); `HarmfulReached` and `WrongImageReached` are runs
  from a new object.
* A guest made of the wanted image is never deleted to be made again, wherever the operator
  crashed before it recorded the image, exactly when its creation does not meet, cached under
  its VMID and while the object may still adopt it, an object left over from another container
  whose tags are not blank and do not name that image (`NeverWastesExactly`; `SpoilingReached`
  and `WasteReached` are runs from a new object, with any tag that people might set themselves).
* With automatic start, an undisturbed reconcile without faults of a kept guest that is there
  ends with it running exactly unless the cached object shows it running in its wanted size
  although it is stopped (`Reconcile`; `DeceivedReached` is a run to such a cache).
* An undisturbed reconcile without faults reaches the wanted state exactly from a `Promising`
  one, and a poll followed by such a reconcile does so exactly unless the VMID cached for the
  name was given to another container that passes for the guest, or the guest is to be cloned
  and its template is not found (`PollAndReconcile`; `MistakenReached` is a run to such a state).
* A NotFound of `DeleteContainer` is true exactly when a cached VMID, if there is one, was
  that of every container of the name (`NotFoundExactly`); asked again, it is always true
  (`SecondNotFoundIsTrue`).
* The container caches stay coherent exactly when no VMID is handed out while another
  container is cached under it (`StepCoherentExactly`, `RunCoherentExactly`); with fresh
  VMIDs that is always so.
* The replicas agree on one certificate in every run of a time window exactly when no
  certificate comes up for renewal in it (`AgreementExactly`).
* The diff of desired and actual items is right for every guest exactly when no two different
  desired items share a key (`ChangesRightExactly`).
* A pass that creates and updates the machines of a set succeeds exactly when no expected
  object fails to be written or is controlled by somebody else (`CreateOrUpdateVirtualMachineCRs`).
* Two passes bring a set of virtual machines in line exactly when the first scales down, or no
  expected object is being deleted, or none has to go (`TwoPassesExactly`); three always do.
* A request checked against a listing keeps guests unshared exactly when the listing shows
  every other claim on the guest (`ListingExactly`).
* PCI devices and IP configurations read back from their own text exactly in the cases given
  by `Pci.Writable` and `IpConfig.Printable`; sorting disks is determined exactly when no two
  different disks share storage and device (`DeterminedExactly`).

## Model

| member | source | states |
|---|---|---|
| `GuestName.SameGuestIsEquivalence` | pkg/guestname/guestname.go:66-74 | same guest is reflexive, symmetric and transitive for every case folding; the update check of the webhook and the permutation result rest on it |
| `GuestName.SameGuestExactly` | pkg/guestname/guestname.go:58-74 | two claims share a guest exactly when space, connection, node and name agree, the name of a virtual machine up to case |
| `GuestName.BeforeIsStrictTotalOrder` | pkg/guestname/guestname.go:86-99 | before is irreflexive, asymmetric, transitive, and connects any two distinct objects |
| `Ordering.LessExactly` | pkg/guestname/guestname.go:86-99 | the string order of the ties: less exactly when, after a common prefix, one ends first or has the smaller character |
| `GuestName.Owner` | pkg/guestname/guestname.go:139-151 | a failed listing fails; otherwise the owner has the place of the caller's guest, was created no later than the caller and than every listed claim on it, and of those created at one time none precedes it by kind, then namespace, then name |
| `GuestName.OwnerIsUnique` | pkg/guestname/guestname.go:132-151 | every permutation of the listing and every claim on the guest give the same owner |
| `GuestName.List` | pkg/guestname/guestname.go:103-130 | each listed Container, or each virtual machine and then each template, gives a claim with its own kind, object, creation time, connection, node and guest; any failed listing fails |
| `Ownership.ClaimGuest` | internal/controller/proxmox/guestname.go:31-75 | lets only the owner through and clears its mark; a deleted non-owner is let go and its object is gone; any other is marked with owner, guest, node and generation and waits 30 seconds, without a write if it is marked so already; a write that fails or finds the object gone ends the claim and changes nothing; no other object is touched |
| `Ownership.OwnerIsOldest` | pkg/guestname/guestname.go:86-99 | over the stored objects the owner of a guest is the one created first, ties by kind, namespace and name |
| `Ownership.OneOwnerPerGuest` | pkg/guestname/guestname.go:132-151 | at most one live object per guest passes the gate |
| `Ownership.StepKeepsInv` | internal/controller/proxmox/container_controller.go:80-167 | every step that is not harmful, whatever it is, keeps: whoever passed the gate and can still write owns the guest it is about to write to, and holds the finalizer before it does |
| `Ownership.SingleWriter` | internal/controller/proxmox/guestname.go:27-31 | in every run without harmful steps, with any number of objects, whoever mutates or destroys a guest is the live object with the least claim on it, still claims that guest, and nobody else is armed for it |
| `Ownership.SingleWriterExactly` | internal/controller/proxmox/guestname.go:27-47 | after any step there is a single writer in every continuation without further harm if and only if the step is not harmful |
| `Ownership.HarmShows` | internal/controller/proxmox/container_controller.go:88-157 | after a harmful step a worker reaches a write out of order within two of its own steps |
| `Ownership.OwnerKeptExactly` | pkg/guestname/guestname.go:132-138 | an owner that is not itself edited or removed loses its guest in a step exactly when the step puts an earlier claim on it; being deleted, later creates, leaving non-owners and conflict marks never do |
| `Ownership.LaterCreateTakesNothing` | pkg/guestname/guestname.go:86-99 | an object created later than the owner leaves the owner as it is |
| `Ownership.ReleasedAtClaim` | internal/controller/proxmox/guestname.go:50-57 | a deleted object that owns no guest leaves at its next claim without a fault |
| `Ownership.LeavesWhenDeleted` | internal/controller/proxmox/guestname.go:50-57 | an object leaves only when deleted: at once if nothing holds it, at a claim that shows it owns nothing, or released by a worker that has read it as it is now |
| `Ownership.DeletionCompletes` | internal/controller/proxmox/guestname.go:31-75 | every object that nobody reconciles can be deleted and is gone by steps of its own, of which only an owner writes to the guest |
| `Ownership.QueueStep` | pkg/guestname/guestname.go:86-99 | a waiting object's queue of earlier claims loses at most the object a step touches and gains none, and shrinks by one when that object leaves |
| `Ownership.Handover` | pkg/guestname/guestname.go:132-151 | over any run in which nobody cuts in, an object becomes owner exactly when all that were queued before it have left, and then stays owner |
| `Ownership.RenameOntoBusyGuest` | internal/controller/proxmox/guestname.go:27-47 | a run with two armed writers on one guest when an older object is renamed onto it mid-reconcile |
| `Admission.AdmittedIsAlone` | internal/webhook/proxmox/v1alpha1/name_webhook.go:50-79 | no stored object shares the guest of an admitted create or update, although an update that keeps its guest is not checked |
| `Admission.HistoryKeepsNoSharing` | internal/webhook/proxmox/v1alpha1/name_webhook.go:50-101 | admitted one at a time, in no reachable store do two objects share a guest |
| `Admission.EveryObjectOwnsItsGuest` | internal/webhook/proxmox/v1alpha1/name_webhook.go:66-79 | so every stored object is its own owner as the controllers compute it |
| `Admission.ListingExactly` | internal/webhook/proxmox/v1alpha1/name_webhook.go:54-79 | checked against any listing, current or not, an admitted create or update keeps guests unshared exactly when every other stored claim on the guest was listed |
| `Admission.RefusedExactly` | internal/webhook/proxmox/v1alpha1/name_webhook.go:66-101 | the exact verdict in terms of request, listing and number of Proxmox guests: failed listing, a listed claim of another object on the same place, more than one guest of the name, or admitted, unchecked if Proxmox cannot be asked |
| `Admission.UpdateRefusedExactly` | internal/webhook/proxmox/v1alpha1/name_webhook.go:54-60 | an update is admitted exactly when it keeps its place or passes the same checks |
| `Admission.RacingCreatesShareAGuest` | internal/webhook/proxmox/v1alpha1/name_webhook.go:66-67 | two creates checked against one listing are both admitted; exactly one of them then owns the guest |
| `Credentials.ResolveCredential` | pkg/proxmox/credentials.go:70-102 | a credential comes inline, or it is the non-empty data of its key in the very Secret version reported; both set, a missing Secret, key or value are errors |
| `Credentials.ResolveCredentials` | pkg/proxmox/credentials.go:34-64 | succeeds exactly when password and secret are each inline or in their own Secret, and not both; each is then its own inline value or the data of its own key in its own read; the loop publishes every Secret read exactly once, with the version of its first read |
| `Credentials.PublishedIsBacked` | pkg/proxmox/credentials.go:34-64 | what is published for a Secret is never newer than what any credential was read from, also when one Secret is read twice |
| `Rotation.ClientCache.NewProxmoxClientFromRef` | pkg/proxmox/connection.go:159-211 | a cached client of the very connection version is returned as it is if it logs in by token or was built less than an hour ago; otherwise a client with the connection's own credentials, as resolved from the reads, is built and cached with its time and kind of login; an error changes nothing and never answers with an old client |
| `Rotation.StepKeepsInv` | pkg/proxmox/connection.go:159-202 | every Secret write, connection write, status write, stale read, lookup, reconcile step and restart keeps each cached or answered client at least as new as its connection version publishes |
| `Rotation.RotationHolds` | pkg/proxmox/connection.go:180-202 | in every interleaving, a client in use for a connection version was built from Secret versions no older than those in that version's observedSecrets |
| `Rotation.InStepMeansCurrent` | pkg/proxmox/connection.go:204-208 | when a version publishes the Secret's present version, every client in use for it carries the Secret's present data |
| `Rotation.InlineIsOwn` | pkg/proxmox/credentials.go:44-55 | in every interleaving a client in use for a connection without references carries that connection's own password and secret |
| `Rotation.RotationTakesEffect` | internal/controller/proxmox/proxmoxconnection_controller.go:106-179 | from any reachable state, one reconcile of the present connection and one look-up after it give a client with the data the Secrets hold now, cached for the version that publishes them |
| `Rotation.PublishInvalidates` | internal/controller/proxmox/proxmoxconnection_controller.go:106-143 | a status write that changes anything makes a connection version no client is cached for, one that changes nothing leaves version and clients; if the reconcile read the present version, what it read is published exactly |
| `Rotation.PublishMerges` | internal/controller/proxmox/proxmoxconnection_controller.go:111-131 | what is current after a publish is the merge patch, computed against the version read, laid over what was current |
| `ConnectionReconciler.Reconciler.Reconcile` | internal/controller/proxmox/proxmoxconnection_controller.go:60-146 | the status is merge-patched against the object as read, perhaps a stale one; on a current one Ready holds exactly when the credentials resolve and Proxmox answers, else it carries the error of the password or of the secret, or that of the connection; version changes only with an answer, and observed versions are those read whenever the credentials resolve |
| `ConnectionReconciler.WrittenHolds` | internal/controller/proxmox/proxmoxconnection_controller.go:106-143 | the patch meets that description for every stored status, read object, Secret reads and answer |
| `ConnectionReconciler.PublishesAsInRotation` | internal/controller/proxmox/proxmoxconnection_controller.go:111-140 | the observed Secrets this reconcile leaves are those of the rotation machine's publish step |
| `ConnectionReconciler.Reconciler.ConnectionsForSecret` | internal/controller/proxmox/proxmoxconnection_controller.go:161-179 | exactly the connections referring to the Secret, each once, so every one whose credentials are read from it; none when they cannot be listed |
| `Containers.ProxmoxClient.SetCachedContainerID` | pkg/proxmox/container_cache_methods.go:5-23 | changes one name of one node and nothing else |
| `Containers.ProxmoxClient.DeleteCachedContainerObject` | pkg/proxmox/container_cache_methods.go:73-79 | forgets one object and nothing else |
| `Containers.ProxmoxClient.GetContainerID` | pkg/proxmox/containers.go:137-159 | the cached VMID, else a listed container of that name, which is then cached, else 0 when the node has none |
| `Containers.ProxmoxClient.ContainerExists` | pkg/proxmox/containers.go:161-182 | a cached name exists without asking; a no means the node has no such container |
| `Containers.ProxmoxClient.RefreshContainer` | pkg/proxmox/containers.go:197-229 | success leaves the host's present state cached; NotFound means the VMID is not there and drops both entries; other errors keep the object |
| `Containers.ProxmoxClient.GetContainer` | pkg/proxmox/containers.go:184-195 | like a refresh, except that a cached object is answered as it is |
| `Containers.ProxmoxClient.DeleteContainer` | pkg/proxmox/containers.go:250-321 | for every host and every cache, reused VMIDs included: only a VMID that has the requested name now is touched; a container that runs is stopped and then destroyed, one that does not is only destroyed; if the stop does not complete it is an error and the container stays; NotFound sends nothing and drops the name; success means destroyed and both entries gone; if the reads are fine it is known exactly which of these happens |
| `Containers.ProxmoxClient.StartContainer` | pkg/proxmox/containers.go:323-357 | starts the container that the name resolves to unless a ping shows that it runs; success means it runs and the cache does not show otherwise, and if the reads are fine success comes exactly when the VMID is there and runs or the start completes |
| `Containers.ProxmoxClient.UpdateContainer` | pkg/proxmox/containers.go:396-425 | without faults the container has the wanted cores and memory afterwards exactly unless it had others and a stale object shows the wanted ones; an object that showed others is dropped |
| `Containers.ProxmoxClient.FindContainerNode` | pkg/proxmox/containers.go:231-248 | a node that has an LXC of that name, or none only if no node has; same-named virtual machines do not count |
| `Containers.ProxmoxClient.FetchExternalResource` | pkg/proxmox/fetcher.go:230-275 | removal is reported only if no node of the cluster has an LXC of that name; a migrated container or a failed cluster lookup is another error |
| `Coherence.StepCoherentExactly` | pkg/proxmox/containers.go:137-229 | of look-ups, clones, polls, starts, updates, deletions, restarts and outside changes, only handing out a VMID under which another container is cached spoils the coherence of the caches, and that always does |
| `Coherence.RunCoherentExactly` | pkg/proxmox/container_cache_methods.go:5-79 | so over every run: every cached VMID points at a container of that name or at none, and 0 is never cached, exactly when no VMID is handed out so |
| `Coherence.FreshRunKeepsCoherent` | pkg/proxmox/container_cache_methods.go:5-79 | in a run in which no VMID is given out twice the caches are always coherent |
| `Coherence.StepKeepsValid` | pkg/proxmox/containers.go:137-321 | whatever VMIDs are reused, no operation caches 0 or files an object under another place than its own |
| `Coherence.NotFoundExactly` | pkg/proxmox/containers.go:250-275 | a NotFound is true exactly when a cached VMID, if there is one, was that of every container of the name |
| `Coherence.DeletedExactly` | pkg/proxmox/containers.go:299-320 | a success leaves no container of the name exactly when the name was unique |
| `Coherence.SecondNotFoundIsTrue` | pkg/proxmox/containers.go:252-258 | success and NotFound leave the name uncached, so a NotFound asked for again is true |
| `Coherence.StaleIdHidesRecreated` | pkg/proxmox/containers.go:252-258 | an example of a NotFound that is not true: the container was recreated by hand while its old VMID was cached |
| `Coherence.PollFollowsRecreation` | pkg/proxmox/containers.go:216-221 | after a poll that found the VMID gone, a look-up finds any container created under the name since |
| `Coherence.ReuseExactly` | pkg/proxmox/containers.go:269-274 | a container created by hand under a free VMID keeps the caches coherent exactly when nothing is cached under that VMID with another name |
| `Lifecycle.OciNamesKeepTagLaws` | pkg/proxmox/container_oci.go:51-80 | the real tags satisfy the naming laws the lifecycle results need |
| `Lifecycle.StepKeepsSafe` | internal/controller/proxmox/container_controller.go:246-513 | every orderly step of the reconcile and of others, for clones and images, with any VMIDs and tags, every crash, edit and outside destroy or create, keeps: a guest made for the object has an object that holds the finalizer, and its name is cached under no other VMID |
| `Lifecycle.NoOrphan` | internal/controller/proxmox/container_controller.go:306-340 | in every orderly run with crashes, for cloned guests and images alike, once an unprotected object is gone no guest ever made for it exists |
| `Lifecycle.LeavesWhenDeleted` | internal/controller/proxmox/container_controller.go:306-340 | in every orderly run the object leaves only when deleted, at once if nothing holds it, else after a pass that found it as it had read it, and whether its guest may stay is decided by the protection then stored |
| `Lifecycle.VersionTells` | internal/controller/proxmox/container_controller.go:246-256 | in every run the version is the same at two times exactly when the object is |
| `Lifecycle.NeverOrphansExactly` | pkg/proxmox/container_oci.go:350-367 | after a creation no orderly continuation orphans the guest if and only if its name was not cached under another VMID |
| `Lifecycle.Orphan` | pkg/proxmox/containers.go:252-258 | the run that orphans it otherwise |
| `Replacement.StepKeepsTruth` | internal/controller/proxmox/container_controller.go:342-451 | every orderly and honest step keeps: an applied image is that of the guest made for the object, whose tag is that of its reference |
| `Replacement.AppliedImageIsTrue` | internal/controller/proxmox/container_controller.go:342-424 | in every orderly and honest run with crashes and reused VMIDs, a recorded applied image and the existing guest made for the object carry the same tag, and that guest is the only one of its name |
| `Replacement.NeverLiesExactly` | internal/controller/proxmox/container_controller.go:386-408 | after a creation the applied image is true in every such continuation if and only if no misleading object is cached under the VMID while the object may still adopt it |
| `Replacement.WrongAdoption` | pkg/proxmox/containers.go:184-195 | the run that records a wrong image otherwise |
| `Replacement.OwnVmidBack` | pkg/proxmox/containers.go:316-318 | a replacement that gets the VMID of the guest it deleted is neither misled nor out of order |
| `RightGuest.StepSpares` | internal/controller/proxmox/container_controller.go:386-424 | every orderly and honest step but a spoiling creation keeps: no cached object shows a guest made for the object with tags of another image, and no pass is about to replace a guest made of the wanted image |
| `RightGuest.RightGuestIsKept` | internal/controller/proxmox/container_controller.go:386-408 | in every run of such steps no guest made of the wanted image is deleted to be made again, also after a crash between its creation and the recording of its image |
| `RightGuest.NeverWastesExactly` | internal/controller/proxmox/container_controller.go:386-424 | after a creation that holds in every such continuation if and only if the creation is not spoiling |
| `RightGuest.Wasted` | pkg/proxmox/containers.go:184-195 | the run that deletes the right guest otherwise |
| `ContainerController.ContainerReconciler.HandleFinalizer` | internal/controller/proxmox/container_controller.go:246-256 | the finalizer is stored before the pass goes on; a failed or conflicting write ends the pass |
| `ContainerController.ContainerReconciler.DeleteContainerForReplace` | internal/controller/proxmox/container_controller.go:504-513 | a guest already gone counts as deleted; other errors end the pass; undisturbed, a guest that runs is stopped before it is destroyed, and stays if the stop does not complete; success leaves no guest of the name exactly when things were clear |
| `ContainerController.ContainerReconciler.ReconcileOCIImageDrift` | internal/controller/proxmox/container_controller.go:350-424 | an unchanged image deletes nothing; with no image recorded, tags that are blank or have the tag of the wanted image keep the guest, record the image and send nothing, while the tags of another image do not keep it; undisturbed and without faults the guest is kept or can be made exactly from a promising state |
| `ContainerController.ContainerReconciler.RightGuestIsFound` | internal/controller/proxmox/container_controller.go:386-408 | in a good history a guest made of the wanted image, with none recorded yet, is found with tags that keep it |
| `ContainerController.ContainerReconciler.NothingWasted` | internal/controller/proxmox/container_controller.go:350-424 | and no pass of a good history has deleted such a guest |
| `ContainerController.ContainerReconciler.CreateContainerFromOCIImage` | pkg/proxmox/container_oci.go:322-368 | adds the guest, and nothing else, under any free VMID, with the tag of its reference and the defaults for cores and memory, and looks it up; a task that fails may still leave a guest behind, which the history records |
| `ContainerPass.OciGuestIs` | pkg/proxmox/container_oci.go:289-320 | the guest has the wanted name and the tag of its reference, is made stopped, and has the wanted cores and memory, or 1 and 512 if fewer than 1 and 16 are asked for |
| `ContainerController.ContainerReconciler.CloneContainer` | pkg/proxmox/containers.go:88-135 | adds a copy of whatever container the template's name resolves to under any free VMID, which is cached once the task has completed and not before; without faults it succeeds exactly when that VMID is there |
| `ContainerController.ContainerReconciler.HandleCloneContainer` | internal/controller/proxmox/container_controller.go:287-304 | undisturbed success means guest and status are as wanted and the guest runs; the image is recorded only after the guest was created and started |
| `ContainerController.ContainerReconciler.StartContainer` | pkg/proxmox/containers.go:323-357 | success means the container the name resolves to runs; nothing else is created, destroyed, renamed or tagged |
| `ContainerController.ContainerReconciler.UpdateContainer` | internal/controller/proxmox/container_controller.go:204-214 | without faults and with an up-to-date cache the container has the wanted cores and memory, also if writing the object back fails |
| `ContainerController.ContainerReconciler.StartOrUpdateContainer` | internal/controller/proxmox/container_controller.go:258-285 | without faults and with an up-to-date cache a stopped guest is started and a running one gets its cores and memory |
| `ContainerController.ContainerReconciler.HandleAutoStart` | internal/controller/proxmox/container_controller.go:453-474 | nothing happens if it is not wanted; else a guest whose look is not deceived is started if it is stopped; one that runs or has its size keeps that, and the object is not written |
| `ContainerController.ContainerReconciler.HandleContainerOperations` | internal/controller/proxmox/container_controller.go:426-451 | undisturbed and without faults it ends with the guest present and the spec applied exactly when it began promising |
| `ContainerController.ContainerReconciler.HandleContainerDeletion` | internal/controller/proxmox/container_controller.go:476-502 | a protected guest is not touched; otherwise undisturbed success leaves no guest of the name exactly when things were clear before, and one that runs is stopped first and stays if the stop does not complete |
| `ContainerController.ContainerReconciler.HandleDelete` | internal/controller/proxmox/container_controller.go:306-340 | the first pass only marks the object; a later one without faults removes the object, and the guest exactly when things were clear; one that runs is stopped first and stays if the stop does not complete |
| `ContainerController.ContainerReconciler.Reconcile` | internal/controller/proxmox/container_controller.go:80-167 | each pass is a run of the lifecycle machine, whatever others do before any of its calls; undisturbed it keeps a tidy history tidy and, without faults, reaches the wanted state exactly from a promising one; once that is reached no pass stops or destroys anything, faults and others or not, and an undisturbed one does not write the object; a guest made of the wanted image in a good history is left alone also before that image is recorded; automatic start works exactly unless the cache deceives |
| `ContainerController.ContainerReconciler.Operate` | internal/controller/proxmox/container_controller.go:80-187 | over any number of passes in any weather, with people, the watcher, passes over other objects and restarts between them and before their calls: no guest is orphaned if the history is orderly, the applied image is true if it is honest too, and no right guest was made again if no creation was spoiling |
| `ContainerController.ContainerReconciler.NeverOrphaned` | internal/controller/proxmox/container_controller.go:132-157 | an orderly history, whoever took part in it, has orphaned no guest |
| `ContainerController.ContainerReconciler.AppliedIsTrue` | internal/controller/proxmox/container_controller.go:342-451 | in an orderly and honest history the applied image is that of the guest made for the object |
| `ContainerController.ContainerReconciler.PollAndReconcile` | pkg/proxmox/fetcher.go:230-275 | however stale the caches, a poll and an undisturbed pass without faults reach the wanted state exactly unless the VMID cached for the name was given to another container that passes for the guest, or there is no template to clone; in a tidy history the guest then runs |
| `ContainerController.ContainerReconciler.Settle` | internal/controller/proxmox/container_controller.go:258-285 | two such rounds in a tidy history leave the guest present, of its image, running, and with the wanted cores and memory |
| `ContainerPass.CreationKeepsTidy` | pkg/proxmox/container_oci.go:322-368 | a creation where the guest is absent and no object but, perhaps, its own was left over in the cache is orderly and honest |
| `ContainerPass.OwnOpKeepsTidy` | pkg/proxmox/containers.go:137-425 | no look-up, read, poll, start, update or own deletion, whatever it answers, hides a guest behind another VMID or leaves an object over |
| `ContainerPass.AbsentExactly` | pkg/proxmox/containers.go:250-321 | a deletion that succeeds or finds nothing leaves no guest of the name exactly when at most one had it and none was hidden behind another cached VMID |
| `ContainerPass.PollPromises` | pkg/proxmox/containers.go:197-229 | after a poll the state is promising exactly unless another container is taken for the guest or there is no template to clone it from |
| `ContainerPass.SeenByGet` | pkg/proxmox/containers.go:184-195 | whose tags a faultless look at a cached name shows, be it a stale object or another container |
| `Reached.UnfitReached` | pkg/proxmox/container_oci.go:350-367 | a run from a new object, orderly so far, to a creation whose name is cached under another VMID |
| `Reached.OrphanReached` | pkg/proxmox/containers.go:252-258 | and on to the orphaned guest, that creation being the only step out of order |
| `Reached.HarmfulReached` | internal/controller/proxmox/container_controller.go:386-408 | for any two references with different tags, a good run from a new object to a harmful creation |
| `Reached.WrongImageReached` | pkg/proxmox/containers.go:184-195 | and on to a wrong applied image, every step orderly and that creation the only dishonest one |
| `Reached.MistakenReached` | pkg/proxmox/containers.go:197-229 | a good run from a new object after which another container is taken for its guest |
| `Reached.SpoilingReached` | internal/controller/proxmox/container_controller.go:386-408 | for every tag that names no image, a good run from a new object to a spoiling creation |
| `Reached.WasteReached` | internal/controller/proxmox/container_controller.go:409-424 | and on to the deletion of the guest made of the wanted image, every step orderly and honest |
| `Reached.WordNamesNothing` | pkg/proxmox/container_oci.go:68-80 | every tag word that does not start with img- names no image, so it is of that kind |
| `Reached.DeceivedReached` | pkg/proxmox/containers.go:184-195 | a run of a guest seen running and then stopped by hand, which every cached look goes on showing running |
| `Certs.StepKeepsInv` | internal/webhook/certs/certs.go:51-84 | every read, issue, failed issue, write, refused write, lost write and tick keeps the agreement invariant, and a settled Secret is not changed |
| `Certs.UsableIsKept` | internal/webhook/certs/certs.go:60-81 | with no renewal due in the run, a stored usable certificate is never overwritten |
| `Certs.RetriesAreBounded` | internal/webhook/certs/certs.go:53-83 | no replica has a second write refused, and one refused write is followed by a successful read, so the final error is never reached |
| `Certs.GivesUpExactly` | internal/webhook/certs/certs.go:53-83 | in every run, renewals or not, a replica reaches the final error exactly when three of its writes were refused with AlreadyExists or Conflict |
| `Certs.KeysAreTheirOwn` | internal/webhook/certs/certs.go:95-124 | in every run no two replicas are about to store the same certificate |
| `Certs.AgreementExactly` | internal/webhook/certs/certs.go:49-93 | all successful replicas return the same stored Secret in every run of a window exactly when no certificate comes up for renewal in it |
| `Certs.Disagreement` | internal/webhook/certs/certs.go:86-93 | the run in which two replicas return different Secrets otherwise |
| `Certs.Cluster.EnsureCertSecret` | internal/webhook/certs/certs.go:51-84 | the three-attempt loop, with arbitrary interference between its calls, returns the stored Secret, good for more than 30 days, either the one there at the start or one issued meanwhile for ten years; it fails only when one of its own calls is lost or a key cannot be generated |
| `Generics.ClassifyItems` | pkg/proxmox/generics.go:13-42 | the three loops compute the items to add, update and delete |
| `Generics.LastCounts` | pkg/proxmox/generics.go:14-20 | of actual items that share a key the last one counts |
| `Generics.Guest.ApplyChanges` | pkg/proxmox/generics.go:44-90 | adds, then updates, then deletes, up to the first failing call, which may still have taken effect |
| `Generics.PlanInTurn` | pkg/proxmox/generics.go:44-90 | all additions come first, then the updates, then the removals, each in the order of its list |
| `Generics.ChangesHas` | pkg/proxmox/generics.go:22-40 | the effects are exactly those called for: a desired item missing or different is set, an actual one not desired is removed |
| `Generics.ChangesReachDesired` | pkg/proxmox/virtualmachine.go:1002-1030 | applying all changes to any actual items gives exactly the desired ones |
| `Generics.ChangesRightExactly` | pkg/proxmox/generics.go:13-42 | that holds for every guest exactly when no two different desired items share a key |
| `Generics.PrefixIsBetween` | pkg/proxmox/generics.go:55-89 | however far the changes get, each key is as it was or as wanted |
| `Generics.NothingToChange` | pkg/proxmox/generics.go:13-42 | the three lists are empty exactly when the guest has what is desired |
| `Generics.EachInOneClass` | pkg/proxmox/generics.go:22-33 | every desired item is added, updated or left alone, as often as it is listed |
| `Generics.FilterKeepsOrder` | pkg/proxmox/generics.go:22-40 | the classes keep the order of their list |
| `Pci.ParseSinglePCIConfiguration` | pkg/proxmox/virtualmachine.go:1414-1443 | the loop with its early error computes the parse function |
| `Pci.ReadsExactly` | pkg/proxmox/virtualmachine.go:1414-1443 | a text is read exactly when every option after the first has an equals sign; pcie and x-vga are set by their mere presence, and the kind by the mapping prefix |
| `Pci.TextIs` | pkg/proxmox/virtualmachine.go:1445-1460 | the text is the id, after mapping= if mapped, then pcie=1 and x-vga=1 where wanted |
| `Pci.ReadsBackExactly` | pkg/proxmox/virtualmachine.go:1414-1460 | a device reads back from its own text exactly when its id has no comma and, if raw, no mapping prefix |
| `Pci.VmConfig.ApplyPCIChanges` | pkg/proxmox/virtualmachine.go:1343-1385 | every wanted entry is there, entries read and not wanted are gone, others stay; a restart is asked for exactly when the devices read differ from the desired ones; if a call fails, applied or not, every entry is as it was or as it is to be |
| `Pci.VmConfig.ConfigureVirtualMachinePCI` | pkg/proxmox/virtualmachine.go:1274-1332 | entries that cannot be read are skipped; an empty wish list changes nothing; the machine is restarted exactly when a device changed, and left stopped only with all written, after a stop whose answer is lost or a start that failed |
| `Pci.TargetHas` | pkg/proxmox/virtualmachine.go:1343-1385 | the result has hostpci0 to hostpci(n-1), the entries that cannot be read, and no others |
| `Pci.TargetIs` | pkg/proxmox/virtualmachine.go:1343-1385 | entry hostpci i keeps its text if that reads as device i and otherwise gets that device's text; entries that cannot be read keep theirs |
| `Pci.SecondRunQuietExactly` | pkg/proxmox/virtualmachine.go:1343-1385 | a second run changes nothing and asks for no restart exactly when every desired device is writable |
| `Pci.SomeWritten` | pkg/proxmox/virtualmachine.go:1346-1366 | writing any number of the entries leaves each as it was or as wanted |
| `Disks.SortDisks` | pkg/proxmox/virtualmachine.go:1230-1238 | sorts in place by storage, then device, keeping the disks |
| `Disks.SameDisksExactly` | pkg/proxmox/fetcher.go:105-111 | with no shared slots, two lists compare equal after sorting exactly when they hold the same disks |
| `Disks.DeterminedExactly` | pkg/proxmox/virtualmachine.go:1230-1238 | the sorted list is determined exactly when no two different disks share storage and device |
| `VmSet.Cluster.ScaleDownVMs` | internal/controller/proxmox/virtualmachineset_controller.go:228-246 | deletes the listed objects of unexpected names; an expected one is never touched, also when a call fails |
| `VmSet.Cluster.CreateOrUpdateVirtualMachineCRs` | internal/controller/proxmox/virtualmachineset_controller.go:161-220 | succeeds exactly when no expected object fails to be written or is controlled by somebody else, and then every one is there, controlled and labelled by the set, but for those that somebody else creates at the last moment; objects of others and unexpected ones are never touched, also when a call fails |
| `VmSet.Cluster.HandleVMsetOperations` | internal/controller/proxmox/virtualmachineset_controller.go:258-291 | one pass either creates and updates, exactly as above, or deletes the objects that carry the set's label under an unexpected name and writes the status, which may fail when the work is done |
| `VmSet.TwoPassesConverge` | internal/controller/proxmox/virtualmachineset_controller.go:258-291 | from any objects none of which is being deleted, and any replica count, two passes and their deletions leave exactly set-0 to set-(n-1), each as wanted |
| `VmSet.ExactMeans` | internal/controller/proxmox/virtualmachineset_controller.go:161-246 | in that state exactly the objects set-0 to set-(n-1) carry the label, controlled by the set and not being deleted |
| `VmSet.TwoPassesExactly` | internal/controller/proxmox/virtualmachineset_controller.go:258-291 | from any objects at all, two passes are enough exactly when the first scales down, or no expected object is being deleted, or no other object has to go |
| `VmSet.ThreePassesConverge` | internal/controller/proxmox/virtualmachineset_controller.go:258-291 | from any objects at all, three passes are always enough |
| `VmSet.FixpointExactly` | internal/controller/proxmox/virtualmachineset_controller.go:258-291 | a pass and its deletions leave any objects as they are exactly when nothing is being deleted and the set is as it should be |
| `VmSet.DedicatedDevices` | internal/controller/proxmox/virtualmachineset_controller.go:186-197 | in dedicated mode machine i gets device entry i, or none beyond the list; different entries each go to one machine and no other |
| `VmSet.SharedDevices` | internal/controller/proxmox/virtualmachineset_controller.go:183-199 | in shared mode every machine of the finished set has all devices of the pool; without a pool it has those of its template |
| `VmSet.StaysOurs` | internal/controller/proxmox/virtualmachineset_controller.go:173-177 | the second pass meets no foreign object if the first one met none |
| `OciNaming.OciReferenceToFileBase` | pkg/proxmox/container_oci.go:82-108 | the loops terminate and compute one-pass collapsing of dash runs, trimming, cutting and lowering |
| `OciNaming.CollapseAfterReplace` | pkg/proxmox/container_oci.go:99-101 | one replacement round keeps the collapsed form |
| `OciNaming.FileBaseIsCanonical` | pkg/proxmox/container_oci.go:82-108 | the result has only a-z, 0-9 and single inner dashes, and at most 200 characters |
| `OciNaming.FileBaseIdempotent` | pkg/proxmox/container_oci.go:82-108 | normalising twice is normalising once |
| `OciNaming.TagShape` | pkg/proxmox/container_oci.go:49-66 | every non-blank reference gives a charset-safe tag of at most 120 characters starting with img-; a blank one gives none |
| `OciNaming.TagFoundInList` | pkg/proxmox/container_oci.go:68-80 | the image is found in a semicolon list exactly when its reference is not blank and one of the fields, trimmed, is its tag |
| `OciNaming.TagOfAnother` | pkg/proxmox/container_oci.go:51-80 | the tag written for one reference is taken for another's exactly when that other is not blank and their tags are equal |
| `OciNaming.SimpleTag` | pkg/proxmox/container_oci.go:49-66 | the tag of a reference of up to 116 letters, digits and single separators is img- and that reference in lower case with a dash for each separator |
| `OciNaming.SimpleTagsEqualExactly` | pkg/proxmox/container_oci.go:49-108 | two of these have one tag exactly when they differ at most in upper case and in which separators they have |
| `OciNaming.DigestTag` | pkg/proxmox/container_oci.go:28-66 | a reference without letters and digits has its digest for a tag |
| `IpConfig.IPConfigParser` | pkg/proxmox/virtualmachinetemplate.go:542-579 | the loop over pairs computes the parse function |
| `IpConfig.PairsAreRead` | pkg/proxmox/virtualmachinetemplate.go:545-577 | what each pair sets: ip, its mask, gw, ip6 without mask and gw6; other keys and text without a key set nothing |
| `IpConfig.AssignedIsPrintable` | pkg/proxmox/virtualmachinetemplate.go:545-577 | whatever the text, no field read has a comma and the address has no slash |
| `IpConfig.ReadsBackExactly` | pkg/proxmox/virtualmachinetemplate.go:403-412 | gateway, address and mask come back exactly when gateway and mask have no comma and the address neither comma nor slash; the whole configuration when, besides, it has no IPv6 part |
| `Text.SplitJoin` | pkg/proxmox/virtualmachine.go:1414-1460 | splitting undoes joining when the separator is in none of the parts |
| `Text.NumberedNamesDiffer` | internal/controller/proxmox/virtualmachineset_controller.go:232-235 | numbered names with one prefix are told apart by their number |

## Left out

- HTTP, TLS, tracing, metrics, events, logging, RBAC, charts and the go-proxmox library: Proxmox is a host that answers listing, reading, start, stop, configure, destroy and create, each of which may fail.
- Unicode case tables: case folding is a parameter and every result holds for each folding; the name normaliser is modelled on characters, not on UTF-8 bytes.
- The contents of keys and certificates: a certificate is an identity with an expiry date. SHA-256 is a function to a plain digest.
- Real time: tasks are outcomes, creation times are integers, and the certificate clock is a number that only grows. Effects of a task that start after its wait timed out are decided when the call returns.
- Races inside one call of the container client: reading and destroying, starting or updating are one step; outside changes happen between calls.
- Lag between the informers of different kinds: ownership assumes current listings. Creation times are compared as integers, so ties go to kind, namespace and name as in the source.
- EnsureExists, WatchOnly, DryRun and Disable modes of a Container, and switching between `template.name` and `template.image`.
- The lifecycle machine assumes that host names are unique, that containers are not renamed and that the object keeps owning its name; name, node and kind of template are fixed. The results about applied images also assume references that are not blank and that nobody rewrites the tags of a guest made for the object.
- ContainerController.ContainerReconciler.Reconcile: starts from the object as stored, so stale reads of the object itself are not modelled; a crash within a pass is a call that fails there and a restart after the pass.
- VmSet.Cluster.HandleVMsetOperations: which errors its caller answers with a requeue.
- The virtual machine cache and `DeleteVM`, network configuration, disk resizing, snapshots and cloud-init options other than the IP configuration: left out because they add either no clean guarantee or only easy members.
- Status conditions other than those that steer a protocol.

Nothing was executed: all statements are about the model.
