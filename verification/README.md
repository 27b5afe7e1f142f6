# Cluster API provider for Proxmox: a verified model

A Kubernetes controller clones, configures, bootstraps, starts and deletes Proxmox VMs. This project models the
parts of it whose correctness is not visible in any one function, and proves what they keep over whole runs.
`dafny verify dfyconfig.toml` checks everything (Dafny 4.11).

| files | what they model |
|---|---|
| Machines, Stages, MachineController | the machine controller: `Stages` gives every stage of a reconcile as a function of the machine, the record of what was done for it and one observation of the outside; `MachineController` is the same code as a class that updates the machine in place, proved to leave exactly what the function says |
| StageOrder, Readiness, TaskLock, DroppedTasks, Orphans, Ownership, Deletion, Claims, Progress | theorems about runs of that protocol |
| MachineRuns | the reconcile loop on the class, with the theorems stated of it |
| Ledger | status.nodeLocations, edited in place during iteration |
| Score, Scheduler, VmScheduler, Bursts, Capacity, Templates, Vmids | node choice, capacity accounting, template and id search |
| Zones, Fingerprint, ClientCache | endpoint routing: admission, zone clients, the locked client cache as a state machine over all interleavings |
| Network, Ignition | route collision, and the VRF rewrite before rendering |
| SecretKeys, Credentials | adoption, tracking and release of credentials secrets |
| NetDevice | the net device option printed and read back |
| Base, Strings | shared definitions |

How the outside enters: one `Obs` value carries what a reconcile reads (task state, VM listing, claim outcomes, the
clock, whether a patch succeeded), and the theorems quantify over all of them. The machine object is saved whole at
the end of a reconcile. `""` stands for a nil name, node or zone; task ids are integers. The verdict `Failed` stands
for every returned error, a requeue error included. A network prefix is known by its canonical text, which has no
blanks.

What the code does where a plain reading would expect otherwise, each with the lemma that shows it:

- A clone whose placement cannot be patched leaves its VM unrecorded (Orphans.NoOrphanIffPatched).
- Ready does not mean bootstrapped and started. The stages skip a reason that is not their own, so a machine at
  CloningFailed, PoweringOnFailed, FailureDomainNotReady or ZoneClientUnavailable, or a clone with nothing to
  configure, is reported Ready by the next reconcile that finds its VM (Readiness.ReadyIff, UnreadableSecretThenReady,
  ClosedGateThenReady, NothingToConfigureIsReady, RetriedCloneIsReady).
- The task of a disk resize is dropped, as is that of the cloud-init tag's removal. TaskRef never names them: a resize and
  a tag may be under way together, and bootstrap and power-up do not wait for the resize (DroppedTasks.ResizeAndTag,
  ResizeBlocksNothing).
- Deletion does not look at the task lock (TaskLock.DeletionIgnoresTheLock).
- There is one default pool per address family. An ipv6Config that holds IPv4 addresses, which admission accepts
  (internal/webhook/proxmoxcluster_webhook.go:505-527), makes two IPv4 pools; both start a task, and the second
  overwrites TaskRef (TaskLock.SecondTagOverwrites).
- An unknown bootstrap format injects nothing and the machine goes on to power-up (StageOrder.InjectedIffSupported).
- docs/advanced-setups.md says a memory adjustment of 0 takes memory out of the hard-fit check; the code still
  compares the request with the whole memory of the node (Capacity.ZeroAdjustmentStillFits).
- Machines on nodes of no zone are counted for no zone, so while such a node fits, zones that have a machine get no
  more (Bursts.ZonesStopFilling, UnzonedTakesTheRest).
- Looking a template up rewrites the caller's tag slice; tags that differ only in case leave an empty tag in it
  (Templates.RepeatAsksTheSame).
- A NUL inside a credential value can give two different secrets one fingerprint (Fingerprint.NulValuesCollide).
- The VRF rewrite replaces an explicit table on a VRF's own route (Ignition.EffectiveTableKeptIff).
- A net device whose bridge is empty or has a comma never compares equal to what is stored, so it is sent again
  whenever the machine passes through Cloning (NetDevice.StoredSettlesIff).

## Model

| member | source | states |
|---|---|---|
| Orphans.NoOrphanOverRuns | internal/controller/proxmoxmachine_controller.go:164-202 | over every run of reconciles, deletions and outside changes, a VM cloned for the machine is the one its VMID names and the machine holds its finalizer; a missing finalizer means no such VM is registered |
| Orphans.VMIDIsFinal | internal/service/vmservice/find.go:49-178 | once providerID is set the VMID never changes again in any run |
| Orphans.NoOrphanIffPatched | internal/service/vmservice/vm.go:530-538 | an accepted clone leaves no orphan exactly if the cluster object could then be patched |
| Orphans.GoneMeans | pkg/proxmox/goproxmox/api_client.go:226-273 | the client's delete answers "gone" only for an id below 100, one that is free, or an error that says so |
| Ownership.FoundIff | internal/service/vmservice/find.go:60-88 | a lookup finds the machine's VM exactly if the VMID is set, a VM is there, and it carries the machine's own name and no placeholder; a VMID lost to another machine's VM is told exactly by a foreign name on a VMID the controller allocated and no provider ID yet |
| Ownership.ReconcileTouchesOwn | internal/service/vmservice/vm.go:61-143 | every Proxmox mutation of a reconcile, clones aside, is of the VM the machine's VMID names; a live machine's VM is registered under the machine's own name, a deleted one's id is at least 100 |
| Ownership.RunsTouchOwn | internal/controller/proxmoxmachine_controller.go:87-162 | the same of every reconcile of every run, with Proxmox and other users changing VMs in between |
| Deletion.FinalizerGoesIff | internal/service/vmservice/delete.go:35-78 | a held finalizer is gone after a delete reconcile exactly if there was neither VMID nor task, or the client is there and the id is below 100, or the id check is reached and says free, or a call before or after it fails with an error that says "does not exist"; an unreadable VM of a taken id keeps it, and the placement goes with it |
| Deletion.NormalKeepsFinalizer | internal/controller/proxmoxmachine_controller.go:204-306 | no reconcile of a live machine takes the finalizer off |
| Deletion.AcceptedDeleteIs | pkg/proxmox/goproxmox/api_client.go:261-272 | an accepted delete is logged after the stop of a running VM and changes nothing else but the reason; short of one, at most the stop happened |
| Deletion.UnreadableRelocates | internal/service/vmservice/delete.go:80-121 | a VM that is not on the node asked moves the record exactly to where the listing has it under the machine's name |
| Deletion.EveryStepAdvances | internal/service/vmservice/delete.go:35-78 | with a cooperative Proxmox every delete reconcile takes the finalizer off or is closer to it: VM located, deletion accepted, checks left |
| Deletion.GoneInBoundedSteps | internal/controller/proxmoxmachine_controller.go:164-202 | so the finalizer is gone within three reconciles more than a deletion takes checks, wherever the VM is and whether or not it runs |
| StageOrder.StageOrderOverRuns | internal/service/vmservice/vm.go:61-143 | with supported bootstrap formats every run keeps: each start or resume is of a VM whose addresses were written and into which bootstrap data was then injected, and each reason from bootstrap to cloud-init implies what the earlier stages did to the VM of the current VMID |
| StageOrder.FreshRunsStartPrepared | internal/service/vmservice/vm.go:61-187 | the same from a fresh machine: waiting for power-up implies the VM of the current VMID is prepared, waiting for cloud-init implies it was seen running after that, with addresses set |
| StageOrder.InjectedIffSupported | internal/service/vmservice/bootstrap.go:88-116 | a bootstrap stage that goes on has injected data exactly if the format is a supported one |
| Readiness.ReadyIff | internal/service/vmservice/vm.go:61-143 | exactly when a reconcile returns Ready, by entry reason, power, provisioned and the config and disk observations: either the stages run through to the end, or no stage claims the machine and it falls through them; and at which reason it then stands |
| Readiness.ReadyIsNotUnfinished | internal/service/vmservice/vm.go:61-149 | Ready is never returned at a reason from address allocation to cloud-init, nor at VMProvisionFailed or TaskFailed; it is returned at others, see the next rows |
| Readiness.FallThroughIsReady | internal/service/vmservice/vm.go:303-312 | falling through returns Ready whatever was done before, and does nothing but unmount the ISO |
| Readiness.UnreadableSecretThenReady | internal/service/vmservice/bootstrap.go:59-69 | one unreadable bootstrap secret leaves CloningFailed, and the next reconcile returns Ready with nothing injected or started |
| Readiness.ClosedGateThenReady | internal/controller/proxmoxmachine_controller.go:256-268 | one reconcile without a zone client, at any stage, and the next one marks the machine provisioned with nothing more done |
| Readiness.NothingToConfigureIsReady | internal/service/vmservice/vm.go:363-365 | a clone with nothing to configure is Ready at once |
| Readiness.RetriedCloneIsReady | internal/service/vmservice/vm.go:233-257 | after one failed clone request the retried clone is Ready as soon as its task is done |
| Readiness.EarnedIff | internal/service/vmservice/vm.go:61-143 | a machine reported Ready stands at a reason past cloud-init exactly if the reconcile did not enter at one that falls through |
| Readiness.ReadyIsDoneIff | internal/service/vmservice/vm.go:61-187 | over every run with supported formats: each machine reported Ready has its addresses and then its bootstrap data, and was seen running after that, exactly if no reconcile falls through with a machine that has not |
| Readiness.StepIsDoneIff | internal/service/vmservice/vm.go:61-143 | the same of one reconcile |
| Readiness.ReadyMeansRunning | internal/service/vmservice/vm.go:61-187 | the same for the last reconcile of a run from a fresh machine |
| Readiness.ClosedGateOnDoneIsHarmless | internal/controller/proxmoxmachine_controller.go:256-268 | a gate that closes on a provisioned machine is no such fall-through: the next reconcile reports it Ready, and rightly so |
| Readiness.FallThroughIsProvisioned | internal/controller/proxmoxmachine_controller.go:272-306 | entering at a reason that falls through marks the machine provisioned with nothing more done |
| TaskLock.LockOpensIff | internal/service/taskservice/task.go:86-161 | from the flags Proxmox reports: a reconcile passes the lock exactly if the task is not running, completed and either successful or with warnings only, and no back-off is pending; a failure is logged exactly for a task not running, failed and not so completed, and starts a minute's back-off or, after one, drops the task; anything else changes nothing |
| TaskLock.OpenTaskBlocks | internal/service/taskservice/task.go:68-161 | a reconcile entered with a task in TaskRef whose flags do not pass the lock changes nothing on Proxmox and keeps or drops that reference only; DroppedTasks has the tasks that TaskRef does not name |
| TaskLock.OneKeptTaskPerReconcile | internal/service/vmservice/vm.go:68-113 | a reconcile starts at most one task whose reference it keeps, and TaskRef then names it, as long as at most one default pool needs an IPv4 tag |
| DroppedTasks.OneTaskIff | internal/service/vmservice/vm.go:68-142 | counting every task, the dropped ones of the disk resize and of the tag removal included, a reconcile starts at most one exactly unless it publishes addresses and the accepted resize and tag requests are more than one together |
| DroppedTasks.ResizeAndTag | internal/service/vmservice/vm.go:286-290 | a resize and a tag in one reconcile: two tasks are started and one is kept |
| DroppedTasks.ResizeBlocksNothing | internal/service/vmservice/vm.go:286-290 | nothing waits for the resize: whatever has become of it, the next reconcile goes on to change the VM |
| TaskLock.FreeLock | internal/service/vmservice/vm.go:192-257 | from a free lock on, a reconcile that started tasks leaves the last of them in TaskRef and never touches RetryAfter |
| TaskLock.TasksArePools | internal/service/vmservice/ip.go:66-81 | publishing addresses starts exactly one task per untagged IPv4 default pool, and TaskRef names the last |
| TaskLock.SecondTagOverwrites | internal/service/vmservice/ip.go:66-81 | with two of them the second task overwrites the first, still running, in TaskRef |
| TaskLock.TagLoopTasks | internal/service/vmservice/ip.go:66-81 | the tag loop counts, and leaves the last task in TaskRef |
| TaskLock.BackoffOverRuns | internal/service/taskservice/task.go:86-161 | over every run in which the flags of a task never say both well and wrong, RetryAfter set implies TaskRef set, and a failed task is dropped a minute or more after its failure was first seen |
| TaskLock.UnstableOutcomeLeaksRetryAfter | internal/service/taskservice/task.go:107-119 | were a finished task to change its outcome, RetryAfter would outlive TaskRef; Proxmox does not do that |
| TaskLock.DeletionIgnoresTheLock | internal/service/vmservice/delete.go:35-43 | deletion asks Proxmox to destroy the VM whether or not a task is open |
| Progress.EveryStepAdvances | internal/service/vmservice/vm.go:61-143 | with a cooperative environment every reconcile reports Ready or lowers the rank made of stage, known VMID, open task, claims and cloud-init |
| Progress.ReadyInBoundedSteps | internal/service/vmservice/vm.go:61-143 | so Ready is reported within as many reconciles as the rank, plus one, of a machine that was started; with supported formats its VM was prepared and then seen running |
| MachineRuns.Reconcile | internal/controller/proxmoxmachine_controller.go:87-162 | one reconcile on the machine object in place: it keeps stage order, the task lock and its back-off, the accounting of cloned VMs and a known VMID, touches only the machine's own VM, takes the finalizer off exactly if nothing is left to delete, and reports only done machines Ready unless it falls through with one that is not |
| MachineRuns.ReconcileAll | internal/controller/proxmoxmachine_controller.go:87-162 | any sequence of reconciles in place, with Proxmox changing in between, leaves the run the theorems are about, with their conclusions: order, readiness, back-off, no lost VM, a final VMID |
| Claims.LoopIs | internal/service/vmservice/ip.go:306-378 | the claim loop errs exactly if a claim cannot be resolved or created, asks for a requeue exactly if it errs or a claim before that one is not resolved, and writes the reason exactly for a conflict before it |
| Claims.PublishedIff | internal/service/vmservice/ip.go:40-96 | addresses are published exactly if there is no network of the machine's own, or every claim is resolved and every due tag accepted; a conflict or a pending claim keeps them back and leaves the machine as it is |
| MachineController.MachineScope.HandleDevices | internal/service/vmservice/ip.go:298-378 | the claim loop: first error, requeue flag and conflict are those of a fold over the claims |
| MachineController.MachineScope.SetVMIPAddressTags | internal/service/vmservice/ip.go:66-81 | the tag loop: one task per untagged address, stopping at the first failed request |
| Ledger.LedgerRefinesMap | api/v1alpha2/proxmoxcluster_types.go:543-619 | with non-empty nodes every sequence of adds, removes and updates keeps one entry per machine and answers like the same sequence on a map; an update repairs a missing zone but never changes one |
| Ledger.AddKeepsNamesUniqueIff | api/v1alpha2/proxmoxcluster_types.go:543-551 | adding keeps names unique exactly if the machine has no entry yet, or one with a node |
| Ledger.LocationSlice.GetNode | api/v1alpha2/proxmoxcluster_types.go:627-647 | the node of the first entry, or the empty string |
| Ledger.LocationSlice.Append | api/v1alpha2/proxmoxcluster_types.go:649-656 | append in place or into a larger array, same contents |
| Ledger.LocationSlice.Add | api/v1alpha2/proxmoxcluster_types.go:543-551 | adds one entry at the end unless the machine has one |
| Ledger.LocationSlice.CutOut | api/v1alpha2/proxmoxcluster_types.go:568-568 | the shift of the tail over one cell: contents without that position, cells past the end untouched |
| Ledger.LocationSlice.Remove | api/v1alpha2/proxmoxcluster_types.go:554-579 | the loop over the shrinking slice leaves what RemoveLoop says, and with unique names exactly the ledger without the machine's entry, in order |
| Ledger.LocationSlice.Update | api/v1alpha2/proxmoxcluster_types.go:585-619 | updates node, and a missing zone, in place or appends; returns whether anything changed |
| Ledger.NodeLocations.AddNodeLocation | api/v1alpha2/proxmoxcluster_types.go:543-551 | edits the role's slice and leaves the other role's alone |
| Ledger.NodeLocations.RemoveNodeLocation | api/v1alpha2/proxmoxcluster_types.go:554-579 | edits the role's slice and leaves the other role's alone |
| Ledger.NodeLocations.UpdateNodeLocation | api/v1alpha2/proxmoxcluster_types.go:585-619 | edits the role's slice and leaves the other role's alone |
| Ledger.RemoveLoopIs | api/v1alpha2/proxmoxcluster_types.go:566-578 | the remove loop runs out of bounds exactly if the last entry has the name and an earlier one does; otherwise of consecutive entries of the name every other one is left |
| Ledger.UniqueLoop | api/v1alpha2/proxmoxcluster_types.go:566-578 | with unique names it stays in bounds and deletes exactly one entry |
| Score.ScoreRange | internal/service/scheduler/vmscheduler.go:437-459 | the score lies in [0,1], is 1 exactly at zero use and 0 exactly when use reaches the allocatable amount |
| Score.ScoreFalls | internal/service/scheduler/vmscheduler.go:437-459 | more use never scores higher, and strictly lower until the allocatable amount is spent |
| Score.ScoreScales | internal/service/scheduler/vmscheduler.go:437-459 | only proportions matter |
| Score.CurveIs | internal/service/scheduler/vmscheduler.go:437-459 | the curve in full: up to the physical size a unit in use costs a unit of headroom, beyond it half of one, and the square of the share left counts; a node not overbooked scores as if it had no more than it offers |
| Scheduler.WeightedSum | internal/service/scheduler/vmscheduler.go:221-284 | the memory tolerance takes its percentage off the memory score and the CPU tolerance off the CPU score |
| Scheduler.TotalScoreIs | internal/service/scheduler/vmscheduler.go:221-284 | without overbooking that is the weighted sum of the squared shares left free by use, placements and request, a disabled or exhausted resource counting nothing |
| Scheduler.ToleratedIsIgnored | internal/service/scheduler/vmscheduler.go:221-284 | a resource tolerated in full has no influence on the score |
| Scheduler.PrecedesIff | internal/service/scheduler/vmscheduler.go:311-337 | one candidate goes before another exactly if it is as good on the first key that tells them apart, and the keys are zone machines where zones count, score, free memory, placements |
| Scheduler.ChosenAgainst | internal/service/scheduler/vmscheduler.go:311-339 | the chosen node against any other that fits: no more machines in its zone where zones span, among equals no lower a total score, among equals no less memory, among equals no more placements, and a full tie goes to the node listed first |
| Scheduler.PrecedesIsTransitive | internal/service/scheduler/vmscheduler.go:311-337 | the comparator is transitive |
| Scheduler.TiesAreTransitive | internal/service/scheduler/vmscheduler.go:311-337 | ties are transitive, so the comparator is a strict weak order |
| Scheduler.StableSortHead | internal/service/scheduler/vmscheduler.go:311-339 | the head of any stable sort by the comparator is exactly the first of the best candidates |
| Scheduler.BestIsUnique | internal/service/scheduler/vmscheduler.go:311-339 | the specification of the choice determines the node |
| Scheduler.DecisionFollowsFit | internal/service/scheduler/vmscheduler.go:291-293 | a node is chosen exactly when one fits, memory is blamed exactly when no node has it, CPU only when CPU counts |
| Scheduler.PlacedNodeFits | internal/service/scheduler/vmscheduler.go:243-252 | the chosen node is an allowed one that fits |
| VmScheduler.NodeToZone | internal/service/scheduler/vmscheduler.go:96-120 | maps each candidate to the zone of the last configuration listing it, and no other node |
| VmScheduler.LocationsInZone | internal/service/scheduler/vmscheduler.go:131-142 | keeps exactly the entries of the zone, in order |
| VmScheduler.RecordedInItsZone | internal/service/scheduler/vmscheduler.go:131-142 | recording a machine adds it to the entries of its own zone and no other |
| VmScheduler.GatherNodes | internal/service/scheduler/vmscheduler.go:176-198 | fails exactly if a needed client call failed |
| VmScheduler.CountPlacements | internal/service/scheduler/vmscheduler.go:224-228 | the map counts the placements of every node |
| VmScheduler.CountZones | internal/service/scheduler/vmscheduler.go:235-240 | the map counts the placements of every zone, by the zone of the node |
| VmScheduler.CollectCandidates | internal/service/scheduler/vmscheduler.go:242-290 | the candidates are exactly the nodes that fit, scored, in node order |
| VmScheduler.SpansZones | internal/service/scheduler/vmscheduler.go:305-309 | zones are balanced exactly if the candidates span more than one |
| VmScheduler.FirstCandidate | internal/service/scheduler/vmscheduler.go:311-339 | a candidate at least as good as every other, key by key, and the first among its ties |
| VmScheduler.BuildInsufficientError | internal/service/scheduler/vmscheduler.go:464-493 | names a node of the largest memory if none has enough, else the first node of the most CPUs |
| VmScheduler.SelectNode | internal/service/scheduler/vmscheduler.go:162-381 | the node returned fits and wins key by key against every node that fits, as ChosenAgainst spells out; errors are the right ones |
| VmScheduler.ScheduleVM | internal/service/scheduler/vmscheduler.go:73-87 | the choice is made with the entries of the machine's zone and the zones of the allowed nodes |
| Bursts.SchedulingFollows | internal/service/vmservice/vm.go:530-536 | scheduling with the entries of the machine's zone and recording the placement is one step of a burst |
| Bursts.ZonesStayBalanced | internal/service/scheduler/vmscheduler.go:305-337 | over any burst in which each of a set of zones keeps a node that fits, the spread of machines over these zones never grows past 1 or past where it started |
| Bursts.OnlyFittingZoneTakesAll | internal/service/scheduler/vmscheduler.go:243-252 | a zone that alone has nodes that fit takes every machine of a burst and the others none |
| Bursts.UnfitZoneBreaksBalance | internal/service/scheduler/vmscheduler.go:243-252 | so the condition is needed: for every n there is a burst of distinct machines ending with a spread of n |
| Bursts.ZonesStopFilling | internal/service/scheduler/vmscheduler.go:279-287 | over a burst in which a node of no zone fits at every step, a zone that has a machine gains none and an empty one at most one |
| Bursts.UnzonedTakesTheRest | internal/service/scheduler/vmscheduler.go:235-240 | all but as many machines as there were empty zones then land on nodes of no zone |
| Bursts.NodesStaySpread | internal/service/scheduler/vmscheduler.go:221-289 | on identical nodes in at most one zone, with tolerances up to 100, any burst keeps per-node placements within 1, or within the spread it started with |
| Bursts.TotalScoreFalls | internal/service/scheduler/vmscheduler.go:263-277 | more placements never raise a node's score, saturated or weighted zero |
| Vmids.NextFreeVMID | internal/service/vmservice/vm.go:553-571 | returns the first id of the range that no machine holds and Proxmox calls free, an error exactly if the check of the first such id fails, exhaustion exactly if all are held or taken |
| Capacity.ReservableMemory | pkg/proxmox/goproxmox/api_client.go:299-345 | saturating subtraction guest by guest is the allocatable amount less the sum over non-templates, floored at 0 |
| Capacity.ReservableCPUs | pkg/proxmox/goproxmox/api_client.go:361-403 | subtraction with a final clamp gives the same |
| Capacity.OrderIsIrrelevant | pkg/proxmox/goproxmox/api_client.go:319-343 | both sums are the same for every order of guests |
| Capacity.NeverOvercommits | internal/service/scheduler/vmscheduler.go:243-252 | with fresh numbers and explicit requests no run of placements pushes a node past its allocatable memory or CPUs, unless it was from the start |
| Capacity.ReportNode | internal/service/scheduler/vmscheduler.go:176-198 | the scheduler's client calls about a node give the fresh numbers that NeverOvercommits is about |
| Capacity.ZeroAdjustmentStillFits | pkg/proxmox/goproxmox/api_client.go:306-310 | with a memory adjustment of 0 and any CPU adjustment a node has the memory exactly if the request is no larger than its whole memory |
| Templates.FindVMTemplateByTags | pkg/proxmox/goproxmox/api_client.go:155-223 | a template is returned exactly when the set of matches is a single VM, and the caller's tag slice is left lowercased, sorted, compacted and padded |
| Templates.SearchTemplates | pkg/proxmox/goproxmox/api_client.go:174-222 | the one-pass loop with its resettable count finds that set |
| Templates.Consider | pkg/proxmox/goproxmox/api_client.go:178-214 | one turn: who is skipped, who resets the count, who is counted |
| Templates.NormalizeTags | pkg/proxmox/goproxmox/api_client.go:167-173 | the in-place normalisation of the request |
| Templates.CompactedIsWanted | pkg/proxmox/goproxmox/api_client.go:167-173 | sorting and compacting leaves each lowercased tag once |
| Templates.TagIs | pkg/proxmox/goproxmox/api_client.go:182-186 | a listed tag counts whatever its ASCII capitals and the blanks around it, letter by letter |
| Templates.ListingOrderIsIrrelevant | pkg/proxmox/goproxmox/api_client.go:177-214 | the matches are the same whatever order Proxmox lists the VMs in |
| Templates.RepeatAsksTheSame | pkg/proxmox/goproxmox/api_client.go:167-173 | a second lookup through the same slice asks for the same tags exactly if lowercasing made no two of them equal, or one was empty |
| Zones.ClientForZone | pkg/scope/cluster.go:168-201 | the zone's first configuration decides between the cluster client and its own secret; an unknown zone is an error |
| Zones.ServedBy | pkg/scope/cluster.go:168-221 | a configured zone is served by the secret of the namespace its reference names, else of the cluster's, or by the cluster's client without one; a machine without a zone, or in an unconfigured default zone, by the cluster's client |
| Zones.ValidateZoneCredentials | internal/webhook/proxmoxcluster_webhook.go:142-168 | accepts exactly if no zone is named default and every reference names a secret |
| Zones.FirstMachineInZone | internal/webhook/proxmoxcluster_webhook.go:426-440 | the first machine recorded in the zone, control plane first |
| Zones.NewZones | internal/webhook/proxmoxcluster_webhook.go:341-345 | the map holds each zone's last configuration |
| Zones.ValidateZoneRemoval | internal/webhook/proxmoxcluster_webhook.go:323-375 | refuses exactly the updates that drop or re-point a zone a recorded machine lives in |
| Zones.RemovalAllowedIff | internal/webhook/proxmoxcluster_webhook.go:323-375 | with unique zone names that is: every occupied configured zone keeps its endpoint |
| Zones.DuplicateZonesReroute | internal/webhook/proxmoxcluster_webhook.go:341-345 | repeated names, which the API's list key excludes, would break it: any other configuration put in front of an occupied zone is admitted and re-routes it |
| Zones.EndpointIsStable | pkg/scope/cluster.go:168-201 | over every sequence of admitted updates and ledger edits, while a machine stays recorded in a zone the zone resolves to the endpoint it was recorded under |
| Zones.LedgerEditsRecord | internal/service/vmservice/vm.go:530-536 | placements, moves and removals of the ledger are such edits |
| Fingerprint.WriteHashInput | pkg/proxmox/clientfactory/factory.go:162-179 | the loop writes the bytes the next row characterises |
| Fingerprint.HashInputInjective | pkg/proxmox/clientfactory/factory.go:162-179 | on NUL-free values two secrets hash the same bytes exactly if they agree on url, token, secret, insecure and root_ca, an absent key told from an empty one |
| Fingerprint.NulValuesCollide | pkg/proxmox/clientfactory/factory.go:163-173 | a NUL inside a value can make two different secrets hash the same bytes |
| ClientCache.CacheEntry.GetOrCreate | pkg/proxmox/clientfactory/factory.go:110-140 | the critical section: cached client, remembered error, or a dial that updates the entry |
| ClientCache.CacheIsCoherent | pkg/proxmox/clientfactory/factory.go:98-160 | in every interleaving of lookups, dials and evictions a returned client was built from data with the requested fingerprint |
| ClientCache.ClientHasTheCredentials | pkg/proxmox/clientfactory/factory.go:98-179 | so, short of a hash collision and with NUL-free values, from the same url, token, secret, insecure and root_ca as asked for |
| ClientCache.DialsAreSpaced | pkg/proxmox/clientfactory/factory.go:117-132 | a dial right after a failed one of the same data on the same entry starts at least 30 seconds after that one ended |
| ClientCache.OneThreadPerEntry | pkg/proxmox/clientfactory/factory.go:110-111 | no two goroutines are inside one entry |
| Network.Validate | pkg/network/validate.go:34-119 | accepts exactly if there are devices, every route has a target, all (effective table, target, metric) triples are distinct across devices, every rule is well formed, and something gives a gateway; names the missing parts |
| Network.ValidateRoutes | pkg/network/validate.go:121-154 | a device's routes collide with none before them, and whether one is a default route |
| Network.CheckRoute | pkg/network/validate.go:124-152 | one route: malformed, in collision, or added to the map |
| Network.ValidateFIBRules | pkg/network/validate.go:156-173 | accepts exactly the well formed rules |
| Network.ValidateDevice | pkg/network/validate.go:65-108 | the table of a device is its own or that of its last VRF |
| Network.ResolveMembers | pkg/network/validate.go:48-58 | the map holds the last VRF of each member |
| Network.RouteIDInjective | pkg/network/validate.go:139-143 | route identifiers are equal exactly if table, target and metric are |
| Network.MixedFamiliesRefused | pkg/network/validate.go:156-173 | a rule between an IPv4 and an IPv6 prefix makes the configuration unacceptable |
| Network.GatewayIff | pkg/network/validate.go:65-130 | a gateway comes exactly from DHCP or a route to 0.0.0.0/0 or ::/0 |
| Network.MainTableCollides | pkg/network/validate.go:132-146 | outside VRFs a route without table and metric collides with the same route in table 254 with metric 0 |
| Ignition.AdjustVrfs | pkg/ignition/network.go:234-255 | the nested in-place loops |
| Ignition.AdjustedAt | pkg/ignition/network.go:234-255 | what they come to: each device is named after the last VRF that has it as a child, and VRFs are rerouted |
| Ignition.AdjustIsIdempotent | pkg/ignition/network.go:234-255 | rewriting twice is rewriting once |
| Ignition.SameVrfAsValidate | pkg/ignition/network.go:239-247 | with distinct names a member is given the VRF that Validate resolves it to |
| Ignition.EffectiveTableKeptIff | pkg/ignition/network.go:248-253 | a route keeps its effective table exactly if it is not a VRF route with an explicit other table |
| Ignition.AdjustKeepsVerdict | pkg/ignition/network.go:234-255 | where no VRF route has an explicit other table, the rewrite keeps accepted configurations accepted and rejected ones rejected |
| Ignition.RenderedIsEffective | pkg/ignition/network.go:65-95 | the table the rendered units mean for a route is the one Validate took it to have |
| Ignition.OtherTableCollides | pkg/ignition/network.go:248-253 | a VRF route with another table: accepted as given, in collision once rewritten |
| SecretKeys.CodecRoundTripsIff | internal/controller/proxmoxcluster_controller.go:597-634 | the annotation codec round-trips a set of keys exactly if all keys are valid |
| SecretKeys.ManagedSecretKeys | internal/controller/proxmoxcluster_controller.go:597-613 | decodes item by item, dropping items without two parts |
| SecretKeys.SetManagedSecretKeys | internal/controller/proxmoxcluster_controller.go:617-634 | encodes whatever order the map is met in, so that decoding gives the set back exactly if all keys are valid |
| SecretKeys.CredentialsSecretKeys | internal/controller/proxmoxcluster_controller.go:654-684 | every referenced key once, in order of first reference |
| Credentials.ReleaseKeepsFinalizerIff | internal/controller/proxmoxcluster_controller.go:576-590 | release leaves the finalizer on exactly a secret with another owner, or a local one that is not ours |
| Credentials.ClusterReconciler.AdoptCredentialsSecret | internal/controller/proxmoxcluster_controller.go:517-549 | adoption and its failures |
| Credentials.ClusterReconciler.ReleaseCredentialsSecret | internal/controller/proxmoxcluster_controller.go:553-593 | release and its failures; a missing secret is fine |
| Credentials.ClusterReconciler.ReleaseStaleSecrets | internal/controller/proxmoxcluster_controller.go:451-461 | stale keys are released and stay tracked where that fails |
| Credentials.ClusterReconciler.AdoptSecrets | internal/controller/proxmoxcluster_controller.go:463-482 | adoption goes on past zone secrets and stops at the cluster's own |
| Credentials.ClusterReconciler.ReconcileNormal | internal/controller/proxmoxcluster_controller.go:438-486 | the two loops, and the annotation written on every way out |
| Credentials.ClusterReconciler.ReconcileDelete | internal/controller/proxmoxcluster_controller.go:488-513 | everything referenced or tracked is released, errors reported at the end |
| Credentials.NormalKeepsTracking | internal/controller/proxmoxcluster_controller.go:438-486 | whatever fails, after a reconcile each secret bearing the finalizer is tracked |
| Credentials.NormalSettles | internal/controller/proxmoxcluster_controller.go:438-486 | a reconcile fails exactly if the cluster's own secret is missing or its adoption fails; otherwise every referenced secret whose adoption succeeded bears the finalizer, and in any case no stale one whose release succeeded does |
| Credentials.DeleteReleasesAll | internal/controller/proxmoxcluster_controller.go:488-513 | an error-free deletion leaves no finalizer, one with errors loses track of none |
| Credentials.NoFinalizerIsForgotten | internal/controller/proxmoxcluster_controller.go:438-634 | the same over every run of reconciles under changing specs, with secrets created and removed in between |
| NetDevice.FormatNetworkDevice | internal/service/vmservice/utils.go:221-237 | prints model, bridge and the numbers present, in this order |
| NetDevice.ReadsModelAndBridge | internal/service/vmservice/utils.go:94-115 | model and bridge are read back, with or without a MAC |
| NetDevice.ReadsMTU | internal/service/vmservice/utils.go:119-131 | the MTU is read back, an absent one as 0 |
| NetDevice.ReadsVLAN | internal/service/vmservice/utils.go:134-146 | the VLAN is read back, an absent one as 0 |
| NetDevice.ReadsQueues | internal/service/vmservice/utils.go:149-161 | the queue count is read back, an absent one as 0 |
| NetDevice.ReadsMAC | internal/service/vmservice/utils.go:240-247 | an inserted MAC is read back |
| NetDevice.ShouldUpdateNetworkDevices | internal/service/vmservice/utils.go:163-217 | updates exactly if some device differs from what is stored |
| NetDevice.DiffersIff | internal/service/vmservice/utils.go:163-217 | of two printable devices the wanted one differs from the stored one exactly if the models or bridges differ, or a wanted MTU, VLAN or queue count is not the stored one |
| NetDevice.StoredSettlesIff | internal/service/vmservice/utils.go:183-189 | what was printed compares equal exactly if the bridge is not empty and has no comma |
| NetDevice.ReconfigurationIsFixpoint | internal/service/vmservice/vm.go:338-347 | once the options are stored, a named device with distinct name is left to update exactly if its bridge is invalid |
| NetDevice.AdmittedIsPrintable | api/v1alpha2/proxmoxmachine_types.go:470-494 | every model, MTU, VLAN and queue count the API admits is printable |

## Left out

- The Kubernetes client, patch helper, events, logging and controller wiring: only whether a call succeeded is kept.
- go-proxmox, TLS, ISO building and template text: only outcomes, and the table and VRF choices of the units.
- A patch of the machine object that fails at the end of a reconcile: the object is taken as saved.
- Conversion between API versions, pkg/convert, CEL rules, hostname and IP-set checks: field copying or single branches.
- IPAM object handling below the claim level: the outcomes of one claim are an input.
- The webhook's checks of zone node lists and its scheduler-hint warnings: independent of the rules that keep endpoints.
- Float rounding: scores are reals and the memory adjustment is a floor.
- SHA-256: an arbitrary function; what depends on collisions says so.
- Unicode: lowercasing and trimming cover ASCII, and strings are compared character by character.
- Orphans.NoOrphanOverRuns: assumes that accepted clones get their placement patched, that nobody renames the machine's VM, and that Proxmox says "does not exist" only of absent VMs; NoOrphanIffPatched shows the first needed for each clone.
- StageOrder.StageOrderOverRuns: assumes supported bootstrap formats; InjectedIffSupported says what another one does.
- Readiness.ReadyIsDoneIff: assumes supported bootstrap formats, as stage order does.
- TaskLock.OneKeptTaskPerReconcile: counts the tasks TaskRef is meant for, with at most one untagged IPv4 default pool; DroppedTasks.OneTaskIff counts all and is exact.
- DroppedTasks.OneTaskIff: tasks that go-proxmox itself waits for while it mounts or unmounts the ISO are not counted, nor are those of a deletion.
- MachineRuns.Reconcile: the per-stage methods of MachineController have no rows of their own; their contracts are the stage functions.
- Progress.ReadyInBoundedSteps: assumes tasks that succeed within a bounded number of polls, claims and cloud-init that finish, and some option to configure.
- Deletion.GoneInBoundedSteps: assumes that Proxmox answers, lists the VM under the machine's name on a host it stays on, accepts stop and delete, and frees the id within a bounded number of checks.
- Scheduler.TotalScoreIs: without overbooking; with it WeightedSum and CurveIs together say the same in more cases.
- NetDevice.ReconfigurationIsFixpoint: takes names as the API admits them, never empty.
- VmScheduler.FirstCandidate: finds the head of the stable sort without sorting; StableSortHead shows that every stable sort has this head.
- VmScheduler.BuildInsufficientError: says a node of the largest memory, not which, since that sort is not stable.
- Templates.NormalizeTags: sorts by insertion and writes the result back; the library's own sort is not modelled.
- Fingerprint.NulValuesCollide: one family of colliding values; which other values with a NUL collide is not characterised.
- ClientCache.CacheEntry.GetOrCreate: closing idle connections of a replaced transport is not modelled.
- Network.Validate: when a configuration has several faults, which of the route and rule errors comes first is not stated.
- Credentials.NoFinalizerIsForgotten: covers secrets this cluster is the only owner of; for shared ones ReleaseKeepsFinalizerIff says when the finalizer stays.
