/**
 * The provisioning and deletion protocol as functions: each stage maps a machine, with the record of
 * what was done for it, and an observation to the machine and record it leaves behind, and says
 * whether the reconcile goes on.
 */
module Stages {
  import opened Base
  import opened Machines

  // ---- internal/service/taskservice -------------------------------------------------------------

  datatype TaskState = TaskRunning | TaskSucceeded | TaskFailing | TaskUnknown

  /** The order of the cases in checkAndRetryTask; "WARNINGS: n" counts as success. */
  function Classify(t: Task): TaskState {
    if t.isRunning then TaskRunning
    else if t.isSuccessful && t.isCompleted then TaskSucceeded
    else if t.isCompleted && t.exitWarnings then TaskSucceeded
    else if t.isFailed then TaskFailing
    else TaskUnknown
  }

  function CheckTask(s: Scope, t: Task, now: Time): Step
    requires s.m.taskRef.TaskRef?
  {
    if s.m.retryAfter.RetryAt? && now < s.m.retryAfter.time then Step(s, Failed)
    else if Classify(t).TaskRunning? then Step(s, Requeue)
    else if Classify(t).TaskSucceeded? then Step(Scope(s.m.(taskRef := NoTask), s.log), Continue)
    else if Classify(t).TaskUnknown? then Step(s, Failed)
    else if s.m.retryAfter.NoRetry? then
      Step(Scope(s.m.(reason := if t.qmstart then s.m.reason else TaskFailed,
                      retryAfter := RetryAt(now + TASK_BACKOFF)),
                 Log(s.log, FailureSeen(s.m.taskRef.id, now))), Requeue)
    else
      Step(Scope(s.m.(reason := if t.qmstart then s.m.reason else TaskFailed,
                      taskRef := NoTask, retryAfter := NoRetry),
                 Log(Log(s.log, FailureSeen(s.m.taskRef.id, now)), TaskDropped(s.m.taskRef.id, now))), Requeue)
  }

  function TaskStage(s: Scope, o: Obs): Step {
    if s.m.taskRef.NoTask? then Step(s, Continue)
    else if o.lookup.LookupFailed? then Step(s, Failed)
    else if o.lookup.NilTask? then Step(s, Requeue)
    else CheckTask(s, o.lookup.task, o.now)
  }

  // ---- internal/service/vmservice/find.go -------------------------------------------------------

  datatype Find = NotCreated | NotFound | NotInitialized | Collision | FoundVM(vm: VmView)

  function FindVM(m: Machine, got: VmLookup): Find {
    if m.vmid <= 0 then NotCreated
    else if got.VmMissing? then NotFound
    else if Unnamed(got.view.name, m.vmid) then NotInitialized
    else if got.view.name != m.name then
      if m.Recoverable() then Collision else NotInitialized
    else FoundVM(got.view)
  }

  /** recoverFromVMIDCollision; it always returns its cause as an error. */
  function Recover(s: Scope, patchOk: bool): Scope {
    if !patchOk then Scope(s.m.(placed := ""), s.log)
    else Scope(s.m.(placed := "", vmid := NO_VMID, node := "", selfAllocated := false, reason := Cloning), s.log)
  }

  /** updateVMLocation, reached when the VM is not on the recorded node; the reconcile then ends. */
  function Relocate(s: Scope, o: Obs): Scope {
    if o.locate.NotLocated? || o.locate.vm.VmMissing? then s
    else if Unnamed(o.locate.vm.view.name, s.m.vmid) then s
    else if o.locate.vm.view.name == s.m.name then
      Scope(s.m.(node := o.locate.vm.view.node, placed := o.locate.vm.view.node), s.log)
    else if s.m.Recoverable() then Recover(s, o.clusterPatchOk)
    else Scope(s.m.(reason := VMProvisionFailed), s.log)
  }

  // ---- internal/service/vmservice/vm.go ---------------------------------------------------------

  /** createVM and the error handling around it. */
  function CreateStage(s: Scope, o: Obs): Step {
    if o.create.CloneAccepted? then
      CloneStage(s, o.create.id, o.create.task, o.create.target, o.clusterPatchOk)
    else
      Step(CreateFailed(s, (o.create.VMIDError? && o.create.rangeExhausted)
                           || (o.create.ScheduleError? && o.create.insufficient)
                           || (o.create.TemplateError? && o.create.notFound)), Failed)
  }

  /** The clone was accepted. The VMID is recorded only if the cluster's nodeLocations could be patched. */
  function CloneStage(s: Scope, id: VmId, task: TaskId, target: string, clusterPatchOk: bool): Step {
    if clusterPatchOk then
      Step(Scope(s.m.(node := target, placed := if s.m.placed != "" then s.m.placed else target,
                      taskRef := TaskRef(task), vmid := id, selfAllocated := true),
                 Log(s.log, Cloned(id, task))), Requeue)
    else
      Step(CreateFailed(Scope(s.m.(node := target, placed := if s.m.placed != "" then s.m.placed else target),
                              Log(s.log, Cloned(id, task))),
                        false), Failed)
  }

  function CreateFailed(s: Scope, terminal: bool): Scope {
    Scope(s.m.(reason := if terminal || s.m.reason.VMProvisionFailed? then VMProvisionFailed else CloningFailed),
          s.log)
  }

  /** A machine that has not entered the state machine, or was held at a gate, starts at Cloning. */
  function Initialised(s: Scope): Scope {
    if s.m.reason.NoCondition? || s.m.reason.WaitingForClusterInfrastructureReady?
       || s.m.reason.WaitingForBootstrapData?
    then Scope(s.m.(reason := Cloning), s.log) else s
  }

  function EnsureStage(s: Scope, o: Obs): Step {
    if s.m.taskRef.TaskRef? then Step(s, Requeue) else LookupStage(Initialised(s), o)
  }

  function LookupStage(s: Scope, o: Obs): Step {
    var found := FindVM(s.m, o.vm);
    if found.NotCreated? then CreateStage(s, o)
    else if found.NotFound? then Step(Relocate(s, o), Failed)
    else if found.NotInitialized? then Step(s, Failed)
    else if found.Collision? then Step(Recover(s, o.clusterPatchOk), Failed)
    else Step(Scope(s.m.(providerID := PROVIDER_SCHEME + found.vm.uuid), s.log), Continue)
  }

  function ConfigStage(s: Scope, vm: VmView, o: Obs): Step {
    if !s.m.reason.Cloning? || vm.power.Running? || s.m.provisioned then Step(s, Continue)
    else if o.config.NothingToConfigure? then Step(s, Continue)
    else if o.config.ConfigureError? then Step(s, Failed)
    else
      Step(Scope(s.m.(taskRef := TaskRef(o.config.task), reason := WaitingForDiskReconciliation),
                 Log(s.log, Configured(s.m.vmid, o.config.task))), Requeue)
  }

  function DiskStage(s: Scope, vm: VmView, o: Obs): Step {
    if !s.m.reason.WaitingForDiskReconciliation? then Step(s, Continue)
    else if o.disks.NoDisks? then Step(Scope(s.m.(reason := WaitingForStaticIPAllocation), s.log), Continue)
    else if vm.power.Running? || s.m.provisioned then Step(s, Continue)
    else if o.disks.NoBootVolume? then Step(Scope(s.m.(reason := WaitingForStaticIPAllocation), s.log), Continue)
    else if o.disks.ResizeError? then Step(s, Failed)
    else
      // The resize task is dropped.
      Step(Scope(s.m.(reason := WaitingForStaticIPAllocation), Log(s.log, Resized(s.m.vmid, o.disks.task))), Continue)
  }

  function AddressStage(s: Scope, vm: VmView): Step {
    if !s.m.reason.WaitingForClusterAPIMachineAddresses? then Step(s, Continue)
    else if !vm.power.Running? || !s.m.ipAddresses then Step(s, Failed)
    else
      Step(Scope(s.m.(addresses := true, reason := WaitingForCloudInit), Log(s.log, SeenRunning(s.m.vmid))), Continue)
  }

  function CloudInitStage(s: Scope, o: Obs): Step {
    if !s.m.reason.WaitingForCloudInit? then Step(s, Continue)
    else if !o.skipAgent && !o.agentOk then Step(s, Failed)
    else if o.skipAgent || o.skipCloudInitStatus || o.cloudInit.CloudInitDone? then
      Step(Scope(s.m.(reason := WaitingForBootstrapReady), s.log), Continue)
    else if o.cloudInit.CloudInitRunning? then Step(s, Requeue)
    else if o.cloudInit.CloudInitFailed? then Step(Scope(s.m.(reason := VMProvisionFailed), s.log), Failed)
    else Step(s, Failed)
  }

  function FinalStage(s: Scope, o: Obs): Step {
    if s.m.reason.VMProvisionFailed? || s.m.reason.TaskFailed? then Step(s, Failed)
    else if !o.machineAvailable then Step(s, Ready)
    else if !o.unmountOk then Step(s, Failed)
    else Step(Scope(s.m, Log(s.log, Unmounted(s.m.vmid, o.untag))), Ready)
  }

  // ---- internal/service/vmservice/ip.go ---------------------------------------------------------

  /** What the claim loop leaves: whether a conflict wrote the reason, and its two results. */
  datatype Collect = Collect(conflict: bool, requeue: bool, err: bool)

  /** The claim loop of collectDeviceAddresses with handleIPAddresses, from the given accumulators on. */
  function HandleClaims(conflict: bool, requeue: bool, claims: seq<Claim>): Collect
    decreases |claims|
  {
    if claims == [] then Collect(conflict, requeue, false)
    else match claims[0]
      case ClaimUnresolvable => Collect(conflict, true, true)
      case ClaimMissing(createOk) =>
        if createOk then HandleClaims(conflict, true, claims[1..]) else Collect(conflict, true, true)
      case ClaimPending => HandleClaims(conflict, true, claims[1..])
      case ClaimResolved => HandleClaims(conflict, requeue, claims[1..])
      case ClaimConflict => HandleClaims(true, true, claims[1..])
  }

  function HandleDevices(net: NetObs): Collect {
    if net.poolsErr then Collect(false, false, true)
    else HandleClaims(false, false, if net.present then net.claims else [])
  }

  /** A claim conflict overwrites the reason. */
  function AfterClaims(s: Scope, c: Collect): Scope {
    if c.conflict then Scope(s.m.(reason := WaitingForStaticIPAllocation), s.log) else s
  }

  /** The tag loop: every untagged IPv4 default address makes one task, and the last one is recorded. */
  function TagLoop(s: Scope, heads: seq<PoolHead>): Step
    decreases |heads|
  {
    if heads == [] then Step(s, Continue)
    else if !heads[0].NeedsTag() then TagLoop(s, heads[1..])
    else if heads[0].tag.NoTask? then Step(s, Failed)
    else TagLoop(Scope(s.m.(taskRef := heads[0].tag), Log(s.log, Tagged(s.m.vmid, heads[0].tag.id))), heads[1..])
  }

  function IPStage(s: Scope, o: Obs): Step {
    if !s.m.reason.WaitingForStaticIPAllocation? then Step(s, Continue)
    else if o.net.present && HandleDevices(o.net).err then Step(s, Failed)
    else if o.net.present && HandleDevices(o.net).requeue then Step(s, Requeue)
    else PublishStage(s, o.net)
  }

  /** Tags the VM with its default addresses and writes status.ipAddresses. */
  function PublishStage(s: Scope, net: NetObs): Step {
    var t := TagLoop(s, if net.present then net.heads else []);
    if t.verdict.Failed? then t else Step(IPsDone(t.s, net), Requeue)
  }

  function IPsDone(s: Scope, net: NetObs): Scope {
    Scope(s.m.(ipAddresses := s.m.ipAddresses || (net.present && net.devices),
               reason := WaitingForBootstrapDataReconciliation),
          Log(s.log, IPsWritten(s.m.vmid)))
  }

  /** reconcileAddressRecovery: republishes lost address status of a running VM, creating nothing. */
  function RecoveryStage(s: Scope, vm: VmView, o: Obs): Step {
    if !vm.power.Running? || s.m.ipAddresses || !o.net.present then Step(s, Continue)
    else if o.net.poolsErr || ClaimUnresolvable in o.net.claims then Step(s, Failed)
    else if !o.net.devices || (exists c :: c in o.net.claims && c != ClaimResolved) then Step(s, Continue)
    else Step(Scope(s.m.(ipAddresses := true, addresses := true), s.log), Continue)
  }

  // ---- internal/service/vmservice/bootstrap.go, power.go ----------------------------------------

  function BootstrapStage(s: Scope, vm: VmView, o: Obs): Step {
    if !s.m.reason.WaitingForBootstrapDataReconciliation? then Step(s, Continue)
    else if !vm.hasMacs then Step(s, Requeue)
    else if o.bootstrap.DataError? then Step(Scope(s.m.(reason := CloningFailed), s.log), Failed)
    else
      // Unresolved claims are no error here: the device list is then silently empty. A conflict
      // writes the reason, and every branch below overwrites it.
      AfterDevices(AfterClaims(s, HandleDevices(o.net)), HandleDevices(o.net), o.bootstrap)
  }

  function AfterDevices(s: Scope, c: Collect, b: BootstrapObs): Step
    requires b.Data?
  {
    if c.err || (!c.requeue && !b.deviceDataOk) || !b.vrfDataOk then
      Step(Scope(s.m.(reason := WaitingForBootstrapDataReconciliation), s.log), Failed)
    else InjectStage(s, b)
  }

  /** An unknown format injects nothing, and the machine advances all the same. */
  function InjectStage(s: Scope, b: BootstrapObs): Step
    requires b.Data?
  {
    if b.format.UnknownFormat? then
      Step(Scope(s.m.(bootstrapProvided := true, reason := WaitingForVMPowerUp), s.log), Continue)
    else if !b.injectOk then Step(Scope(s.m.(reason := VMProvisionFailed), s.log), Failed)
    else
      Step(Scope(s.m.(bootstrapProvided := true, reason := WaitingForVMPowerUp), Log(s.log, Injected(s.m.vmid))),
           Continue)
  }

  function PowerStage(s: Scope, vm: VmView, o: Obs): Step {
    if !s.m.reason.WaitingForVMPowerUp? then Step(s, Continue)
    else if !vm.power.Paused? && !vm.power.Stopped? && !vm.power.Hibernated? then
      Step(Scope(s.m.(reason := WaitingForClusterAPIMachineAddresses), s.log), Continue)
    else if o.start.NoTask? then Step(Scope(s.m.(reason := PoweringOnFailed), s.log), Failed)
    else if vm.power.Paused? then
      Step(Scope(s.m.(taskRef := o.start), Log(s.log, Resumed(s.m.vmid, o.start.id))), Requeue)
    else
      Step(Scope(s.m.(taskRef := o.start), Log(s.log, Started(s.m.vmid, o.start.id))), Requeue)
  }

  // ---- ReconcileVM ------------------------------------------------------------------------------

  function ReconcileVM(s: Scope, o: Obs): Step {
    var t0 := TaskStage(s, o);
    if !t0.verdict.Continue? then t0 else
    var t1 := EnsureStage(t0.s, o);
    if !t1.verdict.Continue? then t1 else
    EarlyStages(t1.s, o.vm.view, o)
  }

  /** The stages from the found VM to its addresses. */
  function EarlyStages(s: Scope, vm: VmView, o: Obs): Step {
    var t1 := RecoveryStage(s, vm, o);
    if !t1.verdict.Continue? then t1 else
    var t2 := ConfigStage(t1.s, vm, o);
    if !t2.verdict.Continue? then t2 else
    var t3 := DiskStage(t2.s, vm, o);
    if !t3.verdict.Continue? then t3 else
    var t4 := IPStage(t3.s, o);
    if !t4.verdict.Continue? then t4 else
    LateStages(t4.s, vm, o)
  }

  function LateStages(s: Scope, vm: VmView, o: Obs): Step {
    var t5 := BootstrapStage(s, vm, o);
    if !t5.verdict.Continue? then t5 else
    var t6 := PowerStage(t5.s, vm, o);
    if !t6.verdict.Continue? then t6 else
    var t7 := AddressStage(t6.s, vm);
    if !t7.verdict.Continue? then t7 else
    var t8 := CloudInitStage(t7.s, o);
    if !t8.verdict.Continue? then t8 else
    FinalStage(t8.s, o)
  }

  // ---- internal/controller/proxmoxmachine_controller.go ------------------------------------------

  function NormalStep(s: Scope, o: Obs): Step {
    if s.m.reason.VMProvisionFailed? then Step(s, Idle)
    else if !o.infraReady then Step(Scope(s.m.(reason := WaitingForClusterInfrastructureReady), s.log), Idle)
    else if !o.dataSecret then Step(Scope(s.m.(reason := WaitingForBootstrapData), s.log), Idle)
    else if !s.m.finalizer && !o.finalizerPatchOk then Step(Scope(s.m.(finalizer := true), s.log), Failed)
    else ProvisionStep(Scope(s.m.(finalizer := true), s.log), o)
  }

  /** reconcileNormal once the finalizer is in place. */
  function ProvisionStep(s: Scope, o: Obs): Step {
    if !o.failureDomainOk then Step(Scope(s.m.(reason := FailureDomainNotReady), s.log), Idle)
    else if !o.clientOk then Step(Scope(s.m.(reason := ZoneClientUnavailable), s.log), Idle)
    else MarkReady(ReconcileVM(s, o))
  }

  function MarkReady(t: Step): Step {
    if t.verdict.Ready? then Step(Scope(t.s.m.(provisioned := true, reason := Provisioned), t.s.log), Ready) else t
  }

  /** The gates write nothing but the reason and the finalizer. */
  predicate Gated(s: Scope, t: Step) {
    t.s.log == s.log && !t.verdict.Ready? && !t.verdict.Continue?
    && t.s.m == s.m.(reason := t.s.m.reason, finalizer := t.s.m.finalizer)
    && (s.m.finalizer ==> t.s.m.finalizer)
    && (t.s.m.reason == s.m.reason || t.s.m.reason.WaitingForClusterInfrastructureReady?
        || t.s.m.reason.WaitingForBootstrapData? || t.s.m.reason.FailureDomainNotReady?
        || t.s.m.reason.ZoneClientUnavailable?)
  }

  lemma NormalCases(s: Scope, o: Obs)
    ensures var t := NormalStep(s, o);
            Gated(s, t) || t == MarkReady(ReconcileVM(Scope(s.m.(finalizer := true), s.log), o))
  {
    if s.m.reason.VMProvisionFailed? || !o.infraReady || !o.dataSecret {
    } else if !s.m.finalizer && !o.finalizerPatchOk {
    } else if !o.failureDomainOk || !o.clientOk {
    } else {
    }
  }

  datatype ApiError = ErrVMIDFree | ErrVMNotOnNode | OtherError(saysDoesNotExist: bool)

  datatype DeleteCall = DeleteCall(err: Option<ApiError>, stopped: bool)

  /** APIClient.DeleteVM */
  function ApiDelete(id: VmId, d: DeleteObs): DeleteCall {
    if id < 100 then DeleteCall(Some(OtherError(true)), false)
    else if !d.nodeOk then DeleteCall(Some(OtherError(d.errorSaysDoesNotExist)), false)
    else if !d.clusterOk then DeleteCall(Some(OtherError(false)), false) // its text is fixed
    else if d.check.IdFree? then DeleteCall(Some(ErrVMIDFree), false)
    else if d.check.CheckError? then DeleteCall(Some(OtherError(d.errorSaysDoesNotExist)), false)
    else if !d.readable then DeleteCall(Some(ErrVMNotOnNode), false)
    else if d.running && !d.stopOk then DeleteCall(Some(OtherError(d.errorSaysDoesNotExist)), false)
    else if !d.deleteOk then DeleteCall(Some(OtherError(d.errorSaysDoesNotExist)), d.running)
    else DeleteCall(None, d.running)
  }

  /** The Proxmox mutations a DeleteVM call made. */
  function AfterApiDelete(s: Scope, call: DeleteCall): Scope {
    if !call.stopped then
      if call.err.None? then Scope(s.m, Log(s.log, DeleteRequested(s.m.vmid))) else s
    else if call.err.None? then Scope(s.m, Log(Log(s.log, StoppedVM(s.m.vmid)), DeleteRequested(s.m.vmid)))
    else Scope(s.m, Log(s.log, StoppedVM(s.m.vmid)))
  }

  /**
   * VMNotFound. ErrVMNotOnNode wraps the text "does not exist" as well; it is told apart
   * before the text is looked at.
   */
  predicate VMNotFound(e: ApiError) {
    e.OtherError? && e.saysDoesNotExist
  }

  /** relocateForDeletion */
  function RelocateForDeletion(m: Machine, o: Obs): Machine {
    if o.resource.NoResource? || o.resource.node == "" || o.resource.node == m.Locate(o.sourceNode)
       || o.resource.name != m.name
    then m
    else m.(node := o.resource.node, placed := o.resource.node)
  }

  /** DeleteVM of the VM service. */
  function DeleteStage(s: Scope, o: Obs): Step {
    AfterDelete(AfterApiDelete(s, ApiDelete(s.m.vmid, o.del)), ApiDelete(s.m.vmid, o.del), o)
  }

  function AfterDelete(s: Scope, call: DeleteCall, o: Obs): Step {
    if call.err.None? then Step(s, Requeue)
    else if VMNotFound(call.err.value) || call.err.value.ErrVMIDFree? then
      Step(Scope(s.m.(placed := "", finalizer := false), s.log), if o.clusterPatchOk then Requeue else Failed)
    else if call.err.value.ErrVMNotOnNode? then
      Step(Scope(RelocateForDeletion(s.m, o).(reason := DeletionFailed), s.log), Failed)
    else Step(Scope(s.m.(reason := DeletionFailed), s.log), Failed)
  }

  function DeleteStep(s: Scope, o: Obs): Step {
    if s.m.vmid <= 0 && s.m.taskRef.NoTask? then
      Step(Scope(s.m.(reason := Deleting, placed := "", finalizer := false), s.log),
           if o.clusterPatchOk then Idle else Failed)
    else if !o.clientOk then Step(Scope(s.m.(reason := DeletionFailed), s.log), Failed)
    else DeleteStage(Scope(s.m.(reason := Deleting), s.log), o)
  }

  // ---- runs --------------------------------------------------------------------------------------

  /** One reconcile: of a live machine, or of one marked for deletion. */
  datatype Input = Normal(o: Obs) | Delete(o: Obs)

  function Next(s: Scope, i: Input): Step {
    if i.Normal? then NormalStep(s, i.o) else DeleteStep(s, i.o)
  }

  /** Any sequence of reconciles, each persisted before the next. */
  function Run(s: Scope, inputs: seq<Input>): Scope
    decreases |inputs|
  {
    if inputs == [] then s else Run(Next(s, inputs[0]).s, inputs[1..])
  }
}
