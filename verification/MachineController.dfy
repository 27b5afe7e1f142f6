/**
 * The machine reconciler as it runs: a scope whose machine object the stages update in place, one
 * after another, leaving early on an error or a requeue. Every method is tied to the stage function
 * that specifies it; what holds over whole runs is proved about those functions.
 */
module MachineController {
  import opened Base
  import opened Machines
  import Stages

  class MachineScope {
    var pm: Machine
    var log: Log

    constructor (m: Machine)
      ensures pm == m && log == Empty
    {
      pm := m;
      log := Empty;
    }

    function View(): Scope
      reads this
    {
      Scope(pm, log)
    }

    method Emit(e: Event)
      modifies this`log
      ensures log == Log(old(log), e)
    {
      log := Log(log, e);
    }

    method SetReason(r: Reason)
      modifies this`pm
      ensures pm == old(pm).(reason := r)
    {
      pm := pm.(reason := r);
    }

    method CheckAndRetryTask(t: Task, now: Time) returns (v: Verdict)
      requires pm.taskRef.TaskRef?
      modifies this
      ensures Stages.CheckTask(old(View()), t, now) == Step(View(), v)
    {
      if pm.retryAfter.RetryAt? && now < pm.retryAfter.time {
        return Failed;
      }
      if t.isRunning {
        return Requeue;
      } else if t.isSuccessful && t.isCompleted {
        pm := pm.(taskRef := NoTask);
        return Continue;
      } else if t.isCompleted && t.exitWarnings {
        pm := pm.(taskRef := NoTask);
        return Continue;
      } else if t.isFailed {
        TaskFailure(t.qmstart, now);
        return Requeue;
      } else {
        return Failed;
      }
    }

    /** A failed task is kept for the back-off period, then forgotten. */
    method TaskFailure(qmstart: bool, now: Time)
      requires pm.taskRef.TaskRef?
      modifies this
      ensures log == if old(pm).retryAfter.NoRetry? then Log(old(log), FailureSeen(old(pm).taskRef.id, now))
                     else Log(Log(old(log), FailureSeen(old(pm).taskRef.id, now)), TaskDropped(old(pm).taskRef.id, now))
      ensures pm == old(pm).(reason := if qmstart then old(pm).reason else TaskFailed,
                             taskRef := if old(pm).retryAfter.NoRetry? then old(pm).taskRef else NoTask,
                             retryAfter := if old(pm).retryAfter.NoRetry? then RetryAt(now + TASK_BACKOFF) else NoRetry)
    {
      Emit(FailureSeen(pm.taskRef.id, now));
      if !qmstart {
        SetReason(TaskFailed);
      }
      if pm.retryAfter.NoRetry? {
        pm := pm.(retryAfter := RetryAt(now + TASK_BACKOFF));
      } else {
        Emit(TaskDropped(pm.taskRef.id, now));
        pm := pm.(taskRef := NoTask, retryAfter := NoRetry);
      }
    }

    method ReconcileInFlightTask(o: Obs) returns (v: Verdict)
      modifies this
      ensures Stages.TaskStage(old(View()), o) == Step(View(), v)
    {
      if pm.taskRef.NoTask? {
        return Continue;
      }
      match o.lookup {
        case LookupFailed => return Failed;
        case NilTask => return Requeue;
        case Found(t) => v := CheckAndRetryTask(t, o.now);
      }
    }

    method RecoverFromVMIDCollision(patchOk: bool)
      modifies this
      ensures Stages.Recover(old(View()), patchOk) == View()
    {
      pm := pm.(placed := "");
      if !patchOk {
        return;
      }
      pm := pm.(vmid := NO_VMID, node := "", selfAllocated := false);
      SetReason(Cloning);
    }

    method UpdateVMLocation(o: Obs)
      modifies this
      ensures Stages.Relocate(old(View()), o) == View()
    {
      if o.locate.NotLocated? || o.locate.vm.VmMissing? {
        return;
      }
      var vm := o.locate.vm.view;
      if Unnamed(vm.name, pm.vmid) {
        return;
      }
      if vm.name != pm.name {
        if pm.Recoverable() {
          RecoverFromVMIDCollision(o.clusterPatchOk);
        } else {
          SetReason(VMProvisionFailed);
        }
        return;
      }
      pm := pm.(node := vm.node, placed := vm.node);
    }

    method CreateVM(o: Obs) returns (v: Verdict)
      modifies this
      ensures Stages.CreateStage(old(View()), o) == Step(View(), v)
    {
      var terminal := false;
      match o.create {
        case CloneAccepted(id, task, target) =>
          v := Clone(id, task, target, o.clusterPatchOk);
          return;
        case VMIDError(exhausted) => terminal := exhausted;
        case ScheduleError(insufficient) => terminal := insufficient;
        case TemplateError(notFound) => terminal := notFound;
        case CloneError =>
      }
      if terminal {
        SetReason(VMProvisionFailed);
      }
      CloningFailedUnlessTerminal();
      return Failed;
    }

    /** The clone was accepted; the placement is recorded before the VMID is. */
    method Clone(id: VmId, task: TaskId, target: string, clusterPatchOk: bool) returns (v: Verdict)
      modifies this
      ensures Stages.CloneStage(old(View()), id, task, target, clusterPatchOk) == Step(View(), v)
    {
      Emit(Cloned(id, task));
      pm := pm.(node := target);
      if pm.placed == "" {
        pm := pm.(placed := target);
      }
      if !clusterPatchOk {
        CloningFailedUnlessTerminal();
        return Failed;
      }
      pm := pm.(taskRef := TaskRef(task), vmid := id, selfAllocated := true);
      return Requeue;
    }

    method CloningFailedUnlessTerminal()
      modifies this`pm
      ensures View() == Stages.CreateFailed(old(View()), false)
    {
      if !pm.reason.VMProvisionFailed? {
        SetReason(CloningFailed);
      }
    }

    method EnsureVirtualMachine(o: Obs) returns (v: Verdict)
      modifies this
      ensures Stages.EnsureStage(old(View()), o) == Step(View(), v)
    {
      if pm.taskRef.TaskRef? {
        return Requeue;
      }
      if pm.reason.NoCondition? || pm.reason.WaitingForClusterInfrastructureReady?
         || pm.reason.WaitingForBootstrapData? {
        SetReason(Cloning);
      }
      match Stages.FindVM(pm, o.vm) {
        case NotFound => UpdateVMLocation(o); return Failed;
        case Collision => RecoverFromVMIDCollision(o.clusterPatchOk); return Failed;
        case NotInitialized => return Failed;
        case NotCreated => v := CreateVM(o);
        case FoundVM(vm) =>
          pm := pm.(providerID := PROVIDER_SCHEME + vm.uuid);
          return Continue;
      }
    }

    method ReconcileAddressRecovery(vm: VmView, o: Obs) returns (v: Verdict)
      modifies this
      ensures Stages.RecoveryStage(old(View()), vm, o) == Step(View(), v)
    {
      if !vm.power.Running? || pm.ipAddresses || !o.net.present {
        return Continue;
      }
      if o.net.poolsErr {
        return Failed;
      }
      var incomplete := false;
      for i := 0 to |o.net.claims|
        invariant forall j :: 0 <= j < i ==> o.net.claims[j] != ClaimUnresolvable
        invariant incomplete ==> exists c :: c in o.net.claims && c != ClaimResolved
        invariant !incomplete ==> forall j :: 0 <= j < i ==> o.net.claims[j] == ClaimResolved
        invariant pm == old(pm) && log == old(log)
      {
        if o.net.claims[i].ClaimUnresolvable? {
          return Failed;
        }
        if !o.net.claims[i].ClaimResolved? {
          assert o.net.claims[i] in o.net.claims;
          incomplete := true;
        }
      }
      if incomplete || !o.net.devices {
        return Continue;
      }
      pm := pm.(ipAddresses := true, addresses := true);
      return Continue;
    }

    method ReconcileVirtualMachineConfig(vm: VmView, o: Obs) returns (v: Verdict)
      modifies this
      ensures Stages.ConfigStage(old(View()), vm, o) == Step(View(), v)
    {
      if !pm.reason.Cloning? {
        return Continue;
      }
      if vm.power.Running? || pm.provisioned {
        return Continue;
      }
      match o.config {
        case NothingToConfigure => return Continue;
        case ConfigureError => return Failed;
        case ConfigureAccepted(task) =>
          Emit(Configured(pm.vmid, task));
          pm := pm.(taskRef := TaskRef(task));
          SetReason(WaitingForDiskReconciliation);
          return Requeue;
      }
    }

    method ReconcileDisks(vm: VmView, o: Obs) returns (v: Verdict)
      modifies this
      ensures Stages.DiskStage(old(View()), vm, o) == Step(View(), v)
    {
      if !pm.reason.WaitingForDiskReconciliation? {
        return Continue;
      }
      if !o.disks.NoDisks? {
        if vm.power.Running? || pm.provisioned {
          return Continue;
        }
        if o.disks.ResizeError? {
          return Failed;
        }
        if o.disks.ResizeAccepted? {
          Emit(Resized(pm.vmid, o.disks.task));
        }
      }
      SetReason(WaitingForStaticIPAllocation);
      return Continue;
    }

    /** handleDevices: the claim loop, whose conflicts write the reason. */
    method HandleDevices(net: NetObs) returns (requeue: bool, err: bool)
      modifies this`pm
      ensures var c := Stages.HandleDevices(net);
              View() == Stages.AfterClaims(old(View()), c) && requeue == c.requeue && err == c.err
    {
      requeue := false;
      if net.poolsErr {
        return false, true;
      }
      var claims := if net.present then net.claims else [];
      ghost var conflict := false;
      for i := 0 to |claims|
        invariant pm == if conflict then old(pm).(reason := WaitingForStaticIPAllocation) else old(pm)
        invariant Stages.HandleClaims(conflict, requeue, claims[i..]) == Stages.HandleClaims(false, false, claims)
      {
        match claims[i] {
          case ClaimUnresolvable => return true, true;
          case ClaimMissing(createOk) =>
            if !createOk {
              return true, true;
            }
            requeue := true;
          case ClaimPending => requeue := true;
          case ClaimResolved =>
          case ClaimConflict =>
            SetReason(WaitingForStaticIPAllocation);
            requeue := true;
            conflict := true;
        }
        assert claims[i..][1..] == claims[i + 1..];
      }
      err := false;
    }

    method ReconcileIPAddresses(o: Obs) returns (v: Verdict)
      modifies this
      ensures Stages.IPStage(old(View()), o) == Step(View(), v)
    {
      if !pm.reason.WaitingForStaticIPAllocation? {
        return Continue;
      }
      if o.net.present {
        var requeue, err := HandleDevices(o.net);
        assert pm == old(pm);
        if err {
          return Failed;
        }
        if requeue {
          return Requeue;
        }
      }
      v := PublishIPAddresses(o.net);
    }

    /** Tags the VM with its default addresses and writes status.ipAddresses. */
    method PublishIPAddresses(net: NetObs) returns (v: Verdict)
      modifies this
      ensures Stages.PublishStage(old(View()), net) == Step(View(), v)
    {
      v := SetVMIPAddressTags(if net.present then net.heads else []);
      if v == Failed {
        return;
      }
      WriteIPAddressStatus(net);
      return Requeue;
    }

    method WriteIPAddressStatus(net: NetObs)
      modifies this
      ensures View() == Stages.IPsDone(old(View()), net)
    {
      pm := pm.(ipAddresses := pm.ipAddresses || (net.present && net.devices));
      SetReason(WaitingForBootstrapDataReconciliation);
      Emit(IPsWritten(pm.vmid));
    }

    /** The loop over the default pools around setVMIPAddressTag. */
    method SetVMIPAddressTags(heads: seq<PoolHead>) returns (v: Verdict)
      modifies this
      ensures Stages.TagLoop(old(View()), heads) == Step(View(), v)
    {
      for i := 0 to |heads|
        invariant Stages.TagLoop(View(), heads[i..]) == Stages.TagLoop(old(View()), heads)
      {
        assert heads[i..][1..] == heads[i + 1..];
        if heads[i].NeedsTag() {
          if heads[i].tag.NoTask? {
            return Failed;
          }
          Emit(Tagged(pm.vmid, heads[i].tag.id));
          pm := pm.(taskRef := heads[i].tag);
        }
      }
      return Continue;
    }

    method ReconcileBootstrapData(vm: VmView, o: Obs) returns (v: Verdict)
      modifies this
      ensures Stages.BootstrapStage(old(View()), vm, o) == Step(View(), v)
    {
      if !pm.reason.WaitingForBootstrapDataReconciliation? {
        return Continue;
      }
      if !vm.hasMacs {
        return Requeue;
      }
      if o.bootstrap.DataError? {
        SetReason(CloningFailed);
        return Failed;
      }
      var requeue, err := HandleDevices(o.net);
      if err || (!requeue && !o.bootstrap.deviceDataOk) || !o.bootstrap.vrfDataOk {
        SetReason(WaitingForBootstrapDataReconciliation);
        return Failed;
      }
      v := Inject(o.bootstrap);
    }

    method Inject(b: BootstrapObs) returns (v: Verdict)
      requires b.Data?
      modifies this
      ensures Stages.InjectStage(old(View()), b) == Step(View(), v)
    {
      if b.format == Ignition || b.format == CloudConfig {
        if !b.injectOk {
          SetReason(VMProvisionFailed);
          return Failed;
        }
        Emit(Injected(pm.vmid));
      }
      pm := pm.(bootstrapProvided := true);
      SetReason(WaitingForVMPowerUp);
      return Continue;
    }

    method ReconcilePowerState(vm: VmView, o: Obs) returns (v: Verdict)
      modifies this
      ensures Stages.PowerStage(old(View()), vm, o) == Step(View(), v)
    {
      if !pm.reason.WaitingForVMPowerUp? {
        return Continue;
      }
      if vm.power.Paused? || vm.power.Stopped? || vm.power.Hibernated? {
        if o.start.NoTask? {
          SetReason(PoweringOnFailed);
          return Failed;
        }
        Emit(if vm.power.Paused? then Resumed(pm.vmid, o.start.id) else Started(pm.vmid, o.start.id));
        pm := pm.(taskRef := o.start);
        return Requeue;
      }
      SetReason(WaitingForClusterAPIMachineAddresses);
      return Continue;
    }

    method ReconcileMachineAddresses(vm: VmView) returns (v: Verdict)
      modifies this
      ensures Stages.AddressStage(old(View()), vm) == Step(View(), v)
    {
      if !pm.reason.WaitingForClusterAPIMachineAddresses? {
        return Continue;
      }
      if !vm.power.Running? || !pm.ipAddresses {
        return Failed;
      }
      Emit(SeenRunning(pm.vmid));
      pm := pm.(addresses := true);
      SetReason(WaitingForCloudInit);
      return Continue;
    }

    method CheckCloudInitStatus(o: Obs) returns (v: Verdict)
      modifies this
      ensures Stages.CloudInitStage(old(View()), o) == Step(View(), v)
    {
      if !pm.reason.WaitingForCloudInit? {
        return Continue;
      }
      if !o.skipAgent && !o.agentOk {
        return Failed;
      }
      if !(o.skipAgent || o.skipCloudInitStatus) {
        match o.cloudInit {
          case CloudInitRunning => return Requeue;
          case CloudInitFailed => SetReason(VMProvisionFailed); return Failed;
          case CloudInitError => return Failed;
          case CloudInitDone =>
        }
      }
      SetReason(WaitingForBootstrapReady);
      return Continue;
    }

    method Finish(o: Obs) returns (v: Verdict)
      modifies this
      ensures Stages.FinalStage(old(View()), o) == Step(View(), v)
    {
      if pm.reason.VMProvisionFailed? || pm.reason.TaskFailed? {
        return Failed;
      }
      if o.machineAvailable {
        if !o.unmountOk {
          return Failed;
        }
        Emit(Unmounted(pm.vmid, o.untag));
      }
      return Ready;
    }

    /** ReconcileVM, from the VM lookup's success on. */
    method RunStages(vm: VmView, o: Obs) returns (v: Verdict)
      modifies this
      ensures Stages.EarlyStages(old(View()), vm, o) == Step(View(), v)
    {
      v := ReconcileAddressRecovery(vm, o);
      if v != Continue { return; }
      v := ReconcileVirtualMachineConfig(vm, o);
      if v != Continue { return; }
      v := ReconcileDisks(vm, o);
      if v != Continue { return; }
      v := ReconcileIPAddresses(o);
      if v != Continue { return; }
      v := RunLateStages(vm, o);
    }

    method RunLateStages(vm: VmView, o: Obs) returns (v: Verdict)
      modifies this
      ensures Stages.LateStages(old(View()), vm, o) == Step(View(), v)
    {
      v := ReconcileBootstrapData(vm, o);
      if v != Continue { return; }
      v := ReconcilePowerState(vm, o);
      if v != Continue { return; }
      v := ReconcileMachineAddresses(vm);
      if v != Continue { return; }
      v := CheckCloudInitStatus(o);
      if v != Continue { return; }
      v := Finish(o);
    }

    method ReconcileVM(o: Obs) returns (v: Verdict)
      modifies this
      ensures Stages.ReconcileVM(old(View()), o) == Step(View(), v)
    {
      v := ReconcileInFlightTask(o);
      if v != Continue { return; }
      v := EnsureVirtualMachine(o);
      if v != Continue { return; }
      v := RunStages(o.vm.view, o);
    }

    method ReconcileNormal(o: Obs) returns (v: Verdict)
      modifies this
      ensures Stages.NormalStep(old(View()), o) == Step(View(), v)
    {
      if pm.reason.VMProvisionFailed? {
        return Idle;
      }
      if !o.infraReady {
        SetReason(WaitingForClusterInfrastructureReady);
        return Idle;
      }
      if !o.dataSecret {
        SetReason(WaitingForBootstrapData);
        return Idle;
      }
      if !pm.finalizer {
        pm := pm.(finalizer := true);
        if !o.finalizerPatchOk {
          return Failed;
        }
      }
      v := ReconcileProvisioning(o);
    }

    /** reconcileNormal once the finalizer is in place. */
    method ReconcileProvisioning(o: Obs) returns (v: Verdict)
      modifies this
      ensures Stages.ProvisionStep(old(View()), o) == Step(View(), v)
    {
      if !o.failureDomainOk {
        SetReason(FailureDomainNotReady);
        return Idle;
      }
      if !o.clientOk {
        SetReason(ZoneClientUnavailable);
        return Idle;
      }
      v := ReconcileVM(o);
      if v == Ready {
        pm := pm.(provisioned := true);
        SetReason(Provisioned);
      }
    }

    method DeleteVM(o: Obs) returns (v: Verdict)
      modifies this
      ensures Stages.DeleteStage(old(View()), o) == Step(View(), v)
    {
      var call := Stages.ApiDelete(pm.vmid, o.del);
      if call.stopped {
        Emit(StoppedVM(pm.vmid));
      }
      if call.err.None? {
        Emit(DeleteRequested(pm.vmid));
        return Requeue;
      }
      if Stages.VMNotFound(call.err.value) || call.err.value.ErrVMIDFree? {
        pm := pm.(placed := "", finalizer := false);
        return if o.clusterPatchOk then Requeue else Failed;
      }
      if call.err.value.ErrVMNotOnNode? {
        RelocateForDeletion(o);
      }
      SetReason(DeletionFailed);
      return Failed;
    }

    method RelocateForDeletion(o: Obs)
      modifies this`pm
      ensures pm == Stages.RelocateForDeletion(old(pm), o)
    {
      if o.resource.NoResource? || o.resource.node == "" || o.resource.node == pm.Locate(o.sourceNode) {
        return;
      }
      if o.resource.name != pm.name {
        return;
      }
      pm := pm.(node := o.resource.node, placed := o.resource.node);
    }

    method ReconcileDelete(o: Obs) returns (v: Verdict)
      modifies this
      ensures Stages.DeleteStep(old(View()), o) == Step(View(), v)
    {
      SetReason(Deleting);
      if pm.vmid <= 0 && pm.taskRef.NoTask? {
        pm := pm.(placed := "", finalizer := false);
        return if o.clusterPatchOk then Idle else Failed;
      }
      if !o.clientOk {
        SetReason(DeletionFailed);
        return Failed;
      }
      v := DeleteVM(o);
    }
  }
}
