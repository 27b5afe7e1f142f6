/**
 * When a reconcile reports Ready. Every stage skips a machine whose reason is not its own, so Ready is
 * reported at the end of provisioning, but also at any reason that no stage claims.
 */
module Readiness {
  import opened Machines
  import opened Stages
  import opened StageOrder
  import TaskLock

  // ---- what a reconcile meets --------------------------------------------------------------------

  /** The reason the stages see: a machine held at one of the first two gates starts over. */
  function EntryReason(m: Machine): Reason {
    if m.reason.NoCondition? || m.reason.WaitingForClusterInfrastructureReady? || m.reason.WaitingForBootstrapData?
    then Cloning else m.reason
  }

  /** Address recovery stops on pools or claims that cannot be read. */
  predicate RecoveryFails(m: Machine, vm: VmView, net: NetObs) {
    vm.power.Running? && !m.ipAddresses && net.present && (net.poolsErr || ClaimUnresolvable in net.claims)
  }

  /** The reconcile gets to the stages with its VM, and nothing fails that every reconcile does. */
  predicate Arrives(s: Scope, o: Obs) {
    && (s.m.taskRef.NoTask? || TaskLock.TaskDone(s.m, o))
    && OwnVM(s.m, o.vm)
    && !RecoveryFails(s.m, o.vm.view, o.net)
    && (o.machineAvailable ==> o.unmountOk)
  }

  /** Addresses are known, or recovered on the way. */
  predicate HasAddresses(m: Machine, vm: VmView, net: NetObs) {
    m.ipAddresses
    || (vm.power.Running? && net.present && net.devices && forall c :: c in net.claims ==> c == ClaimResolved)
  }

  /**
   * No stage claims the machine: its configuration is skipped or empty, its disks are skipped, or its
   * reason is one that only a failure, a gate or a deletion leaves behind. The two deletion reasons are listed
   * for completeness: a machine marked for deletion is not reconciled normally again.
   */
  predicate FallsThrough(m: Machine, vm: VmView, o: Obs) {
    var r := EntryReason(m);
    || (r.Cloning? && (vm.power.Running? || m.provisioned || o.config.NothingToConfigure?))
    || (r.WaitingForDiskReconciliation? && !o.disks.NoDisks? && (vm.power.Running? || m.provisioned))
    || r.CloningFailed? || r.PoweringOnFailed? || r.FailureDomainNotReady? || r.ZoneClientUnavailable?
    || r.Deleting? || r.DeletionFailed?
  }

  predicate CloudInitDoneBy(o: Obs) {
    (o.skipAgent || o.agentOk) && (o.skipAgent || o.skipCloudInitStatus || o.cloudInit.CloudInitDone?)
  }

  predicate BootstrapGoesOn(vm: VmView, o: Obs) {
    var c := HandleDevices(o.net);
    && vm.hasMacs && o.bootstrap.Data?
    && !c.err && (c.requeue || o.bootstrap.deviceDataOk) && o.bootstrap.vrfDataOk
    && (o.bootstrap.format.UnknownFormat? || o.bootstrap.injectOk)
  }

  /** From bootstrap data to cloud-init the stages run through; later reasons have nothing left to do. */
  predicate Completes(m: Machine, vm: VmView, o: Obs) {
    var r := EntryReason(m);
    var runs := vm.power.Running? && HasAddresses(m, vm, o.net) && CloudInitDoneBy(o);
    || (r.WaitingForBootstrapDataReconciliation? && BootstrapGoesOn(vm, o) && runs)
    || ((r.WaitingForVMPowerUp? || r.WaitingForClusterAPIMachineAddresses?) && runs)
    || (r.WaitingForCloudInit? && CloudInitDoneBy(o))
    || r.WaitingForBootstrapReady? || r.Provisioned?
  }

  // ---- stage by stage, from the last -------------------------------------------------------------

  /** Reasons no stage from bootstrap on claims. */
  predicate Unclaimed(r: Reason) {
    !r.WaitingForBootstrapDataReconciliation? && !r.WaitingForVMPowerUp? && !r.WaitingForClusterAPIMachineAddresses?
    && !r.WaitingForCloudInit?
  }

  predicate Failing(r: Reason) { r.VMProvisionFailed? || r.TaskFailed? }

  function FromCloudInit(s: Scope, o: Obs): Step {
    var t := CloudInitStage(s, o);
    if !t.verdict.Continue? then t else FinalStage(t.s, o)
  }

  lemma FromCloudInitReady(s: Scope, o: Obs)
    requires o.machineAvailable ==> o.unmountOk
    ensures var t := FromCloudInit(s, o);
            && (t.verdict.Ready? <==> if s.m.reason.WaitingForCloudInit? then CloudInitDoneBy(o) else !Failing(s.m.reason))
            && (t.verdict.Ready? ==>
                  t.s.m.reason == if s.m.reason.WaitingForCloudInit? then WaitingForBootstrapReady else s.m.reason)
  {
    if s.m.reason.WaitingForCloudInit? {
      var t := CloudInitStage(s, o);
      assert t.verdict.Continue? <==> CloudInitDoneBy(o);
      assert t.verdict.Continue? ==> t.s.m.reason.WaitingForBootstrapReady?;
      FinalReady(t.s, o);
    } else {
      FinalReady(s, o);
    }
  }

  lemma FinalReady(s: Scope, o: Obs)
    requires o.machineAvailable ==> o.unmountOk
    ensures (FinalStage(s, o).verdict.Ready? <==> !Failing(s.m.reason)) && FinalStage(s, o).s.m == s.m
  {
  }

  function FromAddresses(s: Scope, vm: VmView, o: Obs): Step {
    var t := AddressStage(s, vm);
    if !t.verdict.Continue? then t else FromCloudInit(t.s, o)
  }

  lemma FromAddressesReady(s: Scope, vm: VmView, o: Obs)
    requires o.machineAvailable ==> o.unmountOk
    ensures var t := FromAddresses(s, vm, o);
            && (t.verdict.Ready? <==>
                  if s.m.reason.WaitingForClusterAPIMachineAddresses? then
                    vm.power.Running? && s.m.ipAddresses && CloudInitDoneBy(o)
                  else if s.m.reason.WaitingForCloudInit? then CloudInitDoneBy(o)
                  else !Failing(s.m.reason))
            && (t.verdict.Ready? ==>
                  t.s.m.reason == if Unclaimed(s.m.reason) || s.m.reason.WaitingForVMPowerUp?
                                     || s.m.reason.WaitingForBootstrapDataReconciliation?
                                  then s.m.reason else WaitingForBootstrapReady)
  {
    var t := AddressStage(s, vm);
    if s.m.reason.WaitingForClusterAPIMachineAddresses? {
      assert t.verdict.Continue? <==> vm.power.Running? && s.m.ipAddresses;
      assert t.verdict.Continue? ==> t.s.m.reason.WaitingForCloudInit?;
    } else {
      assert t == Step(s, Continue);
    }
    FromCloudInitReady(t.s, o);
  }

  function FromPower(s: Scope, vm: VmView, o: Obs): Step {
    var t := PowerStage(s, vm, o);
    if !t.verdict.Continue? then t else FromAddresses(t.s, vm, o)
  }

  lemma FromPowerReady(s: Scope, vm: VmView, o: Obs)
    requires (o.machineAvailable ==> o.unmountOk) && !s.m.reason.WaitingForBootstrapDataReconciliation?
    ensures var t := FromPower(s, vm, o);
            && (t.verdict.Ready? <==>
                  if s.m.reason.WaitingForVMPowerUp? || s.m.reason.WaitingForClusterAPIMachineAddresses? then
                    vm.power.Running? && s.m.ipAddresses && CloudInitDoneBy(o)
                  else if s.m.reason.WaitingForCloudInit? then CloudInitDoneBy(o)
                  else !Failing(s.m.reason))
            && (t.verdict.Ready? ==>
                  t.s.m.reason == if Unclaimed(s.m.reason) then s.m.reason else WaitingForBootstrapReady)
  {
    var t := PowerStage(s, vm, o);
    if s.m.reason.WaitingForVMPowerUp? {
      if vm.power.Running? || vm.power.OtherPower? {
        assert t == Step(Scope(s.m.(reason := WaitingForClusterAPIMachineAddresses), s.log), Continue);
        FromAddressesReady(t.s, vm, o);
      } else {
        assert !t.verdict.Continue? && !t.verdict.Ready?;
      }
    } else {
      assert t == Step(s, Continue);
      FromAddressesReady(s, vm, o);
    }
  }

  lemma BootstrapReady(s: Scope, vm: VmView, o: Obs)
    requires s.m.reason.WaitingForBootstrapDataReconciliation?
    ensures var t := BootstrapStage(s, vm, o);
            && (t.verdict.Continue? <==> BootstrapGoesOn(vm, o)) && !t.verdict.Ready?
            && (t.verdict.Continue? ==> t.s.m.reason.WaitingForVMPowerUp? && t.s.m.ipAddresses == s.m.ipAddresses)
  {
    if vm.hasMacs && o.bootstrap.Data? {
      var c := HandleDevices(o.net);
      var s1 := AfterClaims(s, c);
      assert s1.m.ipAddresses == s.m.ipAddresses;
      AfterDevicesReady(s1, c, o.bootstrap);
    }
  }

  lemma AfterDevicesReady(s: Scope, c: Collect, b: BootstrapObs)
    requires b.Data?
    ensures var t := AfterDevices(s, c, b);
            && (t.verdict.Continue? <==> !c.err && (c.requeue || b.deviceDataOk) && b.vrfDataOk
                                         && (b.format.UnknownFormat? || b.injectOk))
            && !t.verdict.Ready?
            && (t.verdict.Continue? ==> t.s.m.reason.WaitingForVMPowerUp? && t.s.m.ipAddresses == s.m.ipAddresses)
  {
  }

  lemma LateReady(s: Scope, vm: VmView, o: Obs)
    requires o.machineAvailable ==> o.unmountOk
    ensures var t := LateStages(s, vm, o); var runs := vm.power.Running? && s.m.ipAddresses && CloudInitDoneBy(o);
            && (t.verdict.Ready? <==>
                  if s.m.reason.WaitingForBootstrapDataReconciliation? then BootstrapGoesOn(vm, o) && runs
                  else if s.m.reason.WaitingForVMPowerUp? || s.m.reason.WaitingForClusterAPIMachineAddresses? then runs
                  else if s.m.reason.WaitingForCloudInit? then CloudInitDoneBy(o)
                  else !Failing(s.m.reason))
            && (t.verdict.Ready? ==>
                  t.s.m.reason == if Unclaimed(s.m.reason) then s.m.reason else WaitingForBootstrapReady)
  {
    if s.m.reason.WaitingForBootstrapDataReconciliation? {
      BootstrapReady(s, vm, o);
      var t := BootstrapStage(s, vm, o);
      if t.verdict.Continue? {
        FromPowerReady(t.s, vm, o);
        assert LateStages(s, vm, o) == FromPower(t.s, vm, o);
      }
    } else {
      FromPowerReady(s, vm, o);
      assert LateStages(s, vm, o) == FromPower(s, vm, o);
    }
  }

  lemma UnmountFails(s: Scope, vm: VmView, o: Obs)
    requires o.machineAvailable && !o.unmountOk
    ensures !LateStages(s, vm, o).verdict.Ready?
  {
    var t5 := BootstrapStage(s, vm, o);
    if s.m.reason.WaitingForBootstrapDataReconciliation? {
      BootstrapReady(s, vm, o);
    }
    var t6 := PowerStage(t5.s, vm, o);
    var t7 := AddressStage(t6.s, vm);
    var t8 := CloudInitStage(t7.s, o);
    assert !t5.verdict.Ready? && !t6.verdict.Ready? && !t7.verdict.Ready? && !t8.verdict.Ready?;
    assert !FinalStage(t8.s, o).verdict.Ready?;
  }

  lemma RecoveryGoesOn(s: Scope, vm: VmView, o: Obs)
    ensures var t := RecoveryStage(s, vm, o);
            && !t.verdict.Ready? && (t.verdict.Continue? <==> !RecoveryFails(s.m, vm, o.net)) && t.s.log == s.log
            && (t.verdict.Continue? ==>
                  t.s.m == s.m.(ipAddresses := HasAddresses(s.m, vm, o.net), addresses := t.s.m.addresses))
  {
  }

  /** With static addresses still to allocate a reconcile ends at that stage. */
  lemma AllocationStops(s: Scope, o: Obs)
    requires s.m.reason.WaitingForStaticIPAllocation?
    ensures !IPStage(s, o).verdict.Ready? && !IPStage(s, o).verdict.Continue?
  {
    TaskLock.TagLoopTasks(s, if o.net.present then o.net.heads else []);
  }

  /** The stages between the found VM and bootstrap: which reasons pass them, unchanged. */
  lemma MiddleReady(s: Scope, vm: VmView, o: Obs)
    requires EntryReason(s.m) == s.m.reason
    ensures var t2 := ConfigStage(s, vm, o); var t3 := DiskStage(t2.s, vm, o); var t4 := IPStage(t3.s, o);
            var passes := (s.m.reason.Cloning? || s.m.reason.WaitingForDiskReconciliation? ==> FallsThrough(s.m, vm, o))
                          && !s.m.reason.WaitingForStaticIPAllocation?;
            && !t2.verdict.Ready? && !t3.verdict.Ready? && !t4.verdict.Ready?
            && (t2.verdict.Continue? && t3.verdict.Continue? && t4.verdict.Continue? <==> passes)
            && (passes ==> t4.s == s)
  {
    var t2 := ConfigStage(s, vm, o);
    var t3 := DiskStage(t2.s, vm, o);
    if s.m.reason.Cloning? {
      if t2.verdict.Continue? {
        assert t2 == Step(s, Continue) && t3 == Step(s, Continue) && IPStage(s, o) == Step(s, Continue);
      } else {
        MiddleStops(t2.s, vm, o);
      }
    } else {
      assert t2 == Step(s, Continue);
      if s.m.reason.WaitingForDiskReconciliation? && !FallsThrough(s.m, vm, o) {
        MiddleStops(s, vm, o);
      } else if s.m.reason.WaitingForStaticIPAllocation? {
        assert t3 == Step(s, Continue);
        AllocationStops(s, o);
      } else {
        assert t3 == Step(s, Continue) && IPStage(s, o) == Step(s, Continue);
      }
    }
  }

  lemma MiddleStops(s: Scope, vm: VmView, o: Obs)
    requires s.m.reason.WaitingForDiskReconciliation? || s.m.reason.Cloning?
    ensures var t3 := DiskStage(s, vm, o);
            && !t3.verdict.Ready? && !IPStage(t3.s, o).verdict.Ready?
            && (s.m.reason.WaitingForDiskReconciliation? && !FallsThrough(s.m, vm, o) ==>
                  !t3.verdict.Continue? || !IPStage(t3.s, o).verdict.Continue?)
  {
    var t3 := DiskStage(s, vm, o);
    if t3.s.m.reason.WaitingForStaticIPAllocation? {
      AllocationStops(t3.s, o);
    } else {
      assert IPStage(t3.s, o) == Step(t3.s, Continue);
    }
  }

  lemma EarlyReady(s: Scope, vm: VmView, o: Obs)
    requires EntryReason(s.m) == s.m.reason
    ensures var t := EarlyStages(s, vm, o);
            && (t.verdict.Ready? <==> !RecoveryFails(s.m, vm, o.net) && (o.machineAvailable ==> o.unmountOk)
                                      && (FallsThrough(s.m, vm, o) || Completes(s.m, vm, o)))
            && (t.verdict.Ready? ==>
                  t.s.m.reason == if Unclaimed(s.m.reason) then s.m.reason else WaitingForBootstrapReady)
  {
    RecoveryGoesOn(s, vm, o);
    var t1 := RecoveryStage(s, vm, o);
    if t1.verdict.Continue? {
      MiddleReady(t1.s, vm, o);
      var t2 := ConfigStage(t1.s, vm, o);
      var t3 := DiskStage(t2.s, vm, o);
      var t4 := IPStage(t3.s, o);
      if t2.verdict.Continue? && t3.verdict.Continue? && t4.verdict.Continue? {
        assert EarlyStages(s, vm, o) == LateStages(t1.s, vm, o);
        if o.machineAvailable && !o.unmountOk {
          UnmountFails(t1.s, vm, o);
        } else {
          LateReady(t1.s, vm, o);
          ReasonsCovered(s.m, vm, o);
        }
      }
    }
  }

  /** Past the middle stages every reason that does not fail either falls through or completes. */
  lemma ReasonsCovered(m: Machine, vm: VmView, o: Obs)
    requires EntryReason(m) == m.reason
    ensures Unclaimed(m.reason) && !Failing(m.reason) && !m.reason.WaitingForStaticIPAllocation?
            && (m.reason.Cloning? || m.reason.WaitingForDiskReconciliation? ==> FallsThrough(m, vm, o)) ==>
              FallsThrough(m, vm, o) || Completes(m, vm, o)
    ensures FallsThrough(m, vm, o) ==> Unclaimed(m.reason) && !Failing(m.reason) && !Settled(m.reason)
    ensures Completes(m, vm, o) ==> !Unclaimed(m.reason) || Settled(m.reason)
  {
  }

  // ---- exactly when Ready is reported ------------------------------------------------------------

  lemma TaskStageReady(s: Scope, o: Obs)
    ensures var t := TaskStage(s, o);
            && !t.verdict.Ready?
            && (t.verdict.Continue? <==> s.m.taskRef.NoTask? || TaskLock.TaskDone(s.m, o))
            && (t.verdict.Continue? ==> t.s == Scope(s.m.(taskRef := NoTask), s.log))
  {
    if s.m.taskRef.TaskRef? && TaskLock.TaskDone(s.m, o) {
      TaskLock.DoneTaskFreesTheLock(s, o);
    } else if s.m.taskRef.TaskRef? {
      TaskLock.OpenTaskStops(s, o);
    }
  }

  lemma EnsureStageReady(s: Scope, o: Obs)
    requires s.m.taskRef.NoTask?
    ensures var t := EnsureStage(s, o);
            && !t.verdict.Ready? && (t.verdict.Continue? <==> OwnVM(s.m, o.vm))
            && (t.verdict.Continue? ==>
                  t.s == Scope(s.m.(reason := EntryReason(s.m), providerID := t.s.m.providerID), s.log))
  {
    var s1 := Initialised(s);
    assert s1 == Scope(s.m.(reason := EntryReason(s.m)), s.log);
    assert FindVM(s1.m, o.vm) == FindVM(s.m, o.vm);
    LookupReady(s1, o);
  }

  lemma LookupReady(s: Scope, o: Obs)
    ensures var t := LookupStage(s, o);
            && !t.verdict.Ready? && (t.verdict.Continue? <==> OwnVM(s.m, o.vm))
            && (t.verdict.Continue? ==> t.s == Scope(s.m.(providerID := t.s.m.providerID), s.log))
  {
    var found := FindVM(s.m, o.vm);
    if found.NotCreated? {
      CreateStops(s, o);
    } else if found.FoundVM? {
    } else {
    }
  }

  lemma CreateStops(s: Scope, o: Obs)
    ensures !CreateStage(s, o).verdict.Ready? && !CreateStage(s, o).verdict.Continue?
  {
  }

  /** The machine as the stages first see it. */
  function AtStages(s: Scope, o: Obs): Scope {
    EnsureStage(TaskStage(s, o).s, o).s
  }

  lemma ReachesStages(s: Scope, o: Obs)
    ensures if (s.m.taskRef.NoTask? || TaskLock.TaskDone(s.m, o)) && OwnVM(s.m, o.vm)
            then ReconcileVM(s, o) == EarlyStages(AtStages(s, o), o.vm.view, o)
                 && AtStages(s, o).log == s.log && SameGuards(s.m, AtStages(s, o).m)
            else !ReconcileVM(s, o).verdict.Ready?
  {
    TaskStageReady(s, o);
    var t0 := TaskStage(s, o);
    if t0.verdict.Continue? {
      EnsureStageReady(t0.s, o);
    }
  }

  /** What the guards look at, with the reason m' starts from. */
  predicate SameGuards(m: Machine, m': Machine) {
    && m'.reason == EntryReason(m) && EntryReason(m') == m'.reason
    && m'.provisioned == m.provisioned && m'.ipAddresses == m.ipAddresses && m'.vmid == m.vmid
  }

  lemma GuardsAgree(m: Machine, m': Machine, vm: VmView, o: Obs)
    requires SameGuards(m, m')
    ensures RecoveryFails(m, vm, o.net) == RecoveryFails(m', vm, o.net)
    ensures FallsThrough(m, vm, o) == FallsThrough(m', vm, o) && Completes(m, vm, o) == Completes(m', vm, o)
  {
    assert HasAddresses(m, vm, o.net) == HasAddresses(m', vm, o.net);
  }

  /** A reconcile reports Ready exactly if it arrives at its stages and falls through them or completes them. */
  lemma ReadyIff(s: Scope, o: Obs)
    ensures ReconcileVM(s, o).verdict.Ready? <==>
            Arrives(s, o) && (FallsThrough(s.m, o.vm.view, o) || Completes(s.m, o.vm.view, o))
    ensures ReconcileVM(s, o).verdict.Ready? ==>
              ReconcileVM(s, o).s.m.reason ==
                if Unclaimed(EntryReason(s.m)) then EntryReason(s.m) else WaitingForBootstrapReady
  {
    ReachesStages(s, o);
    if (s.m.taskRef.NoTask? || TaskLock.TaskDone(s.m, o)) && OwnVM(s.m, o.vm) {
      var s1 := AtStages(s, o);
      GuardsAgree(s.m, s1.m, o.vm.view, o);
      EarlyReady(s1, o.vm.view, o);
    }
  }

  /** Half-way between addresses and cloud-init, or failed for good: never reported Ready. */
  predicate Unfinished(r: Reason) {
    !Unclaimed(r) || Failing(r) || r.WaitingForStaticIPAllocation?
  }

  lemma ReadyIsNotUnfinished(s: Scope, o: Obs)
    requires ReconcileVM(s, o).verdict.Ready?
    ensures !Unfinished(ReconcileVM(s, o).s.m.reason)
  {
    ReadyIff(s, o);
  }

  // ---- Ready at a reason no stage claims ---------------------------------------------------------

  /** Falling through reports Ready whatever was done before, and does nothing but unmount the ISO. */
  lemma FallThroughIsReady(s: Scope, o: Obs)
    requires Arrives(s, o) && FallsThrough(s.m, o.vm.view, o)
    ensures ReconcileVM(s, o).verdict.Ready? && ReconcileVM(s, o).s.m.vmid == s.m.vmid
    ensures ReconcileVM(s, o).s.log == if o.machineAvailable then Log(s.log, Unmounted(s.m.vmid, o.untag)) else s.log
  {
    ReadyIff(s, o);
    ReachesStages(s, o);
    var s1 := AtStages(s, o);
    GuardsAgree(s.m, s1.m, o.vm.view, o);
    RecoveryGoesOn(s1, o.vm.view, o);
    var s2 := RecoveryStage(s1, o.vm.view, o).s;
    MiddleReady(s2, o.vm.view, o);
    ReasonsCovered(s1.m, o.vm.view, o);
    assert ReconcileVM(s, o) == LateStages(s2, o.vm.view, o) == FinalStage(s2, o);
  }

  /** One unreadable bootstrap secret: the next reconcile reports the machine Ready, nothing injected. */
  lemma UnreadableSecretThenReady(s: Scope, o: Obs, next: Obs)
    requires s.m.reason.WaitingForBootstrapDataReconciliation?
    requires Arrives(s, o) && o.vm.view.hasMacs && o.bootstrap.DataError?
    requires var s' := ReconcileVM(s, o).s; Arrives(s', next) && !next.machineAvailable
    ensures var s' := ReconcileVM(s, o).s; s'.m.reason.CloningFailed? && s'.log == s.log
    ensures var t := ReconcileVM(ReconcileVM(s, o).s, next); t.verdict.Ready? && t.s.log == s.log
  {
    BootstrapFails(s, o);
    FallThroughIsReady(ReconcileVM(s, o).s, next);
  }

  lemma BootstrapFails(s: Scope, o: Obs)
    requires s.m.reason.WaitingForBootstrapDataReconciliation?
    requires Arrives(s, o) && o.vm.view.hasMacs && o.bootstrap.DataError?
    ensures ReconcileVM(s, o).s.m.reason.CloningFailed? && ReconcileVM(s, o).s.log == s.log
  {
    ReachesStages(s, o);
    var s1 := AtStages(s, o);
    GuardsAgree(s.m, s1.m, o.vm.view, o);
    RecoveryGoesOn(s1, o.vm.view, o);
    var s2 := RecoveryStage(s1, o.vm.view, o).s;
    MiddleReady(s2, o.vm.view, o);
    assert ReconcileVM(s, o) == LateStages(s2, o.vm.view, o) == BootstrapStage(s2, o.vm.view, o);
  }

  /** The gates all pass. */
  predicate GatesOpen(s: Scope, o: Obs) {
    && !s.m.reason.VMProvisionFailed? && o.infraReady && o.dataSecret && (s.m.finalizer || o.finalizerPatchOk)
    && o.failureDomainOk && o.clientOk
  }

  /** One reconcile without a zone client: the next one marks the machine provisioned, wherever it was. */
  lemma ClosedGateThenReady(s: Scope, o: Obs, next: Obs)
    requires GatesOpen(s, o.(clientOk := true)) && !o.clientOk
    requires var s' := NormalStep(s, o).s;
             GatesOpen(s', next) && Arrives(Scope(s'.m.(finalizer := true), s'.log), next) && !next.machineAvailable
    ensures NormalStep(s, o).s.m.reason.ZoneClientUnavailable?
    ensures var t := NormalStep(NormalStep(s, o).s, next);
            t.verdict.Ready? && t.s.m.provisioned && t.s.m.reason.Provisioned? && t.s.log == s.log
  {
    var s' := NormalStep(s, o).s;
    assert s' == Scope(s.m.(finalizer := true, reason := ZoneClientUnavailable), s.log);
    FallThroughIsReady(Scope(s'.m.(finalizer := true), s'.log), next);
  }

  /** A clone with nothing to configure is Ready at once, stopped and without addresses or bootstrap data. */
  lemma NothingToConfigureIsReady(s: Scope, o: Obs)
    requires EntryReason(s.m).Cloning? && o.config.NothingToConfigure? && Arrives(s, o) && !o.machineAvailable
    ensures ReconcileVM(s, o).verdict.Ready? && ReconcileVM(s, o).s.log == s.log
  {
    FallThroughIsReady(s, o);
  }

  /** After one failed clone request the retried clone is Ready as soon as its task is done. */
  lemma RetriedCloneIsReady(s: Scope, failed: Obs, retried: Obs, done: Obs)
    requires s.m.taskRef.NoTask? && s.m.vmid <= 0 && failed.create.CloneError? && !s.m.reason.VMProvisionFailed?
    requires retried.create.CloneAccepted? && retried.clusterPatchOk
    requires var s2 := ReconcileVM(ReconcileVM(s, failed).s, retried).s; Arrives(s2, done) && !done.machineAvailable
    ensures var t := ReconcileVM(ReconcileVM(ReconcileVM(s, failed).s, retried).s, done);
            t.verdict.Ready? && t.s.log == Log(s.log, Cloned(retried.create.id, retried.create.task))
  {
    var s1 := ReconcileVM(s, failed).s;
    CloneErrorIs(s, failed);
    var s2 := ReconcileVM(s1, retried).s;
    CloneAcceptedIs(s1, retried);
    FallThroughIsReady(s2, done);
  }

  lemma CloneErrorIs(s: Scope, o: Obs)
    requires s.m.taskRef.NoTask? && s.m.vmid <= 0 && o.create.CloneError? && !s.m.reason.VMProvisionFailed?
    ensures ReconcileVM(s, o).s == Scope(s.m.(reason := CloningFailed), s.log)
  {
    var s1 := Initialised(s);
    assert ReconcileVM(s, o) == CreateStage(s1, o);
    assert s1 == Scope(s.m.(reason := EntryReason(s.m)), s.log);
    assert CreateStage(s1, o).s == Scope(s1.m.(reason := CloningFailed), s1.log);
  }

  lemma CloneAcceptedIs(s: Scope, o: Obs)
    requires s.m.taskRef.NoTask? && s.m.vmid <= 0 && o.create.CloneAccepted? && o.clusterPatchOk
    requires s.m.reason.CloningFailed?
    ensures var t := ReconcileVM(s, o).s;
            t.m.reason.CloningFailed? && t.log == Log(s.log, Cloned(o.create.id, o.create.task))
  {
    assert Initialised(s) == s;
    assert ReconcileVM(s, o) == CreateStage(s, o);
  }

  // ---- Ready over whole runs ---------------------------------------------------------------------

  /** The reconcile enters its stages at one of the reasons that fall through them. */
  predicate EntersFallThrough(s: Scope, o: Obs) {
    GatesOpen(s, o) && Arrives(s, o) && FallsThrough(s.m, o.vm.view, o)
  }

  lemma FinalizerAside(s: Scope, o: Obs)
    ensures var s1 := Scope(s.m.(finalizer := true), s.log);
            && EntryReason(s1.m) == EntryReason(s.m)
            && (Arrives(s1, o) <==> Arrives(s, o))
            && (NormalStep(s, o).verdict.Ready? <==> GatesOpen(s, o) && ReconcileVM(s1, o).verdict.Ready?)
            && (NormalStep(s, o).verdict.Ready? ==> NormalStep(s, o) == MarkReady(ReconcileVM(s1, o)))
  {
    assert FindVM(Scope(s.m.(finalizer := true), s.log).m, o.vm) == FindVM(s.m, o.vm);
  }

  /** A reported Ready is earned exactly if the reconcile did not fall through. */
  lemma EarnedIff(s: Scope, o: Obs)
    requires NormalStep(s, o).verdict.Ready?
    ensures Earned(s, o) <==> !EntersFallThrough(s, o)
  {
    var s1 := Scope(s.m.(finalizer := true), s.log);
    FinalizerAside(s, o);
    ReadyIff(s1, o);
    var m := s1.m.(reason := EntryReason(s1.m));
    ReasonsCovered(m, o.vm.view, o);
    assert FallsThrough(m, o.vm.view, o) == FallsThrough(s.m, o.vm.view, o);
    assert Completes(m, o.vm.view, o) == Completes(s1.m, o.vm.view, o);
  }

  /** A fall-through keeps the machine as done, or as undone, as it was. */
  lemma FallThroughKeepsDone(s: Scope, o: Obs)
    requires EntersFallThrough(s, o)
    ensures var s' := NormalStep(s, o).s;
            NormalStep(s, o).verdict.Ready? && s'.m.vmid == s.m.vmid && (Done(s') <==> Done(s))
    ensures Done(ReconcileVM(Scope(s.m.(finalizer := true), s.log), o).s) <==> Done(s)
  {
    var s1 := Scope(s.m.(finalizer := true), s.log);
    FinalizerAside(s, o);
    FallThroughIsReady(s1, o);
    var t := ReconcileVM(s1, o);
    SameVmSameDone(s, t.s, o);
    SameVmSameDone(s, MarkReady(t).s, o);
  }

  lemma SameVmSameDone(s: Scope, s': Scope, o: Obs)
    requires s'.m.vmid == s.m.vmid && (s'.log == s.log || s'.log == Log(s.log, Unmounted(s.m.vmid, o.untag)))
    ensures Done(s') <==> Done(s)
  {
    DoneIgnoresUnmount(s.log, s.m.vmid, o);
  }

  lemma DoneIgnoresUnmount(log: Log, id: VmId, o: Obs)
    ensures Prepared(Log(log, Unmounted(id, o.untag)), id) == Prepared(log, id)
    ensures RanPrepared(Log(log, Unmounted(id, o.untag)), id) == RanPrepared(log, id)
  {
  }

  /** Falling through with a machine that is not done. */
  predicate Harmful(s: Scope, o: Obs) { EntersFallThrough(s, o) && !Done(s) }

  /** One reconcile: it reports Ready of a machine that is not done exactly if it falls through with one. */
  lemma StepIsDoneIff(s: Scope, o: Obs)
    requires Inv(s, true) && Supported(o)
    ensures (NormalStep(s, o).verdict.Ready? ==> Done(NormalStep(s, o).s)) <==> !Harmful(s, o)
    ensures !Harmful(s, o) ==> EarnedOrDone(s, o) && Inv(NormalStep(s, o).s, true)
  {
    if EntersFallThrough(s, o) {
      FallThroughKeepsDone(s, o);
    } else if NormalStep(s, o).verdict.Ready? {
      EarnedIff(s, o);
    }
    if !Harmful(s, o) {
      NormalStepKeeps(s, o, true);
      if NormalStep(s, o).verdict.Ready? {
        FinalizerAside(s, o);
        ProvisionedIsDone(NormalStep(s, o).s);
      }
    }
  }

  lemma ProvisionedIsDone(s: Scope)
    requires Inv(s, true) && s.m.reason.Provisioned?
    ensures Done(s)
  {
  }

  /** Every Ready of the run is of a machine that is done. */
  predicate ReadyIsDone(s: Scope, inputs: seq<Input>)
    decreases |inputs|
  {
    inputs == []
    || ((inputs[0].Normal? && NormalStep(s, inputs[0].o).verdict.Ready? ==> Done(NormalStep(s, inputs[0].o).s))
        && ReadyIsDone(Next(s, inputs[0]).s, inputs[1..]))
  }

  /** No reconcile of the run falls through with a machine that is not done. */
  predicate Harmless(s: Scope, inputs: seq<Input>)
    decreases |inputs|
  {
    inputs == []
    || ((inputs[0].Normal? ==> !Harmful(s, inputs[0].o)) && Harmless(Next(s, inputs[0]).s, inputs[1..]))
  }

  /**
   * Over every run with supported bootstrap formats: each machine reported Ready has its addresses and then its
   * bootstrap data, and was seen running after that, exactly if no reconcile falls through with one that has not.
   */
  lemma {:induction false} ReadyIsDoneIff(s: Scope, inputs: seq<Input>)
    requires Inv(s, true) && forall k :: 0 <= k < |inputs| ==> Supported(inputs[k].o)
    ensures ReadyIsDone(s, inputs) <==> Harmless(s, inputs)
    ensures Harmless(s, inputs) ==> Inv(Run(s, inputs), true)
    decreases |inputs|
  {
    if inputs != [] {
      if inputs[0].Normal? {
        StepIsDoneIff(s, inputs[0].o);
      } else {
        NextKeeps(s, inputs[0], true);
      }
      if inputs[0].Normal? ==> !Harmful(s, inputs[0].o) {
        ReadyIsDoneIff(Next(s, inputs[0]).s, inputs[1..]);
      }
    }
  }

  /** In particular, from a fresh machine on. */
  lemma ReadyMeansRunning(s: Scope, inputs: seq<Input>, o: Obs)
    requires Fresh(s) && Supported(o) && forall k :: 0 <= k < |inputs| ==> Supported(inputs[k].o)
    requires Harmless(s, inputs) && NormalStep(Run(s, inputs), o).verdict.Ready?
    ensures Done(NormalStep(Run(s, inputs), o).s) <==> !Harmful(Run(s, inputs), o)
    ensures StartsPrepared(NormalStep(Run(s, inputs), o).s.log)
  {
    ReadyIsDoneIff(s, inputs);
    StepIsDoneIff(Run(s, inputs), o);
    NormalStepKeeps(Run(s, inputs), o, false);
  }

  /** A gate that closes on a provisioned machine is harmless: the next reconcile reports it Ready, and rightly so. */
  lemma ClosedGateOnDoneIsHarmless(s: Scope, o: Obs, next: Obs)
    requires Inv(s, true) && s.m.reason.Provisioned? && GatesOpen(s, o.(clientOk := true)) && !o.clientOk
    requires EntersFallThrough(NormalStep(s, o).s, next)
    ensures !Harmful(NormalStep(s, o).s, next) && Done(NormalStep(NormalStep(s, o).s, next).s)
  {
    ProvisionedIsDone(s);
    assert NormalStep(s, o).s == Scope(s.m.(finalizer := true, reason := ZoneClientUnavailable), s.log);
    FallThroughKeepsDone(NormalStep(s, o).s, next);
  }

  /** Entering at such a reason marks the machine provisioned with nothing more done. */
  lemma FallThroughIsProvisioned(s: Scope, o: Obs)
    requires EntersFallThrough(s, o)
    ensures var t := NormalStep(s, o);
            t.verdict.Ready? && t.s.m.provisioned && t.s.m.reason.Provisioned?
            && t.s.log == if o.machineAvailable then Log(s.log, Unmounted(s.m.vmid, o.untag)) else s.log
  {
    FinalizerAside(s, o);
    FallThroughIsReady(Scope(s.m.(finalizer := true), s.log), o);
  }
}
