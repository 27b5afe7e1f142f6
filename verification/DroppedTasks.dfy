/**
 * The Proxmox tasks a reconcile starts, those included whose reference it drops: the disk resize and the
 * removal of the cloud-init tag. TaskRef never names them, so nothing waits for them.
 */
module DroppedTasks {
  import opened Machines
  import opened Stages
  import TaskLock
  import Readiness
  import StageOrder

  /** Every Proxmox task started. */
  function AllTasks(log: Log): nat {
    match log
    case Empty => 0
    case Log(before, e) => AllTasks(before) + if e.StartsTask() then 1 else 0
  }

  /** Tag requests accepted before the first refused one. */
  function TagsStarted(heads: seq<PoolHead>): nat
    decreases |heads|
  {
    if heads == [] then 0
    else if !heads[0].NeedsTag() then TagsStarted(heads[1..])
    else if heads[0].tag.NoTask? then 0
    else 1 + TagsStarted(heads[1..])
  }

  function Heads(net: NetObs): seq<PoolHead> { if net.present then net.heads else [] }

  /** The reconcile reaches the disk stage and has a resize accepted. */
  predicate Resizes(m: Machine, vm: VmView, o: Obs) {
    m.reason.WaitingForDiskReconciliation? && !vm.power.Running? && !m.provisioned && o.disks.ResizeAccepted?
  }

  /** It reaches the address stage with all claims resolved, from there or through the disk stage. */
  predicate Publishes(m: Machine, vm: VmView, o: Obs) {
    && !(o.net.present && (HandleDevices(o.net).err || HandleDevices(o.net).requeue))
    && (|| m.reason.WaitingForStaticIPAllocation?
        || (m.reason.WaitingForDiskReconciliation?
            && (o.disks.NoDisks? || (!vm.power.Running? && !m.provisioned && !o.disks.ResizeError?))))
  }

  /** The reconcile gets to its stages: the lock is free, the VM found, and address recovery does not fail. */
  predicate Enters(s: Scope, o: Obs) {
    && Readiness.GatesOpen(s, o)
    && (s.m.taskRef.NoTask? || TaskLock.TaskDone(s.m, o))
    && OwnVM(s.m, o.vm)
    && !Readiness.RecoveryFails(s.m, o.vm.view, o.net)
  }

  // ---- stage by stage ----------------------------------------------------------------------------

  lemma {:induction false} TagLoopStarts(s: Scope, heads: seq<PoolHead>)
    ensures AllTasks(TagLoop(s, heads).s.log) == AllTasks(s.log) + TagsStarted(heads)
    ensures TaskLock.KeptTasks(TagLoop(s, heads).s.log) == TaskLock.KeptTasks(s.log) + TagsStarted(heads)
    ensures TagsStarted(heads) == 0 ==> TagLoop(s, heads).s == s
    decreases |heads|
  {
    if heads != [] {
      if !heads[0].NeedsTag() {
        TagLoopStarts(s, heads[1..]);
      } else if heads[0].tag.TaskRef? {
        TagLoopStarts(Scope(s.m.(taskRef := heads[0].tag), Log(s.log, Tagged(s.m.vmid, heads[0].tag.id))), heads[1..]);
      }
    }
  }

  lemma IPStageStarts(s: Scope, o: Obs)
    requires s.m.reason.WaitingForStaticIPAllocation?
    ensures AllTasks(IPStage(s, o).s.log) ==
              AllTasks(s.log) + if o.net.present && (HandleDevices(o.net).err || HandleDevices(o.net).requeue) then 0
                                else TagsStarted(Heads(o.net))
  {
    TagLoopStarts(s, Heads(o.net));
    assert Heads(o.net) == if o.net.present then o.net.heads else [];
  }

  lemma LateStagesStart(s: Scope, vm: VmView, o: Obs)
    ensures AllTasks(s.log) <= AllTasks(LateStages(s, vm, o).s.log) <= AllTasks(s.log) + 1
  {
    var t5 := BootstrapStage(s, vm, o);
    BootstrapStarts(s, vm, o);
    if t5.verdict.Continue? {
      var t6 := PowerStage(t5.s, vm, o);
      PowerStarts(t5.s, vm, o);
      if t6.verdict.Continue? {
        var t7 := AddressStage(t6.s, vm);
        var t8 := CloudInitStage(t7.s, o);
        assert AllTasks(t7.s.log) == AllTasks(t6.s.log) && t8.s.log == t7.s.log;
        FinalStarts(t8.s, o);
      }
    }
  }

  lemma BootstrapStarts(s: Scope, vm: VmView, o: Obs)
    ensures AllTasks(BootstrapStage(s, vm, o).s.log) == AllTasks(s.log)
  {
    if s.m.reason.WaitingForBootstrapDataReconciliation? && vm.hasMacs && o.bootstrap.Data? {
      var c := HandleDevices(o.net);
      var s1 := AfterClaims(s, c);
      assert s1.log == s.log;
      AfterDevicesStart(s1, c, o.bootstrap);
    }
  }

  lemma AfterDevicesStart(s: Scope, c: Collect, b: BootstrapObs)
    requires b.Data?
    ensures AllTasks(AfterDevices(s, c, b).s.log) == AllTasks(s.log)
  {
  }

  lemma PowerStarts(s: Scope, vm: VmView, o: Obs)
    ensures var t := PowerStage(s, vm, o);
            && AllTasks(s.log) <= AllTasks(t.s.log) <= AllTasks(s.log) + 1
            && (t.verdict.Continue? ==> t.s.log == s.log)
  {
  }

  lemma FinalStarts(s: Scope, o: Obs)
    ensures AllTasks(s.log) <= AllTasks(FinalStage(s, o).s.log) <= AllTasks(s.log) + 1
  {
  }

  /** The stages from the found VM on: more than one task only where addresses are published. */
  lemma MiddleStarts(s: Scope, vm: VmView, o: Obs)
    ensures var t2 := ConfigStage(s, vm, o); var t3 := DiskStage(t2.s, vm, o); var t4 := IPStage(t3.s, o);
            var resized := if Resizes(s.m, vm, o) then 1 else 0;
            && (!t2.verdict.Continue? ==> AllTasks(s.log) <= AllTasks(t2.s.log) <= AllTasks(s.log) + 1)
            && (t2.verdict.Continue? && !t3.verdict.Continue? ==> t3.s.log == s.log)
            && (t2.verdict.Continue? && t3.verdict.Continue? ==>
                  AllTasks(t4.s.log) == AllTasks(s.log) + resized + if Publishes(s.m, vm, o) then TagsStarted(Heads(o.net)) else 0)
            && (t2.verdict.Continue? && t3.verdict.Continue? && t4.verdict.Continue? ==> t4.s == s)
  {
    var t2 := ConfigStage(s, vm, o);
    if t2.verdict.Continue? {
      assert t2 == Step(s, Continue);
      DiskStarts(s, vm, o);
      var t3 := DiskStage(s, vm, o);
      if t3.verdict.Continue? {
        if t3.s.m.reason.WaitingForStaticIPAllocation? {
          IPStageStarts(t3.s, o);
          Readiness.AllocationStops(t3.s, o);
        } else {
          assert IPStage(t3.s, o) == Step(t3.s, Continue);
        }
      }
    }
  }

  lemma DiskStarts(s: Scope, vm: VmView, o: Obs)
    ensures var t := DiskStage(s, vm, o); var resized := if Resizes(s.m, vm, o) then 1 else 0;
            && AllTasks(t.s.log) == AllTasks(s.log) + resized && (!t.verdict.Continue? ==> t.s.log == s.log)
            && (t.verdict.Continue? && !t.s.m.reason.WaitingForStaticIPAllocation? ==> t.s == s)
            && (t.verdict.Continue? && t.s.m.reason.WaitingForStaticIPAllocation? <==>
                  s.m.reason.WaitingForStaticIPAllocation?
                  || (s.m.reason.WaitingForDiskReconciliation?
                      && (o.disks.NoDisks? || (!vm.power.Running? && !s.m.provisioned && !o.disks.ResizeError?))))
  {
  }

  // ---- one reconcile -----------------------------------------------------------------------------

  function ResizeTasks(s: Scope, o: Obs): nat
    requires o.vm.Vm?
  {
    if Resizes(s.m, o.vm.view, o) then 1 else 0
  }

  lemma CreateStarts(s: Scope, o: Obs)
    ensures AllTasks(s.log) <= AllTasks(CreateStage(s, o).s.log) <= AllTasks(s.log) + 1
  {
  }

  lemma LookupStarts(s: Scope, o: Obs)
    ensures AllTasks(s.log) <= AllTasks(LookupStage(s, o).s.log) <= AllTasks(s.log) + 1
  {
    var found := FindVM(s.m, o.vm);
    if found.NotCreated? {
      CreateStarts(s, o);
    } else if found.NotFound? {
      TaskLock.RelocateKeepsTask(s, o);
    } else if found.Collision? {
      TaskLock.RecoverKeepsTask(s, o.clusterPatchOk);
    }
  }

  lemma TaskStageStarts(s: Scope, o: Obs)
    ensures AllTasks(TaskStage(s, o).s.log) == AllTasks(s.log)
  {
    if s.m.taskRef.TaskRef? && o.lookup.Found? {
      var t := o.lookup.task;
      if s.m.retryAfter.RetryAt? && o.now < s.m.retryAfter.time {
      } else if Classify(t).TaskRunning? || Classify(t).TaskUnknown? {
      } else if Classify(t).TaskSucceeded? {
      } else if s.m.retryAfter.NoRetry? {
      } else {
      }
    }
  }

  /** Without its VM a reconcile starts the clone at most. */
  lemma NotFoundStarts(s: Scope, o: Obs)
    requires !((s.m.taskRef.NoTask? || TaskLock.TaskDone(s.m, o)) && OwnVM(s.m, o.vm))
    ensures AllTasks(s.log) <= AllTasks(ReconcileVM(s, o).s.log) <= AllTasks(s.log) + 1
  {
    Readiness.TaskStageReady(s, o);
    TaskStageStarts(s, o);
    var t0 := TaskStage(s, o);
    if t0.verdict.Continue? {
      Readiness.EnsureStageReady(t0.s, o);
      LookupStarts(Initialised(t0.s), o);
      assert Initialised(t0.s).log == t0.s.log;
    }
  }

  /** With it, more than one task only where addresses are published. */
  lemma EarlyStagesStart(s: Scope, vm: VmView, o: Obs)
    requires !Readiness.RecoveryFails(s.m, vm, o.net)
    ensures var n := AllTasks(EarlyStages(s, vm, o).s.log) - AllTasks(s.log);
            if Publishes(s.m, vm, o) then n == (if Resizes(s.m, vm, o) then 1 else 0) + TagsStarted(Heads(o.net))
            else 0 <= n <= 1
  {
    Readiness.RecoveryGoesOn(s, vm, o);
    var t1 := RecoveryStage(s, vm, o);
    MiddleStarts(t1.s, vm, o);
    var t2 := ConfigStage(t1.s, vm, o);
    var t3 := DiskStage(t2.s, vm, o);
    var t4 := IPStage(t3.s, o);
    if t2.verdict.Continue? && t3.verdict.Continue? && t4.verdict.Continue? {
      LateStagesStart(t1.s, vm, o);
      assert EarlyStages(s, vm, o) == LateStages(t1.s, vm, o);
    }
    SameRoute(s.m, t1.s.m, vm, o);
    PublishingRoute(t1.s, vm, o);
  }

  lemma SameRoute(m: Machine, m': Machine, vm: VmView, o: Obs)
    requires m'.reason == m.reason && m'.provisioned == m.provisioned
    ensures Publishes(m', vm, o) == Publishes(m, vm, o) && Resizes(m', vm, o) == Resizes(m, vm, o)
  {
  }

  lemma PublishingRoute(s: Scope, vm: VmView, o: Obs)
    ensures Publishes(s.m, vm, o) ==> ConfigStage(s, vm, o) == Step(s, Continue) && DiskStage(s, vm, o).verdict.Continue?
                                      && !IPStage(DiskStage(s, vm, o).s, o).verdict.Continue?
  {
    if Publishes(s.m, vm, o) {
      DiskStarts(s, vm, o);
      Readiness.AllocationStops(DiskStage(s, vm, o).s, o);
    }
  }

  /** What a normal reconcile starts. */
  lemma NormalStarts(s: Scope, o: Obs)
    ensures var n := AllTasks(NormalStep(s, o).s.log) - AllTasks(s.log);
            if Enters(s, o) && Publishes(s.m, o.vm.view, o) then n == ResizeTasks(s, o) + TagsStarted(Heads(o.net))
            else 0 <= n <= 1
  {
    NormalCases(s, o);
    var s1 := Scope(s.m.(finalizer := true), s.log);
    if Readiness.GatesOpen(s, o) {
      assert NormalStep(s, o).s.log == ReconcileVM(s1, o).s.log;
      assert FindVM(s1.m, o.vm) == FindVM(s.m, o.vm);
      ReconcileStarts(s1, o);
      if OwnVM(s.m, o.vm) {
        SameRoute(s.m, s1.m, o.vm.view, o);
      }
    } else {
      assert NormalStep(s, o).s.log == s.log;
    }
  }

  lemma ReconcileStarts(s: Scope, o: Obs)
    ensures var n := AllTasks(ReconcileVM(s, o).s.log) - AllTasks(s.log);
            if (s.m.taskRef.NoTask? || TaskLock.TaskDone(s.m, o)) && OwnVM(s.m, o.vm)
               && !Readiness.RecoveryFails(s.m, o.vm.view, o.net) && Publishes(s.m, o.vm.view, o)
            then n == ResizeTasks(s, o) + TagsStarted(Heads(o.net))
            else 0 <= n <= 1
  {
    if (s.m.taskRef.NoTask? || TaskLock.TaskDone(s.m, o)) && OwnVM(s.m, o.vm) {
      Readiness.ReachesStages(s, o);
      var s1 := Readiness.AtStages(s, o);
      Readiness.GuardsAgree(s.m, s1.m, o.vm.view, o);
      if Readiness.RecoveryFails(s1.m, o.vm.view, o.net) {
        Readiness.RecoveryGoesOn(s1, o.vm.view, o);
        assert EarlyStages(s1, o.vm.view, o) == RecoveryStage(s1, o.vm.view, o);
      } else {
        EarlyStagesStart(s1, o.vm.view, o);
        EntryRoute(s.m, s1.m, o.vm.view, o);
      }
    } else {
      NotFoundStarts(s, o);
    }
  }

  lemma EntryRoute(m: Machine, m': Machine, vm: VmView, o: Obs)
    requires Readiness.SameGuards(m, m')
    ensures Publishes(m', vm, o) == Publishes(m, vm, o) && Resizes(m', vm, o) == Resizes(m, vm, o)
  {
  }

  /**
   * A normal reconcile starts at most one Proxmox task exactly unless it publishes addresses having had a resize
   * accepted and tags, or several tags, requested.
   */
  lemma OneTaskIff(s: Scope, o: Obs)
    ensures AllTasks(NormalStep(s, o).s.log) <= AllTasks(s.log) + 1 <==>
            !(Enters(s, o) && Publishes(s.m, o.vm.view, o) && ResizeTasks(s, o) + TagsStarted(Heads(o.net)) > 1)
  {
    NormalStarts(s, o);
  }

  // ---- the dropped resize ------------------------------------------------------------------------

  /** Where the reconcile leaves a machine whose addresses it publishes. */
  lemma PublishingIs(s: Scope, o: Obs)
    requires Enters(s, o) && Publishes(s.m, o.vm.view, o)
    ensures var s' := NormalStep(s, o).s;
            && TaskLock.KeptTasks(s'.log) == TaskLock.KeptTasks(s.log) + TagsStarted(Heads(o.net))
            && (TaskLock.Untagged(Heads(o.net)) == 0 ==>
                  s'.m.taskRef.NoTask? && s'.m.reason.WaitingForBootstrapDataReconciliation? && s'.m.vmid == s.m.vmid)
  {
    var s1 := Scope(s.m.(finalizer := true), s.log);
    assert FindVM(s1.m, o.vm) == FindVM(s.m, o.vm);
    NormalCases(s, o);
    Readiness.ReachesStages(s1, o);
    var s2 := Readiness.AtStages(s1, o);
    AtStagesIsFree(s1, o);
    Readiness.GuardsAgree(s1.m, s2.m, o.vm.view, o);
    EntryRoute(s1.m, s2.m, o.vm.view, o);
    Readiness.RecoveryGoesOn(s2, o.vm.view, o);
    var s3 := RecoveryStage(s2, o.vm.view, o).s;
    SameRoute(s2.m, s3.m, o.vm.view, o);
    PublishingRoute(s3, o.vm.view, o);
    DiskStarts(s3, o.vm.view, o);
    var s4 := DiskStage(s3, o.vm.view, o).s;
    assert ReconcileVM(s1, o) == IPStage(s4, o) && !IPStage(s4, o).verdict.Ready? by {
      Readiness.AllocationStops(s4, o);
    }
    DiskKeeps(s3, o.vm.view, o);
    PublishKeeps(s4, o);
  }

  lemma AtStagesIsFree(s: Scope, o: Obs)
    requires (s.m.taskRef.NoTask? || TaskLock.TaskDone(s.m, o)) && OwnVM(s.m, o.vm)
    ensures Readiness.AtStages(s, o).m.taskRef.NoTask?
  {
    Readiness.TaskStageReady(s, o);
    Readiness.EnsureStageReady(TaskStage(s, o).s, o);
  }

  lemma DiskKeeps(s: Scope, vm: VmView, o: Obs)
    ensures var s' := DiskStage(s, vm, o).s;
            s'.m.taskRef == s.m.taskRef && s'.m.vmid == s.m.vmid && TaskLock.KeptTasks(s'.log) == TaskLock.KeptTasks(s.log)
  {
  }

  lemma PublishKeeps(s: Scope, o: Obs)
    requires s.m.reason.WaitingForStaticIPAllocation?
    requires !(o.net.present && (HandleDevices(o.net).err || HandleDevices(o.net).requeue))
    ensures var s' := IPStage(s, o).s;
            && TaskLock.KeptTasks(s'.log) == TaskLock.KeptTasks(s.log) + TagsStarted(Heads(o.net))
            && (TaskLock.Untagged(Heads(o.net)) == 0 ==>
                  s'.m.taskRef == s.m.taskRef && s'.m.reason.WaitingForBootstrapDataReconciliation? && s'.m.vmid == s.m.vmid)
  {
    TagLoopStarts(s, Heads(o.net));
    if TaskLock.Untagged(Heads(o.net)) == 0 {
      NoTagsNeeded(s, Heads(o.net));
    }
    assert IPStage(s, o) == PublishStage(s, o.net);
  }

  lemma {:induction false} NoTagsNeeded(s: Scope, heads: seq<PoolHead>)
    requires TaskLock.Untagged(heads) == 0
    ensures TagLoop(s, heads) == Step(s, Continue) && TagsStarted(heads) == 0
    decreases |heads|
  {
    if heads != [] {
      NoTagsNeeded(s, heads[1..]);
    }
  }

  /** A resize and one tag in one reconcile: two tasks are started, and TaskRef knows of one. */
  lemma ResizeAndTag(s: Scope, o: Obs)
    requires Enters(s, o) && Publishes(s.m, o.vm.view, o) && Resizes(s.m, o.vm.view, o) && TagsStarted(Heads(o.net)) == 1
    ensures AllTasks(NormalStep(s, o).s.log) == AllTasks(s.log) + 2
    ensures TaskLock.KeptTasks(NormalStep(s, o).s.log) == TaskLock.KeptTasks(s.log) + 1
  {
    NormalStarts(s, o);
    PublishingIs(s, o);
  }

  lemma LateMutates(s: Scope, vm: VmView, o: Obs)
    requires s.m.reason.WaitingForBootstrapDataReconciliation? && Readiness.BootstrapGoesOn(vm, o)
    requires !o.bootstrap.format.UnknownFormat?
    ensures TaskLock.Mutations(LateStages(s, vm, o).s.log) > TaskLock.Mutations(s.log)
  {
    var t5 := BootstrapStage(s, vm, o);
    Readiness.BootstrapReady(s, vm, o);
    StageOrder.InjectedIffSupported(s, vm, o);
    assert TaskLock.Mutations(t5.s.log) == TaskLock.Mutations(s.log) + 1;
    var t6 := PowerStage(t5.s, vm, o);
    var t7 := AddressStage(t6.s, vm);
    var t8 := CloudInitStage(t7.s, o);
    assert TaskLock.Mutations(t6.s.log) >= TaskLock.Mutations(t5.s.log);
    assert TaskLock.Mutations(t7.s.log) >= TaskLock.Mutations(t6.s.log);
    assert t8.s.log == t7.s.log;
    assert TaskLock.Mutations(FinalStage(t8.s, o).s.log) >= TaskLock.Mutations(t8.s.log);
  }

  /** Nothing waits for the resize: whatever has become of it, the next reconcile goes on to change the VM. */
  lemma ResizeBlocksNothing(s: Scope, o: Obs, next: Obs)
    requires Enters(s, o) && Publishes(s.m, o.vm.view, o) && Resizes(s.m, o.vm.view, o)
    requires TaskLock.Untagged(Heads(o.net)) == 0
    requires Enters(NormalStep(s, o).s, next) && Readiness.BootstrapGoesOn(next.vm.view, next)
    requires !next.bootstrap.format.UnknownFormat?
    ensures NormalStep(s, o).s.m.taskRef.NoTask?
    ensures TaskLock.Mutations(NormalStep(NormalStep(s, o).s, next).s.log) > TaskLock.Mutations(NormalStep(s, o).s.log)
  {
    PublishingIs(s, o);
    BootstrapMutates(NormalStep(s, o).s, next);
  }

  lemma BootstrapMutates(s: Scope, o: Obs)
    requires s.m.reason.WaitingForBootstrapDataReconciliation? && Enters(s, o)
    requires Readiness.BootstrapGoesOn(o.vm.view, o) && !o.bootstrap.format.UnknownFormat?
    ensures TaskLock.Mutations(NormalStep(s, o).s.log) > TaskLock.Mutations(s.log)
  {
    var s1 := Scope(s.m.(finalizer := true), s.log);
    assert FindVM(s1.m, o.vm) == FindVM(s.m, o.vm);
    NormalCases(s, o);
    assert NormalStep(s, o).s.log == ReconcileVM(s1, o).s.log;
    Readiness.ReachesStages(s1, o);
    var s2 := Readiness.AtStages(s1, o);
    Readiness.GuardsAgree(s1.m, s2.m, o.vm.view, o);
    Readiness.RecoveryGoesOn(s2, o.vm.view, o);
    var s3 := RecoveryStage(s2, o.vm.view, o).s;
    Readiness.MiddleReady(s3, o.vm.view, o);
    assert EarlyStages(s2, o.vm.view, o) == LateStages(s3, o.vm.view, o);
    LateMutates(s3, o.vm.view, o);
  }
}
