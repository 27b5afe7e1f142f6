/**
 * Stage order over every run: a VM is started only after its addresses were written and bootstrap
 * data was injected into it, in that order.
 */
module StageOrder {
  import opened Base
  import opened Machines
  import opened Stages

  /** The address stage completed for VM `id`, and later bootstrap data was injected into it. */
  predicate Prepared(log: Log, id: VmId) {
    match log
    case Empty => false
    case Log(before, e) => Prepared(before, id) || (e == Injected(id) && before.Has(IPsWritten(id)))
  }

  /** Every start or resume on record was of a VM prepared before it. */
  predicate StartsPrepared(log: Log) {
    match log
    case Empty => true
    case Log(before, e) =>
      StartsPrepared(before) && (e.Started? || e.Resumed? ==> Prepared(before, e.id))
  }

  /** VM `id` was seen running after it was prepared. */
  predicate RanPrepared(log: Log, id: VmId) {
    match log
    case Empty => false
    case Log(before, e) => RanPrepared(before, id) || (e == SeenRunning(id) && Prepared(before, id))
  }

  /** Started reasons: the VM of the current VMID was prepared; running ones: it was seen running. */
  predicate PastStart(r: Reason) { r.WaitingForVMPowerUp? || r.WaitingForClusterAPIMachineAddresses? || PastBoot(r) }

  predicate PastBoot(r: Reason) { r.WaitingForCloudInit? || r.WaitingForBootstrapReady? }

  /** What a reason promises about the VM `id`; Provisioned promises nothing unless strict. */
  predicate Promise(r: Reason, id: VmId, log: Log, addresses: bool, strict: bool) {
    && (r.WaitingForBootstrapDataReconciliation? ==> id > 0 && log.Has(IPsWritten(id)))
    && (PastStart(r) || (strict && r.Provisioned?) ==> id > 0 && Prepared(log, id))
    && (PastBoot(r) || (strict && r.Provisioned?) ==> RanPrepared(log, id))
    && (r.WaitingForCloudInit? ==> addresses)
  }

  /** The reason's promise holds of the current VMID, and every start on record was of a prepared VM. */
  predicate Inv(s: Scope, strict: bool) {
    && Promise(s.m.reason, s.m.vmid, s.log, s.m.addresses && s.m.ipAddresses, strict)
    && StartsPrepared(s.log)
  }

  lemma PromiseGrows(r: Reason, id: VmId, log: Log, addresses: bool, strict: bool, e: Event)
    requires Promise(r, id, log, addresses, strict)
    ensures Promise(r, id, Log(log, e), addresses, strict)
  {
  }

  /** The bootstrap secret's format is one the controller injects. */
  predicate Supported(o: Obs) {
    o.bootstrap.Data? ==> !o.bootstrap.format.UnknownFormat?
  }

  /** At most two events were recorded, none of them a start. */
  predicate Quiet(l: Log, l': Log) {
    l' == l
    || (l'.Log? && !l'.e.Started? && !l'.e.Resumed?
        && (l'.before == l
            || (l'.before.Log? && !l'.before.e.Started? && !l'.before.e.Resumed? && l'.before.before == l)))
  }

  predicate Promising(r: Reason) {
    r.WaitingForBootstrapDataReconciliation? || PastStart(r) || r.Provisioned?
  }

  /** `m'` promises nothing about its VM that `m` did not. */
  predicate PromisesNoMore(m: Machine, m': Machine) {
    Promising(m'.reason) ==>
      m'.reason == m.reason && m'.vmid == m.vmid
      && (m.addresses ==> m'.addresses) && (m.ipAddresses ==> m'.ipAddresses)
  }

  lemma {:induction false} QuietKeeps(s: Scope, s': Scope, strict: bool)
    requires Inv(s, strict) && QuietStep(s, s')
    ensures Inv(s', strict)
  {
  }

  /** `s'` is `s` with a little more on record and no new promise. */
  predicate QuietStep(s: Scope, s': Scope) {
    Quiet(s.log, s'.log) && PromisesNoMore(s.m, s'.m)
  }

  lemma CheckTaskIsQuiet(s: Scope, t: Task, now: Time)
    requires s.m.taskRef.TaskRef?
    ensures QuietStep(s, CheckTask(s, t, now).s)
  {
    if s.m.retryAfter.RetryAt? && now < s.m.retryAfter.time {
    } else if Classify(t).TaskRunning? || Classify(t).TaskUnknown? {
    } else if Classify(t).TaskSucceeded? {
    } else if s.m.retryAfter.NoRetry? {
    } else {
    }
  }

  lemma TaskStageIsQuiet(s: Scope, o: Obs)
    ensures QuietStep(s, TaskStage(s, o).s)
  {
    if s.m.taskRef.NoTask? || !o.lookup.Found? {
    } else {
      CheckTaskIsQuiet(s, o.lookup.task, o.now);
    }
  }

  lemma {:induction false} TaskStageKeeps(s: Scope, o: Obs, strict: bool)
    requires Inv(s, strict)
    ensures Inv(TaskStage(s, o).s, strict)
  {
    TaskStageIsQuiet(s, o);
    QuietKeeps(s, TaskStage(s, o).s, strict);
  }

  lemma {:induction false} EnsureStageKeeps(s: Scope, o: Obs, strict: bool)
    requires Inv(s, strict)
    ensures Inv(EnsureStage(s, o).s, strict)
    ensures EnsureStage(s, o).verdict.Continue? ==> EnsureStage(s, o).s.m.vmid > 0
  {
    QuietKeeps(s, Initialised(s), strict);
    LookupStageKeeps(Initialised(s), o, strict);
  }

  lemma RelocateIsQuiet(s: Scope, o: Obs)
    ensures QuietStep(s, Relocate(s, o)) && QuietStep(s, Recover(s, o.clusterPatchOk))
  {
  }

  lemma LookupStageIsQuiet(s: Scope, o: Obs)
    requires s.m.vmid > 0
    ensures QuietStep(s, LookupStage(s, o).s)
    ensures LookupStage(s, o).verdict.Continue? ==> LookupStage(s, o).s.m.vmid == s.m.vmid
  {
    RelocateIsQuiet(s, o);
    var found := FindVM(s.m, o.vm);
    if found.NotFound? || found.NotInitialized? {
    } else if found.Collision? {
    } else {
    }
  }

  lemma {:induction false} LookupStageKeeps(s: Scope, o: Obs, strict: bool)
    requires Inv(s, strict)
    ensures Inv(LookupStage(s, o).s, strict)
    ensures LookupStage(s, o).verdict.Continue? ==> LookupStage(s, o).s.m.vmid > 0
  {
    if s.m.vmid <= 0 {
      CreateStageKeeps(s, o, strict);
    } else {
      LookupStageIsQuiet(s, o);
      QuietKeeps(s, LookupStage(s, o).s, strict);
    }
  }

  /** A machine without a VMID is at none of the promising reasons, so giving it one is safe. */
  lemma {:induction false} CreateStageKeeps(s: Scope, o: Obs, strict: bool)
    requires Inv(s, strict) && s.m.vmid <= 0
    ensures Inv(CreateStage(s, o).s, strict) && !CreateStage(s, o).verdict.Continue?
  {
    if o.create.CloneAccepted? {
      ClonedKeeps(s, o, strict);
    } else {
      assert CreateStage(s, o).s.log == s.log;
    }
  }

  lemma {:induction false} ClonedKeeps(s: Scope, o: Obs, strict: bool)
    requires Inv(s, strict) && s.m.vmid <= 0 && o.create.CloneAccepted?
    ensures Inv(CreateStage(s, o).s, strict)
  {
    var t := CreateStage(s, o);
    assert t.s.log == Log(s.log, Cloned(o.create.id, o.create.task));
    assert t.s.m.reason == s.m.reason || t.s.m.reason.VMProvisionFailed? || t.s.m.reason.CloningFailed?;
    Unpromised(s.m.reason, s.m.vmid, t.s.m.vmid, s.log, t.s.log, strict);
  }

  /** Without a VMID the reason promises nothing, so it promises nothing of any other VM either. */
  lemma Unpromised(r: Reason, id: VmId, id': VmId, log: Log, log': Log, strict: bool)
    requires Promise(r, id, log, false, strict) || Promise(r, id, log, true, strict)
    requires id <= 0
    ensures forall addresses :: Promise(r, id', log', addresses, strict)
  {
  }

  lemma {:induction false} TagLoopKeeps(s: Scope, heads: seq<PoolHead>, strict: bool)
    requires Inv(s, strict) && s.m.reason.WaitingForStaticIPAllocation?
    ensures var t := TagLoop(s, heads);
            Inv(t.s, strict) && t.s.m.reason == s.m.reason && t.s.m.vmid == s.m.vmid
            && !t.verdict.Ready? && !t.verdict.Requeue?
    decreases |heads|
  {
    if heads != [] {
      if heads[0].NeedsTag() && heads[0].tag.TaskRef? {
        TagLoopKeeps(Scope(s.m.(taskRef := heads[0].tag), Log(s.log, Tagged(s.m.vmid, heads[0].tag.id))), heads[1..], strict);
      } else if !heads[0].NeedsTag() {
        TagLoopKeeps(s, heads[1..], strict);
      }
    }
  }

  lemma {:induction false} IPStageKeeps(s: Scope, o: Obs, strict: bool)
    requires Inv(s, strict) && s.m.vmid > 0
    ensures Inv(IPStage(s, o).s, strict) && IPStage(s, o).s.m.vmid == s.m.vmid
    ensures IPStage(s, o).verdict.Continue? ==> !s.m.reason.WaitingForStaticIPAllocation?
  {
    if s.m.reason.WaitingForStaticIPAllocation? {
      TagLoopKeeps(s, if o.net.present then o.net.heads else [], strict);
    }
  }

  lemma {:induction false} ConfigAndDisksKeep(s: Scope, vm: VmView, o: Obs, strict: bool)
    requires Inv(s, strict) && s.m.vmid > 0
    ensures Inv(ConfigStage(s, vm, o).s, strict) && ConfigStage(s, vm, o).s.m.vmid == s.m.vmid
    ensures Inv(DiskStage(s, vm, o).s, strict) && DiskStage(s, vm, o).s.m.vmid == s.m.vmid
  {
    ConfigAndDisksAreQuiet(s, vm, o);
    QuietKeeps(s, ConfigStage(s, vm, o).s, strict);
    QuietKeeps(s, DiskStage(s, vm, o).s, strict);
  }

  lemma ConfigAndDisksAreQuiet(s: Scope, vm: VmView, o: Obs)
    ensures QuietStep(s, ConfigStage(s, vm, o).s) && ConfigStage(s, vm, o).s.m.vmid == s.m.vmid
    ensures QuietStep(s, DiskStage(s, vm, o).s) && DiskStage(s, vm, o).s.m.vmid == s.m.vmid
  {
    var c, d := ConfigStage(s, vm, o).s, DiskStage(s, vm, o).s;
    assert c == s || (c.m == s.m.(taskRef := c.m.taskRef, reason := WaitingForDiskReconciliation) && Quiet(s.log, c.log));
    assert d == s || (d.m == s.m.(reason := WaitingForStaticIPAllocation) && Quiet(s.log, d.log));
  }

  lemma {:induction false} EarlyStagesKeep(s: Scope, vm: VmView, o: Obs, strict: bool)
    requires Inv(s, strict) && s.m.vmid > 0 && Supported(o)
    ensures Inv(EarlyStages(s, vm, o).s, strict)
  {
    var t1 := RecoveryStage(s, vm, o);
    ConfigAndDisksKeep(t1.s, vm, o, strict);
    var t2 := ConfigStage(t1.s, vm, o);
    ConfigAndDisksKeep(t2.s, vm, o, strict);
    var t3 := DiskStage(t2.s, vm, o);
    IPStageKeeps(t3.s, o, strict);
    var t4 := IPStage(t3.s, o);
    LateStagesKeep(t4.s, vm, o, strict);
  }

  lemma {:induction false} BootstrapStageKeeps(s: Scope, vm: VmView, o: Obs, strict: bool)
    requires Inv(s, strict) && s.m.vmid > 0 && Supported(o)
    ensures Inv(BootstrapStage(s, vm, o).s, strict) && BootstrapStage(s, vm, o).s.m.vmid == s.m.vmid
  {
    if s.m.reason.WaitingForBootstrapDataReconciliation? && vm.hasMacs && o.bootstrap.Data? {
      var s1 := AfterClaims(s, HandleDevices(o.net));
      assert s1.log == s.log && s1.m.vmid == s.m.vmid;
      AfterDevicesKeep(s1, HandleDevices(o.net), o.bootstrap, strict);
    }
  }

  lemma {:induction false} AfterDevicesKeep(s: Scope, c: Collect, b: BootstrapObs, strict: bool)
    requires StartsPrepared(s.log) && s.m.vmid > 0 && s.log.Has(IPsWritten(s.m.vmid))
    requires b.Data? && !b.format.UnknownFormat?
    ensures Inv(AfterDevices(s, c, b).s, strict) && AfterDevices(s, c, b).s.m.vmid == s.m.vmid
  {
    if c.err || (!c.requeue && !b.deviceDataOk) || !b.vrfDataOk {
      assert AfterDevices(s, c, b).s == Scope(s.m.(reason := WaitingForBootstrapDataReconciliation), s.log);
    } else if !b.injectOk {
      assert AfterDevices(s, c, b).s == Scope(s.m.(reason := VMProvisionFailed), s.log);
    } else {
      InjectedKeeps(s, strict);
    }
  }

  lemma {:induction false} InjectedKeeps(s: Scope, strict: bool)
    requires StartsPrepared(s.log) && s.m.vmid > 0 && s.log.Has(IPsWritten(s.m.vmid))
    ensures Inv(Scope(s.m.(bootstrapProvided := true, reason := WaitingForVMPowerUp), Log(s.log, Injected(s.m.vmid))), strict)
  {
  }

  lemma {:induction false} PowerStageKeeps(s: Scope, vm: VmView, o: Obs, strict: bool)
    requires Inv(s, strict) && s.m.vmid > 0
    ensures Inv(PowerStage(s, vm, o).s, strict) && PowerStage(s, vm, o).s.m.vmid == s.m.vmid
  {
    if !s.m.reason.WaitingForVMPowerUp? {
    } else if !vm.power.Paused? && !vm.power.Stopped? && !vm.power.Hibernated? {
      ReasonKeeps(s, WaitingForClusterAPIMachineAddresses, strict);
      assert PowerStage(s, vm, o).s == Scope(s.m.(reason := WaitingForClusterAPIMachineAddresses), s.log);
    } else if o.start.NoTask? {
      ReasonKeeps(s, PoweringOnFailed, strict);
      assert PowerStage(s, vm, o).s == Scope(s.m.(reason := PoweringOnFailed), s.log);
    } else {
      var e := if vm.power.Paused? then Resumed(s.m.vmid, o.start.id) else Started(s.m.vmid, o.start.id);
      StartKeeps(s, e, o.start, strict);
      assert PowerStage(s, vm, o).s == Scope(s.m.(taskRef := o.start), Log(s.log, e));
    }
  }

  lemma {:induction false} ReasonKeeps(s: Scope, r: Reason, strict: bool)
    requires Inv(s, strict) && Promise(r, s.m.vmid, s.log, s.m.addresses && s.m.ipAddresses, strict)
    ensures Inv(Scope(s.m.(reason := r), s.log), strict)
  {
  }

  lemma {:induction false} StartKeeps(s: Scope, e: Event, task: TaskRef, strict: bool)
    requires Inv(s, strict) && s.m.reason.WaitingForVMPowerUp? && (e.Started? || e.Resumed?) && e.id == s.m.vmid
    ensures Inv(Scope(s.m.(taskRef := task), Log(s.log, e)), strict)
  {
    PromiseGrows(s.m.reason, s.m.vmid, s.log, s.m.addresses && s.m.ipAddresses, strict, e);
  }

  lemma {:induction false} LateStagesKeep(s: Scope, vm: VmView, o: Obs, strict: bool)
    requires Inv(s, strict) && s.m.vmid > 0 && Supported(o)
    ensures Inv(LateStages(s, vm, o).s, strict)
  {
    BootstrapStageKeeps(s, vm, o, strict);
    var t5 := BootstrapStage(s, vm, o);
    PowerStageKeeps(t5.s, vm, o, strict);
    var t6 := PowerStage(t5.s, vm, o);
    AddressStageKeeps(t6.s, vm, strict);
    var t7 := AddressStage(t6.s, vm);
    CloudInitStageKeeps(t7.s, o, strict);
    FinalStageKeeps(CloudInitStage(t7.s, o).s, o, strict);
  }

  lemma {:induction false} AddressStageKeeps(s: Scope, vm: VmView, strict: bool)
    requires Inv(s, strict)
    ensures Inv(AddressStage(s, vm).s, strict)
  {
    var t := AddressStage(s, vm);
    if s.m.reason.WaitingForClusterAPIMachineAddresses? && vm.power.Running? && s.m.ipAddresses {
      assert t.s.log == Log(s.log, SeenRunning(s.m.vmid)) && t.s.m.vmid == s.m.vmid;
      assert t.s.m.reason.WaitingForCloudInit? && t.s.m.addresses && t.s.m.ipAddresses;
    }
  }

  lemma {:induction false} CloudInitStageKeeps(s: Scope, o: Obs, strict: bool)
    requires Inv(s, strict)
    ensures Inv(CloudInitStage(s, o).s, strict)
  {
    if s.m.reason.WaitingForCloudInit? {
      var t := CloudInitStage(s, o);
      assert t.s.log == s.log && t.s.m == s.m.(reason := t.s.m.reason);
      assert t.s.m.reason.WaitingForCloudInit? || t.s.m.reason.WaitingForBootstrapReady? || t.s.m.reason.VMProvisionFailed?;
    }
  }

  lemma {:induction false} FinalStageKeeps(s: Scope, o: Obs, strict: bool)
    requires Inv(s, strict)
    ensures Inv(FinalStage(s, o).s, strict)
  {
    PromiseGrows(s.m.reason, s.m.vmid, s.log, s.m.addresses && s.m.ipAddresses, strict, Unmounted(s.m.vmid, o.untag));
  }

  lemma {:induction false} ReconcileKeeps(s: Scope, o: Obs, strict: bool)
    requires Inv(s, strict) && Supported(o)
    ensures Inv(ReconcileVM(s, o).s, strict)
  {
    TaskStageKeeps(s, o, strict);
    var t0 := TaskStage(s, o);
    EnsureStageKeeps(t0.s, o, strict);
    var t1 := EnsureStage(t0.s, o);
    if t1.verdict.Continue? {
      EarlyStagesKeep(t1.s, o.vm.view, o, strict);
    }
  }

  /** The VM of the machine's VMID was prepared, and then seen running. */
  predicate Done(s: Scope) {
    s.m.vmid > 0 && Prepared(s.log, s.m.vmid) && RanPrepared(s.log, s.m.vmid)
  }

  predicate Settled(r: Reason) { r.WaitingForBootstrapReady? || r.Provisioned? }

  /** The reconcile, if it reports Ready, does so with cloud-init behind it. */
  predicate Earned(s: Scope, o: Obs) {
    NormalStep(s, o).verdict.Ready? ==> Settled(ReconcileVM(Scope(s.m.(finalizer := true), s.log), o).s.m.reason)
  }

  /** Or at least of a machine that is done. */
  predicate EarnedOrDone(s: Scope, o: Obs) {
    Earned(s, o) || Done(ReconcileVM(Scope(s.m.(finalizer := true), s.log), o).s)
  }

  lemma {:induction false} MarkReadyKeeps(t: Step, strict: bool)
    requires Inv(t.s, strict) && (strict && t.verdict.Ready? ==> Settled(t.s.m.reason) || Done(t.s))
    ensures Inv(MarkReady(t).s, strict)
  {
  }

  lemma {:induction false} NormalStepKeeps(s: Scope, o: Obs, strict: bool)
    requires Inv(s, strict) && Supported(o) && (strict ==> EarnedOrDone(s, o))
    ensures Inv(NormalStep(s, o).s, strict)
  {
    NormalCases(s, o);
    if Gated(s, NormalStep(s, o)) {
      QuietKeeps(s, NormalStep(s, o).s, strict);
    } else {
      var s1 := Scope(s.m.(finalizer := true), s.log);
      QuietKeeps(s, s1, strict);
      ReconcileKeeps(s1, o, strict);
      MarkReadyKeeps(ReconcileVM(s1, o), strict);
    }
  }

  lemma DeleteStageIsQuiet(s: Scope, o: Obs)
    ensures QuietStep(s, DeleteStage(s, o).s)
  {
    var call := ApiDelete(s.m.vmid, o.del);
    var s1 := AfterApiDelete(s, call);
    assert s1.m == s.m && Quiet(s.log, s1.log);
    AfterDeletePromisesNoMore(s1, call, o);
  }

  lemma AfterDeletePromisesNoMore(s: Scope, call: DeleteCall, o: Obs)
    ensures AfterDelete(s, call, o).s.log == s.log && PromisesNoMore(s.m, AfterDelete(s, call, o).s.m)
  {
    if call.err.None? {
    } else if VMNotFound(call.err.value) || call.err.value.ErrVMIDFree? {
    } else if call.err.value.ErrVMNotOnNode? {
    } else {
    }
  }

  lemma DeleteStepIsQuiet(s: Scope, o: Obs)
    ensures QuietStep(s, DeleteStep(s, o).s)
  {
    if s.m.vmid <= 0 && s.m.taskRef.NoTask? {
    } else if !o.clientOk {
    } else {
      DeleteStageIsQuiet(Scope(s.m.(reason := Deleting), s.log), o);
    }
  }

  lemma {:induction false} NextKeeps(s: Scope, i: Input, strict: bool)
    requires Inv(s, strict) && Supported(i.o) && (strict && i.Normal? ==> EarnedOrDone(s, i.o))
    ensures Inv(Next(s, i).s, strict)
  {
    if i.Normal? {
      NormalStepKeeps(s, i.o, strict);
    } else {
      DeleteStepIsQuiet(s, i.o);
      QuietKeeps(s, DeleteStep(s, i.o).s, strict);
    }
  }

  /**
   * Stage order over whole runs. Whatever Proxmox, Kubernetes and the IPAM answer, and however
   * reconciles, gates and deletions interleave, as long as the bootstrap format is supported.
   */
  lemma {:induction false} StageOrderOverRuns(s: Scope, inputs: seq<Input>)
    requires Inv(s, false)
    requires forall k :: 0 <= k < |inputs| ==> Supported(inputs[k].o)
    ensures Inv(Run(s, inputs), false)
    decreases |inputs|
  {
    if inputs != [] {
      NextKeeps(s, inputs[0], false);
      StageOrderOverRuns(Next(s, inputs[0]).s, inputs[1..]);
    }
  }

  /** A machine nothing was done for yet. */
  predicate Fresh(s: Scope) {
    s.log.Empty? && s.m.reason.NoCondition?
  }

  /** In particular, from a fresh machine: the record shows no start or resume of an unprepared VM. */
  lemma FreshRunsStartPrepared(s: Scope, inputs: seq<Input>)
    requires Fresh(s)
    requires forall k :: 0 <= k < |inputs| ==> Supported(inputs[k].o)
    ensures StartsPrepared(Run(s, inputs).log)
    ensures Run(s, inputs).m.reason.WaitingForVMPowerUp? ==>
              Prepared(Run(s, inputs).log, Run(s, inputs).m.vmid)
    ensures Run(s, inputs).m.reason.WaitingForCloudInit? ==>
              RanPrepared(Run(s, inputs).log, Run(s, inputs).m.vmid) && Run(s, inputs).m.addresses
  {
    StageOrderOverRuns(s, inputs);
  }

  /** The condition is exact: a bootstrap stage that goes on has injected iff the format is supported. */
  lemma {:induction false} InjectedIffSupported(s: Scope, vm: VmView, o: Obs)
    requires s.m.reason.WaitingForBootstrapDataReconciliation?
    requires BootstrapStage(s, vm, o).verdict.Continue?
    ensures BootstrapStage(s, vm, o).s.m.reason.WaitingForVMPowerUp?
    ensures BootstrapStage(s, vm, o).s.log == (if Supported(o) then Log(s.log, Injected(s.m.vmid)) else s.log)
  {
    var c := HandleDevices(o.net);
    var s1 := AfterClaims(s, c);
    assert s1.log == s.log && s1.m.vmid == s.m.vmid;
    AfterDevicesGoesOn(s1, c, o.bootstrap);
  }

  lemma AfterDevicesGoesOn(s: Scope, c: Collect, b: BootstrapObs)
    requires b.Data?
    ensures var t := AfterDevices(s, c, b);
            !t.verdict.Ready?
            && (t.verdict.Continue? ==>
                  t.s.m.taskRef == s.m.taskRef && t.s.m.reason.WaitingForVMPowerUp?
                  && t.s.log == (if b.format.UnknownFormat? then s.log else Log(s.log, Injected(s.m.vmid))))
  {
    if c.err || (!c.requeue && !b.deviceDataOk) || !b.vrfDataOk {
    } else if b.format.UnknownFormat? {
    } else {
    }
  }
}
