/**
 * No orphans over any run: every VM cloned for a machine stays named by the machine's VMID until
 * Proxmox has unregistered it, and the finalizer outlives it.
 */
module Orphans {
  import opened Base
  import opened Machines
  import opened Stages

  /**
   * A VMID Proxmox has registered. `ours` marks a VM cloned for the machine under study; it is
   * registered from the moment the clone is accepted. Nothing is said of its node, nor of whether
   * its configuration can be read: it may be in flight or migrating at any time.
   */
  datatype Registered = Registered(name: string, ours: bool)

  datatype World = World(s: Scope, vms: map<VmId, Registered>)

  function CloneCount(log: Log): nat {
    match log
    case Empty => 0
    case Log(before, e) => CloneCount(before) + if e.Cloned? then 1 else 0
  }

  function LastClone(log: Log): VmId {
    match log
    case Empty => NO_VMID
    case Log(before, e) => if e.Cloned? then e.id else LastClone(before)
  }

  /** What Proxmox has registered once the new part of the record has happened. */
  function AfterClones(vms: map<VmId, Registered>, l: Log, l': Log): map<VmId, Registered> {
    if CloneCount(l') > CloneCount(l) then vms[LastClone(l') := Registered("", true)] else vms
  }

  /** What a reconcile reads agrees with Proxmox. "Not found" may always be answered, except for good. */
  predicate Honest(w: World, o: Obs) {
    var id := w.s.m.vmid;
    && (o.vm.Vm? ==> id in w.vms && o.vm.view.name == w.vms[id].name)
    && (o.locate.Located? && o.locate.vm.Vm? ==> id in w.vms && o.locate.vm.view.name == w.vms[id].name)
    && (o.create.CloneAccepted? ==> o.create.id !in w.vms && o.create.id >= 100)
    && (o.del.check.IdFree? ==> id !in w.vms)
    && (o.del.errorSaysDoesNotExist ==> id !in w.vms)
  }

  /** A clone that is accepted gets its placement recorded. */
  predicate Patched(o: Obs) {
    o.create.CloneAccepted? ==> o.clusterPatchOk
  }

  /** A VM of ours carries the machine's name as soon as it carries one. */
  predicate OurName(name: string, id: VmId, m: Machine) {
    Unnamed(name, id) || name == m.name
  }

  /** The machine's VMID, its finalizer and its name account for every VM cloned for it. */
  ghost predicate NoOrphan(w: World) {
    forall id :: id in w.vms && w.vms[id].ours ==>
                   w.s.m.vmid == id && w.s.m.finalizer && OurName(w.vms[id].name, id, w.s.m)
  }

  ghost predicate Inv(w: World) {
    && NoOrphan(w)
    && (forall id :: id in w.vms ==> id >= 100)
    && (w.s.m.providerID != "" ==> w.s.m.vmid > 0)
  }

  // ---- the moves of a run ------------------------------------------------------------------------

  /** Anything Proxmox or other users do: VMs come, go, move, get named; none of ours is made or renamed. */
  ghost predicate Environment(w: World, w': World) {
    && w'.s == w.s
    && (forall id :: id in w'.vms ==> id >= 100)
    && (forall id :: id in w'.vms && w'.vms[id].ours ==>
                       id in w.vms && w.vms[id].ours && OurName(w'.vms[id].name, id, w.s.m))
  }

  /** One reconcile, normal or delete. */
  ghost predicate Reconcile(w: World, i: Input, w': World) {
    && Honest(w, i.o)
    && Patched(i.o)
    && w'.s == Next(w.s, i).s
    && w'.vms == AfterClones(w.vms, w.s.log, w'.s.log)
  }

  datatype Move = Outside | Inside(i: Input)

  ghost predicate Moves(w: World, move: Move, w': World) {
    if move.Outside? then Environment(w, w') else Reconcile(w, move.i, w')
  }

  ghost predicate IsRun(ws: seq<World>, moves: seq<Move>) {
    |ws| == |moves| + 1 && forall k :: 0 <= k < |moves| ==> Moves(ws[k], moves[k], ws[k + 1])
  }

  // ---- what the stages leave alone ---------------------------------------------------------------

  /** Same VM: VMID, name and finalizer stay, a provider ID is never lost, nothing is cloned. */
  predicate Steady(s: Scope, s': Scope) {
    && s'.m.vmid == s.m.vmid
    && s'.m.name == s.m.name
    && s'.m.finalizer == s.m.finalizer
    && (s'.m.providerID == s.m.providerID || (s'.m.providerID != "" && s.m.vmid > 0))
    && CloneCount(s'.log) == CloneCount(s.log)
  }

  lemma {:induction false} TaskSteady(s: Scope, o: Obs)
    ensures Steady(s, TaskStage(s, o).s)
  {
    if s.m.taskRef.TaskRef? && o.lookup.Found? {
      var t := o.lookup.task;
      if s.m.retryAfter.RetryAt? && o.now < s.m.retryAfter.time {
      } else if Classify(t).TaskRunning? || Classify(t).TaskUnknown? {
      } else if Classify(t).TaskSucceeded? {
      } else if s.m.retryAfter.NoRetry? {
      } else {
      }
    }
  }

  lemma {:induction false} ConfigSteady(s: Scope, vm: VmView, o: Obs)
    ensures Steady(s, RecoveryStage(s, vm, o).s)
    ensures Steady(s, ConfigStage(s, vm, o).s)
    ensures Steady(s, DiskStage(s, vm, o).s)
  {
  }

  lemma {:induction false} TagLoopSteady(s: Scope, heads: seq<PoolHead>)
    ensures Steady(s, TagLoop(s, heads).s)
    decreases |heads|
  {
    if heads != [] {
      if !heads[0].NeedsTag() {
        TagLoopSteady(s, heads[1..]);
      } else if heads[0].tag.TaskRef? {
        TagLoopSteady(Scope(s.m.(taskRef := heads[0].tag), Log(s.log, Tagged(s.m.vmid, heads[0].tag.id))), heads[1..]);
      }
    }
  }

  lemma {:induction false} IPSteady(s: Scope, o: Obs)
    ensures Steady(s, IPStage(s, o).s)
  {
    TagLoopSteady(s, if o.net.present then o.net.heads else []);
  }

  lemma {:induction false} AfterDevicesSteady(s: Scope, c: Collect, b: BootstrapObs)
    requires b.Data?
    ensures Steady(s, AfterDevices(s, c, b).s)
  {
    if c.err || (!c.requeue && !b.deviceDataOk) || !b.vrfDataOk {
    } else if b.format.UnknownFormat? {
    } else {
    }
  }

  lemma {:induction false} BootstrapSteady(s: Scope, vm: VmView, o: Obs)
    ensures Steady(s, BootstrapStage(s, vm, o).s)
  {
    if !s.m.reason.WaitingForBootstrapDataReconciliation? || !vm.hasMacs {
    } else if o.bootstrap.DataError? {
    } else {
      var s1 := AfterClaims(s, HandleDevices(o.net));
      assert Steady(s, s1);
      AfterDevicesSteady(s1, HandleDevices(o.net), o.bootstrap);
    }
  }

  lemma {:induction false} PowerSteady(s: Scope, vm: VmView, o: Obs)
    ensures Steady(s, PowerStage(s, vm, o).s)
  {
    if !s.m.reason.WaitingForVMPowerUp? {
    } else if !vm.power.Paused? && !vm.power.Stopped? && !vm.power.Hibernated? {
    } else if o.start.NoTask? {
    } else if vm.power.Paused? {
    } else {
    }
  }

  lemma {:induction false} LastSteady(s: Scope, vm: VmView, o: Obs)
    ensures Steady(s, AddressStage(s, vm).s)
    ensures Steady(s, CloudInitStage(s, o).s)
    ensures Steady(s, FinalStage(s, o).s)
  {
  }

  lemma {:induction false} LateStagesSteady(s: Scope, vm: VmView, o: Obs)
    ensures Steady(s, LateStages(s, vm, o).s)
  {
    BootstrapSteady(s, vm, o);
    var t5 := BootstrapStage(s, vm, o);
    PowerSteady(t5.s, vm, o);
    var t6 := PowerStage(t5.s, vm, o);
    LastSteady(t6.s, vm, o);
    var t7 := AddressStage(t6.s, vm);
    LastSteady(t7.s, vm, o);
    var t8 := CloudInitStage(t7.s, o);
    LastSteady(t8.s, vm, o);
  }

  lemma {:induction false} EarlyStagesSteady(s: Scope, vm: VmView, o: Obs)
    ensures Steady(s, EarlyStages(s, vm, o).s)
  {
    ConfigSteady(s, vm, o);
    var t1 := RecoveryStage(s, vm, o);
    ConfigSteady(t1.s, vm, o);
    var t2 := ConfigStage(t1.s, vm, o);
    ConfigSteady(t2.s, vm, o);
    var t3 := DiskStage(t2.s, vm, o);
    IPSteady(t3.s, o);
    LateStagesSteady(IPStage(t3.s, o).s, vm, o);
  }

  // ---- the two places that change the VMID -------------------------------------------------------

  /** The VMID is given up: only of a VM that carries another machine's name. */
  predicate GivenUp(s: Scope, s': Scope, o: Obs) {
    && s.m.vmid > 0 && s.m.providerID == "" && s'.m.providerID == ""
    && s'.m.vmid == NO_VMID && s'.m.name == s.m.name && s'.m.finalizer == s.m.finalizer
    && CloneCount(s'.log) == CloneCount(s.log)
    && (ForeignName(s, o.vm) || (o.locate.Located? && ForeignName(s, o.locate.vm)))
  }

  predicate ForeignName(s: Scope, got: VmLookup) {
    got.Vm? && !Unnamed(got.view.name, s.m.vmid) && got.view.name != s.m.name
  }

  /** A VMID is taken: the clone's, recorded with the finalizer already in place. */
  predicate Taken(s: Scope, s': Scope, o: Obs) {
    && s.m.vmid <= 0 && o.create.CloneAccepted?
    && s'.m.vmid == o.create.id && LastClone(s'.log) == o.create.id
    && s'.m.name == s.m.name && s'.m.finalizer == s.m.finalizer && s'.m.providerID == s.m.providerID
    && CloneCount(s'.log) == CloneCount(s.log) + 1
  }

  predicate VmMove(s: Scope, s': Scope, o: Obs) {
    Steady(s, s') || GivenUp(s, s', o) || Taken(s, s', o)
  }

  lemma {:induction false} CreateMove(s: Scope, o: Obs)
    requires s.m.vmid <= 0 && Patched(o)
    ensures VmMove(s, CreateStage(s, o).s, o) && !CreateStage(s, o).verdict.Continue?
  {
    if o.create.CloneAccepted? {
    } else {
    }
  }

  lemma {:induction false} RecoverMove(s: Scope, o: Obs)
    requires s.m.vmid > 0 && s.m.Recoverable()
    requires ForeignName(s, o.vm) || (o.locate.Located? && ForeignName(s, o.locate.vm))
    ensures VmMove(s, Recover(s, o.clusterPatchOk), o)
  {
    if o.clusterPatchOk {
    } else {
    }
  }

  lemma {:induction false} RelocateMove(s: Scope, o: Obs)
    requires s.m.vmid > 0
    ensures VmMove(s, Relocate(s, o), o)
  {
    if o.locate.NotLocated? || o.locate.vm.VmMissing? || Unnamed(o.locate.vm.view.name, s.m.vmid) {
    } else if o.locate.vm.view.name == s.m.name {
    } else if s.m.Recoverable() {
      RecoverMove(s, o);
    } else {
    }
  }

  lemma {:induction false} LookupMove(s: Scope, o: Obs)
    requires Patched(o)
    ensures VmMove(s, LookupStage(s, o).s, o)
    ensures LookupStage(s, o).verdict.Continue? ==> Steady(s, LookupStage(s, o).s)
  {
    var found := FindVM(s.m, o.vm);
    if found.NotCreated? {
      CreateMove(s, o);
    } else if found.NotFound? {
      RelocateMove(s, o);
    } else if found.Collision? {
      RecoverMove(s, o);
    } else if found.NotInitialized? {
    } else {
    }
  }

  lemma {:induction false} EnsureMove(s: Scope, o: Obs)
    requires Patched(o)
    ensures VmMove(s, EnsureStage(s, o).s, o)
    ensures EnsureStage(s, o).verdict.Continue? ==> Steady(s, EnsureStage(s, o).s)
  {
    if s.m.taskRef.NoTask? {
      var s1 := Initialised(s);
      assert s1.log == s.log && s1.m == s.m.(reason := s1.m.reason);
      LookupMove(s1, o);
    }
  }

  lemma {:induction false} ReconcileMove(s: Scope, o: Obs)
    requires Patched(o)
    ensures VmMove(s, ReconcileVM(s, o).s, o)
  {
    TaskSteady(s, o);
    var t0 := TaskStage(s, o);
    EnsureMove(t0.s, o);
    var t1 := EnsureStage(t0.s, o);
    if t1.verdict.Continue? {
      EarlyStagesSteady(t1.s, o.vm.view, o);
    }
  }

  lemma {:induction false} NormalMove(s: Scope, o: Obs)
    requires Patched(o)
    ensures Steady(s, NormalStep(s, o).s)
            || Steady(Scope(s.m.(finalizer := true), s.log), NormalStep(s, o).s)
            || VmMove(Scope(s.m.(finalizer := true), s.log), NormalStep(s, o).s, o)
  {
    NormalCases(s, o);
    var s1 := Scope(s.m.(finalizer := true), s.log);
    ReconcileMove(s1, o);
    var t := ReconcileVM(s1, o);
    assert MarkReady(t).s.m == t.s.m.(reason := MarkReady(t).s.m.reason, provisioned := MarkReady(t).s.m.provisioned);
  }

  // ---- the invariant -----------------------------------------------------------------------------

  lemma SteadyKeeps(w: World, w': World)
    requires Inv(w) && w'.vms == w.vms
    requires w'.s.m.vmid == w.s.m.vmid && w'.s.m.name == w.s.m.name
    requires w.s.m.finalizer ==> w'.s.m.finalizer
    requires w'.s.m.providerID != "" ==> w'.s.m.vmid > 0
    ensures Inv(w')
  {
  }

  /** A VMID that resolves to a foreign name belongs to no VM of ours, so none of ours is registered. */
  lemma GivenUpKeeps(w: World, w': World, o: Obs)
    requires Inv(w) && Honest(w, o) && GivenUp(w.s, w'.s, o) && w'.vms == w.vms
    ensures Inv(w')
  {
    assert !OurName(w.vms[w.s.m.vmid].name, w.s.m.vmid, w.s.m);
  }

  lemma TakenKeeps(w: World, w': World, o: Obs)
    requires Inv(w) && Honest(w, o) && Taken(w.s, w'.s, o) && w.s.m.finalizer
    requires w'.vms == w.vms[o.create.id := Registered("", true)]
    ensures Inv(w')
  {
    forall id | id in w'.vms && w'.vms[id].ours
      ensures id == o.create.id && OurName(w'.vms[id].name, id, w'.s.m)
    {
      assert id != o.create.id ==> id in w.vms && w.s.m.vmid == id;
    }
  }

  lemma {:induction false} NormalKeeps(w: World, o: Obs, w': World)
    requires Inv(w) && Reconcile(w, Normal(o), w')
    ensures Inv(w')
  {
    NormalMove(w.s, o);
    var s1 := Scope(w.s.m.(finalizer := true), w.s.log);
    var w1 := World(s1, w.vms);
    SteadyKeeps(w, w1);
    if Steady(w.s, w'.s) || Steady(s1, w'.s) {
      SteadyKeeps(w, w');
    } else if GivenUp(s1, w'.s, o) {
      GivenUpKeeps(w1, w', o);
    } else {
      TakenKeeps(w1, w', o);
    }
  }

  /** What a delete reconcile may change: the finalizer goes only if Proxmox knows the VMID no more. */
  predicate DeleteMove(s: Scope, s': Scope, o: Obs) {
    && s'.m.vmid == s.m.vmid && s'.m.name == s.m.name && s'.m.providerID == s.m.providerID
    && CloneCount(s'.log) == CloneCount(s.log)
    && (s'.m.finalizer == s.m.finalizer || s.m.vmid < 100 || o.del.check.IdFree? || o.del.errorSaysDoesNotExist)
  }

  /** The two answers that count as "gone" are given only of an ID that is free, or said not to exist. */
  lemma GoneMeans(id: VmId, d: DeleteObs)
    requires ApiDelete(id, d).err.Some?
    requires VMNotFound(ApiDelete(id, d).err.value) || ApiDelete(id, d).err.value.ErrVMIDFree?
    ensures id < 100 || d.check.IdFree? || d.errorSaysDoesNotExist
  {
  }

  lemma {:induction false} DeleteStageMove(s: Scope, o: Obs)
    ensures DeleteMove(s, DeleteStage(s, o).s, o)
  {
    var call := ApiDelete(s.m.vmid, o.del);
    AfterApiDeleteClones(s, call);
    AfterDeleteMove(AfterApiDelete(s, call), call, o);
    if call.err.Some? && (VMNotFound(call.err.value) || call.err.value.ErrVMIDFree?) {
      GoneMeans(s.m.vmid, o.del);
    }
  }

  lemma {:induction false} AfterApiDeleteClones(s: Scope, call: DeleteCall)
    ensures AfterApiDelete(s, call).m == s.m && CloneCount(AfterApiDelete(s, call).log) == CloneCount(s.log)
  {
  }

  lemma {:induction false} AfterDeleteMove(s: Scope, call: DeleteCall, o: Obs)
    ensures var s' := AfterDelete(s, call, o).s;
            s'.log == s.log && s'.m.vmid == s.m.vmid && s'.m.name == s.m.name && s'.m.providerID == s.m.providerID
            && (s'.m.finalizer == s.m.finalizer
                || (call.err.Some? && (VMNotFound(call.err.value) || call.err.value.ErrVMIDFree?)))
  {
    if call.err.None? {
    } else if VMNotFound(call.err.value) || call.err.value.ErrVMIDFree? {
    } else if call.err.value.ErrVMNotOnNode? {
    } else {
    }
  }

  lemma {:induction false} DeleteStepMove(s: Scope, o: Obs)
    ensures DeleteMove(s, DeleteStep(s, o).s, o)
  {
    if s.m.vmid <= 0 && s.m.taskRef.NoTask? {
    } else if !o.clientOk {
    } else {
      DeleteStageMove(Scope(s.m.(reason := Deleting), s.log), o);
    }
  }

  lemma {:induction false} DeleteKeeps(w: World, o: Obs, w': World)
    requires Inv(w) && Reconcile(w, Delete(o), w')
    ensures Inv(w')
  {
    DeleteStepMove(w.s, o);
    if w'.s.m.finalizer == w.s.m.finalizer {
      SteadyKeeps(w, w');
    } else {
      assert forall id :: id in w.vms ==> !w.vms[id].ours;
    }
  }

  lemma {:induction false} MoveKeeps(w: World, move: Move, w': World)
    requires Inv(w) && Moves(w, move, w')
    ensures Inv(w')
  {
    if move.Inside? {
      if move.i.Normal? {
        NormalKeeps(w, move.i.o, w');
      } else {
        DeleteKeeps(w, move.i.o, w');
      }
    }
  }

  /**
   * No orphan over any run: in every state every registered VM cloned for the machine is the one its
   * VMID names, and the machine holds its finalizer. A finalizer that is gone therefore means that no
   * such VM is registered, clones in flight and migrating VMs included.
   */
  lemma {:induction false} NoOrphanOverRuns(ws: seq<World>, moves: seq<Move>, k: nat)
    requires IsRun(ws, moves) && Inv(ws[0]) && k < |ws|
    ensures Inv(ws[k])
    ensures !ws[k].s.m.finalizer ==> forall id :: id in ws[k].vms ==> !ws[k].vms[id].ours
  {
    if k > 0 {
      NoOrphanOverRuns(ws, moves, k - 1);
      assert Moves(ws[k - 1], moves[k - 1], ws[k]);
      MoveKeeps(ws[k - 1], moves[k - 1], ws[k]);
    }
  }

  // ---- the VMID is final once the provider ID is known -------------------------------------------

  lemma {:induction false} MoveKeepsVMID(w: World, move: Move, w': World)
    requires Inv(w) && Moves(w, move, w') && w.s.m.providerID != ""
    ensures w'.s.m.vmid == w.s.m.vmid && w'.s.m.providerID != ""
  {
    if move.Inside? {
      if move.i.Normal? {
        NormalMove(w.s, move.i.o);
      } else {
        DeleteStepMove(w.s, move.i.o);
      }
    }
  }

  /** Once providerID is set, the VMID never changes again. */
  lemma {:induction false} VMIDIsFinal(ws: seq<World>, moves: seq<Move>, j: nat, k: nat)
    requires IsRun(ws, moves) && Inv(ws[0]) && j <= k < |ws|
    requires ws[j].s.m.providerID != ""
    ensures ws[k].s.m.vmid == ws[j].s.m.vmid && ws[k].s.m.providerID != ""
    decreases k
  {
    if j < k {
      VMIDIsFinal(ws, moves, j, k - 1);
      NoOrphanOverRuns(ws, moves, k - 1);
      assert Moves(ws[k - 1], moves[k - 1], ws[k]);
      MoveKeepsVMID(ws[k - 1], moves[k - 1], ws[k]);
    }
  }

  // ---- the patch condition is exact --------------------------------------------------------------

  /** An accepted clone leaves no orphan exactly if the cluster's nodeLocations could then be patched. */
  lemma {:induction false} NoOrphanIffPatched(w: World, o: Obs)
    requires Inv(w) && Honest(w, o) && w.s.m.vmid <= 0 && w.s.m.finalizer && o.create.CloneAccepted?
    ensures var s' := CreateStage(w.s, o).s;
            NoOrphan(World(s', AfterClones(w.vms, w.s.log, s'.log))) <==> o.clusterPatchOk
  {
    var s' := CreateStage(w.s, o).s;
    var w' := World(s', AfterClones(w.vms, w.s.log, s'.log));
    if o.clusterPatchOk {
      TakenKeeps(w, w', o);
    } else {
      assert w'.vms[o.create.id].ours && s'.m.vmid == w.s.m.vmid;
    }
  }
}
