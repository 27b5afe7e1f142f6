/** The machine controller as it runs: reconcile after reconcile on one machine object, with what the runs keep. */
module MachineRuns {
  import opened Machines
  import opened Stages
  import MachineController
  import StageOrder
  import TaskLock
  import Orphans
  import Readiness
  import Ownership
  import Deletion

  // ---- what one reconcile keeps ------------------------------------------------------------------

  /** Stage order; and Ready only of a machine that is done, unless it falls through with one that is not. */
  predicate OrderKept(s: Scope, i: Input, s': Scope) {
    StageOrder.Supported(i.o) ==>
      && (StageOrder.Inv(s, false) ==> StageOrder.Inv(s', false))
      && (StageOrder.Inv(s, true) && (i.Normal? ==> !Readiness.Harmful(s, i.o)) ==> StageOrder.Inv(s', true))
  }

  lemma NextKeepsOrder(s: Scope, i: Input)
    ensures OrderKept(s, i, Next(s, i).s)
  {
    if StageOrder.Supported(i.o) && StageOrder.Inv(s, false) {
      StageOrder.NextKeeps(s, i, false);
    }
    if StageOrder.Supported(i.o) && StageOrder.Inv(s, true) && (i.Normal? ==> !Readiness.Harmful(s, i.o)) {
      if i.Normal? {
        Readiness.StepIsDoneIff(s, i.o);
      }
      StageOrder.NextKeeps(s, i, true);
    }
  }

  /** An open task blocks every mutation of a normal reconcile, and a failed one is kept for its back-off. */
  predicate LockKept(s: Scope, i: Input, s': Scope, fails: TaskId -> bool) {
    && (i.Normal? && s.m.taskRef.TaskRef? && !TaskLock.TaskDone(s.m, i.o) ==>
          TaskLock.Mutations(s'.log) == TaskLock.Mutations(s.log))
    && (TaskLock.BackedOff(s, fails) && TaskLock.Stable(s.m, i.o, fails) ==> TaskLock.BackedOff(s', fails))
  }

  lemma NextKeepsLock(s: Scope, i: Input, fails: TaskId -> bool)
    ensures LockKept(s, i, Next(s, i).s, fails)
  {
    if i.Normal? && s.m.taskRef.TaskRef? && !TaskLock.TaskDone(s.m, i.o) {
      TaskLock.OpenTaskBlocks(s, i.o);
    }
    if TaskLock.BackedOff(s, fails) && TaskLock.Stable(s.m, i.o, fails) {
      TaskLock.NextBacksOff(s, i, fails);
    }
  }

  /**
   * Only the machine's own VM is touched. Every VM cloned for the machine stays named by it and guarded by its
   * finalizer; a known VMID is final.
   */
  ghost predicate VMsKept(s: Scope, i: Input, s': Scope, vms: map<VmId, Orphans.Registered>) {
    var w := Orphans.World(s, vms);
    && (Orphans.Honest(w, i.o) && Orphans.Patched(i.o) ==>
          Ownership.TouchesOwn(w, i, Orphans.World(s', Orphans.AfterClones(vms, s.log, s'.log))))
    && (Orphans.Inv(w) && Orphans.Honest(w, i.o) && Orphans.Patched(i.o) ==>
      && Orphans.Inv(Orphans.World(s', Orphans.AfterClones(vms, s.log, s'.log)))
      && (s.m.providerID != "" ==> s'.m.vmid == s.m.vmid && s'.m.providerID != ""))
  }

  lemma NextKeepsVMs(s: Scope, i: Input, vms: map<VmId, Orphans.Registered>)
    ensures VMsKept(s, i, Next(s, i).s, vms)
  {
    var w, s' := Orphans.World(s, vms), Next(s, i).s;
    var w' := Orphans.World(s', Orphans.AfterClones(vms, s.log, s'.log));
    if Orphans.Honest(w, i.o) && Orphans.Patched(i.o) {
      Ownership.ReconcileTouchesOwn(w, i, w');
    }
    if Orphans.Inv(w) && Orphans.Honest(w, i.o) && Orphans.Patched(i.o) {
      Orphans.MoveKeeps(w, Orphans.Inside(i), w');
      if s.m.providerID != "" {
        Orphans.MoveKeepsVMID(w, Orphans.Inside(i), w');
      }
    }
  }

  /** A deletion takes the finalizer off exactly if nothing is left of the VM; a live machine never loses it. */
  predicate FinalizerKept(s: Scope, i: Input, s': Scope) {
    s.m.finalizer ==> (!s'.m.finalizer <==> i.Delete? && Deletion.NothingLeft(s.m, i.o))
  }

  lemma NextKeepsFinalizer(s: Scope, i: Input)
    ensures FinalizerKept(s, i, Next(s, i).s)
  {
    if s.m.finalizer {
      if i.Delete? {
        Deletion.FinalizerGoesIff(s, i.o);
      } else {
        Deletion.NormalKeepsFinalizer(s, i.o);
      }
    }
  }

  // ---- the controller ----------------------------------------------------------------------------

  /**
   * One reconcile in place. `vms` is what Proxmox has registered when it starts and `fails` the fate of its
   * tasks; the code sees neither.
   */
  method Reconcile(scope: MachineController.MachineScope, i: Input,
                   ghost vms: map<VmId, Orphans.Registered>, ghost fails: TaskId -> bool) returns (v: Verdict)
    modifies scope
    ensures Step(scope.View(), v) == Next(old(scope.View()), i)
    ensures OrderKept(old(scope.View()), i, scope.View())
    ensures LockKept(old(scope.View()), i, scope.View(), fails)
    ensures VMsKept(old(scope.View()), i, scope.View(), vms)
    ensures FinalizerKept(old(scope.View()), i, scope.View())
  {
    ghost var s := scope.View();
    if i.Normal? {
      v := scope.ReconcileNormal(i.o);
    } else {
      v := scope.ReconcileDelete(i.o);
    }
    NextKeepsOrder(s, i);
    NextKeepsLock(s, i, fails);
    NextKeepsVMs(s, i, vms);
    NextKeepsFinalizer(s, i);
  }

  /** vms[k] is what Proxmox has registered when reconcile k starts: what the one before left, as the outside changed it. */
  ghost predicate History(s: Scope, inputs: seq<Input>, vms: seq<map<VmId, Orphans.Registered>>)
    decreases |inputs|
  {
    && |vms| == |inputs| + 1
    && (inputs != [] ==>
          var s' := Next(s, inputs[0]).s;
          && Orphans.Honest(Orphans.World(s, vms[0]), inputs[0].o) && Orphans.Patched(inputs[0].o)
          && Orphans.Environment(Orphans.World(s', Orphans.AfterClones(vms[0], s.log, s'.log)), Orphans.World(s', vms[1]))
          && History(s', inputs[1..], vms[1..]))
  }

  /** No VM cloned for the machine is lost over the sequence, and a known VMID is final. */
  lemma {:induction false} RunKeepsVMs(s: Scope, inputs: seq<Input>, vms: seq<map<VmId, Orphans.Registered>>)
    requires History(s, inputs, vms) && Orphans.Inv(Orphans.World(s, vms[0]))
    ensures Orphans.Inv(Orphans.World(Run(s, inputs), vms[|inputs|]))
    ensures s.m.providerID != "" ==> Run(s, inputs).m.vmid == s.m.vmid && Run(s, inputs).m.providerID != ""
    decreases |inputs|
  {
    if inputs != [] {
      var s' := Next(s, inputs[0]).s;
      NextKeepsVMs(s, inputs[0], vms[0]);
      Orphans.MoveKeeps(Orphans.World(s', Orphans.AfterClones(vms[0], s.log, s'.log)), Orphans.Outside, Orphans.World(s', vms[1]));
      RunKeepsVMs(s', inputs[1..], vms[1..]);
    }
  }

  /** The requeue loop: any sequence of reconciles. The theorems about runs hold of what it leaves. */
  method ReconcileAll(scope: MachineController.MachineScope, inputs: seq<Input>,
                      ghost vms: seq<map<VmId, Orphans.Registered>>, ghost fails: TaskId -> bool)
    modifies scope
    ensures scope.View() == Run(old(scope.View()), inputs)
    ensures RunKept(old(scope.View()), inputs, scope.View(), fails)
    ensures History(old(scope.View()), inputs, vms) && Orphans.Inv(Orphans.World(old(scope.View()), vms[0])) ==>
              && Orphans.Inv(Orphans.World(scope.View(), vms[|inputs|]))
              && (old(scope.pm).providerID != "" ==> scope.pm.vmid == old(scope.pm).vmid)
  {
    ghost var s := scope.View();
    for i := 0 to |inputs|
      invariant Run(scope.View(), inputs[i..]) == Run(s, inputs)
    {
      assert inputs[i..][0] == inputs[i] && inputs[i..][1..] == inputs[i + 1..];
      var v := Reconcile(scope, inputs[i], map[], fails);
    }
    RunKeeps(s, inputs, fails);
    if History(s, inputs, vms) && Orphans.Inv(Orphans.World(s, vms[0])) {
      RunKeepsVMs(s, inputs, vms);
    }
  }

  /** Stage order, Ready of done machines exactly if no reconcile was harmful, and the back-off. */
  ghost predicate RunKept(s: Scope, inputs: seq<Input>, s': Scope, fails: TaskId -> bool) {
    && ((forall k :: 0 <= k < |inputs| ==> StageOrder.Supported(inputs[k].o)) ==>
          && (StageOrder.Inv(s, false) ==> StageOrder.Inv(s', false))
          && (StageOrder.Inv(s, true) ==>
                && (Readiness.ReadyIsDone(s, inputs) <==> Readiness.Harmless(s, inputs))
                && (Readiness.Harmless(s, inputs) ==> StageOrder.Inv(s', true))))
    && (TaskLock.BackedOff(s, fails) && TaskLock.StableRun(s, inputs, fails) ==> TaskLock.BackedOff(s', fails))
  }

  lemma RunKeeps(s: Scope, inputs: seq<Input>, fails: TaskId -> bool)
    ensures RunKept(s, inputs, Run(s, inputs), fails)
  {
    if forall k :: 0 <= k < |inputs| ==> StageOrder.Supported(inputs[k].o) {
      if StageOrder.Inv(s, false) {
        StageOrder.StageOrderOverRuns(s, inputs);
      }
      if StageOrder.Inv(s, true) {
        Readiness.ReadyIsDoneIff(s, inputs);
      }
    }
    if TaskLock.BackedOff(s, fails) && TaskLock.StableRun(s, inputs, fails) {
      TaskLock.BackoffOverRuns(s, inputs, fails);
    }
  }
}
