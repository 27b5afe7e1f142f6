/**
 * The task lock and its back-off: TaskRef keeps a machine's reconciles from acting while a Proxmox
 * task is open, and a failed task is kept for a minute before it is forgotten.
 */
module TaskLock {
  import opened Base
  import opened Machines
  import opened Stages

  /** The number of Proxmox mutations on record. */
  function Mutations(log: Log): nat {
    match log
    case Empty => 0
    case Log(before, e) => Mutations(before) + if e.Mutation() then 1 else 0
  }

  /** The number of Proxmox tasks started that the controller keeps a reference to. */
  function KeptTasks(log: Log): nat {
    match log
    case Empty => 0
    case Log(before, e) => KeptTasks(before) + if e.KeptTask().TaskRef? then 1 else 0
  }

  /** The last of them. */
  function Newest(log: Log): TaskRef {
    match log
    case Empty => NoTask
    case Log(before, e) => if e.KeptTask().TaskRef? then e.KeptTask() else Newest(before)
  }

  /** The task behind TaskRef is over and went well, and no back-off is pending. */
  predicate TaskDone(m: Machine, o: Obs) {
    o.lookup.Found? && o.lookup.task.WentWell()
    && (m.retryAfter.RetryAt? ==> m.retryAfter.time <= o.now)
  }

  /** Which reports of the recorded task let a reconcile pass, which start its back-off and which drop it. */
  lemma {:induction false} LockOpensIff(s: Scope, o: Obs)
    requires s.m.taskRef.TaskRef?
    ensures var t := TaskStage(s, o);
            var waiting := s.m.retryAfter.RetryAt? && o.now < s.m.retryAfter.time;
            && (t.verdict.Continue? <==>
                  o.lookup.Found? && !waiting && var f := o.lookup.task;
                  !f.isRunning && f.isCompleted && (f.isSuccessful || f.exitWarnings))
            && (t.s.log != s.log <==>
                  o.lookup.Found? && !waiting && var f := o.lookup.task;
                  !f.isRunning && f.isFailed && !(f.isCompleted && (f.isSuccessful || f.exitWarnings)))
            && (t.s.log != s.log ==>
                  t.s.m.taskRef == (if s.m.retryAfter.NoRetry? then s.m.taskRef else NoTask)
                  && t.s.m.retryAfter == if s.m.retryAfter.NoRetry? then RetryAt(o.now + 60) else NoRetry)
            && (t.verdict.Continue? ==> t.s == Scope(s.m.(taskRef := NoTask), s.log))
            && (!t.verdict.Continue? && t.s.log == s.log ==> t.s == s)
  {
    if o.lookup.Found? {
      var f := o.lookup.task;
      if s.m.retryAfter.RetryAt? && o.now < s.m.retryAfter.time {
        assert TaskStage(s, o).s == s;
      } else if f.isRunning {
        assert TaskStage(s, o).s == s;
      } else if f.WentWell() {
      } else if !f.isFailed {
        assert TaskStage(s, o).s == s;
      } else if s.m.retryAfter.NoRetry? {
        LongerLog(s.log, FailureSeen(s.m.taskRef.id, o.now));
      } else {
        LongerLog(s.log, FailureSeen(s.m.taskRef.id, o.now));
        LongerLog(Log(s.log, FailureSeen(s.m.taskRef.id, o.now)), TaskDropped(s.m.taskRef.id, o.now));
        assert Length(TaskStage(s, o).s.log) == Length(s.log) + 2;
      }
    }
  }

  function Length(log: Log): nat {
    match log
    case Empty => 0
    case Log(before, _) => Length(before) + 1
  }

  lemma LongerLog(log: Log, e: Event)
    ensures Length(Log(log, e)) == Length(log) + 1 && Log(log, e) != log
  {
  }

  /** A reconcile entered with an open task in TaskRef mutates nothing on Proxmox, so it starts no task at all. */
  lemma {:induction false} OpenTaskBlocks(s: Scope, o: Obs)
    requires s.m.taskRef.TaskRef? && !TaskDone(s.m, o)
    ensures Mutations(NormalStep(s, o).s.log) == Mutations(s.log)
    ensures KeptTasks(NormalStep(s, o).s.log) == KeptTasks(s.log)
    ensures NormalStep(s, o).s.m.taskRef == s.m.taskRef || NormalStep(s, o).s.m.taskRef.NoTask?
  {
    var s1 := Scope(s.m.(finalizer := true), s.log);
    OpenTaskStops(s1, o);
    assert ReconcileVM(s1, o) == TaskStage(s1, o);
  }

  lemma {:induction false} OpenTaskStops(s: Scope, o: Obs)
    requires s.m.taskRef.TaskRef? && !TaskDone(s.m, o)
    ensures var t := TaskStage(s, o);
            !t.verdict.Continue? && !t.verdict.Ready?
            && Mutations(t.s.log) == Mutations(s.log) && KeptTasks(t.s.log) == KeptTasks(s.log)
            && (t.s.m.taskRef == s.m.taskRef || t.s.m.taskRef.NoTask?)
  {
    if o.lookup.Found? {
      var t := o.lookup.task;
      if s.m.retryAfter.RetryAt? && o.now < s.m.retryAfter.time {
      } else if Classify(t).TaskRunning? || Classify(t).TaskUnknown? {
      } else if s.m.retryAfter.NoRetry? {
      } else {
      }
    }
  }

  /** Deletion does not take the lock: it asks Proxmox to destroy the VM whether or not a task is open. */
  lemma DeletionIgnoresTheLock(s: Scope, o: Obs)
    requires s.m.vmid >= 100 && o.clientOk && ApiDelete(s.m.vmid, o.del).err.None?
    ensures Mutations(DeleteStep(s, o).s.log) > Mutations(s.log)
  {
    var s1 := Scope(s.m.(reason := Deleting), s.log);
    var call := ApiDelete(s.m.vmid, o.del);
    assert Mutations(AfterApiDelete(s1, call).log) > Mutations(s.log);
  }

  // ---- one task per reconcile --------------------------------------------------------------------

  /** Default pools whose first address is an IPv4 address the VM is not tagged with. */
  function Untagged(heads: seq<PoolHead>): nat
    decreases |heads|
  {
    if heads == [] then 0 else (if heads[0].NeedsTag() then 1 else 0) + Untagged(heads[1..])
  }

  function UntaggedPools(o: Obs): nat {
    if o.net.present then Untagged(o.net.heads) else 0
  }

  /** The most tasks one reconcile can start. */
  function TaskBound(o: Obs): nat {
    Max(1, UntaggedPools(o))
  }

  /** Every drop of a failed task on record came a back-off after its failure was seen. */
  predicate DropsBackedOff(log: Log) {
    match log
    case Empty => true
    case Log(before, e) =>
      DropsBackedOff(before) && (e.TaskDropped? ==> SeenFailing(before, e.task, e.at - 60))
  }

  /** The failure of `task` was seen no later than `deadline`. */
  predicate SeenFailing(log: Log, task: TaskId, deadline: Time) {
    match log
    case Empty => false
    case Log(before, e) =>
      (e.FailureSeen? && e.task == task && e.at <= deadline) || SeenFailing(before, task, deadline)
  }

  /**
   * What every stage after the task check keeps: the back-off, and the lock. A stage that goes on
   * started no task; one that stops started at most `n`, the last of which TaskRef now names unless
   * it was a clone whose placement could not be recorded.
   */
  predicate Locked(s: Scope, t: Step, patchOk: bool, n: nat := 1) {
    && t.s.m.retryAfter == s.m.retryAfter
    && (DropsBackedOff(s.log) ==> DropsBackedOff(t.s.log))
    && (t.verdict.Continue? || t.verdict.Ready? ==>
          t.s.m.taskRef == s.m.taskRef && KeptTasks(t.s.log) == KeptTasks(s.log))
    && (if KeptTasks(t.s.log) == KeptTasks(s.log) then t.s.m.taskRef == s.m.taskRef
        else KeptTasks(s.log) < KeptTasks(t.s.log) <= KeptTasks(s.log) + n
             && (t.s.m.taskRef == Newest(t.s.log) || (!patchOk && t.s.m.taskRef == s.m.taskRef)))
  }

  lemma {:induction false} CreateLocked(s: Scope, o: Obs)
    ensures Locked(s, CreateStage(s, o), o.clusterPatchOk)
  {
    if !o.create.CloneAccepted? {
    } else if o.clusterPatchOk {
    } else {
    }
  }

  lemma {:induction false} RelocateLocked(s: Scope, o: Obs)
    ensures Locked(s, Step(Relocate(s, o), Failed), true)
    ensures Locked(s, Step(Recover(s, o.clusterPatchOk), Failed), true)
  {
    RecoverKeepsTask(s, o.clusterPatchOk);
    RelocateKeepsTask(s, o);
    SameTaskLocked(s, Relocate(s, o));
    SameTaskLocked(s, Recover(s, o.clusterPatchOk));
  }

  lemma SameTaskLocked(s: Scope, s': Scope)
    requires s'.log == s.log && s'.m.taskRef == s.m.taskRef && s'.m.retryAfter == s.m.retryAfter
    ensures Locked(s, Step(s', Failed), true)
  {
  }

  lemma RelocateKeepsTask(s: Scope, o: Obs)
    ensures var s' := Relocate(s, o);
            s'.log == s.log && s'.m.taskRef == s.m.taskRef && s'.m.retryAfter == s.m.retryAfter
  {
    RecoverKeepsTask(s, o.clusterPatchOk);
  }

  lemma RecoverKeepsTask(s: Scope, patchOk: bool)
    ensures var s' := Recover(s, patchOk);
            s'.log == s.log && s'.m.taskRef == s.m.taskRef && s'.m.retryAfter == s.m.retryAfter
  {
  }

  lemma {:induction false} LookupLocked(s: Scope, o: Obs)
    ensures Locked(s, LookupStage(s, o), o.clusterPatchOk)
  {
    var found := FindVM(s.m, o.vm);
    if found.NotCreated? {
      CreateLocked(s, o);
    } else if found.NotFound? || found.Collision? {
      RelocateLocked(s, o);
    } else if found.NotInitialized? {
    } else {
    }
  }

  lemma {:induction false} EnsureLocked(s: Scope, o: Obs)
    ensures Locked(s, EnsureStage(s, o), o.clusterPatchOk)
  {
    if s.m.taskRef.NoTask? {
      LookupLocked(Initialised(s), o);
      assert Initialised(s).log == s.log && Initialised(s).m.taskRef == s.m.taskRef
             && Initialised(s).m.retryAfter == s.m.retryAfter;
    }
  }

  lemma {:induction false} ConfigLocked(s: Scope, vm: VmView, o: Obs)
    ensures Locked(s, RecoveryStage(s, vm, o), true)
    ensures Locked(s, ConfigStage(s, vm, o), true)
    ensures Locked(s, DiskStage(s, vm, o), true)
  {
  }

  /** The tag loop starts one task per untagged pool, and leaves the last one in TaskRef. */
  lemma {:induction false} TagLoopTasks(s: Scope, heads: seq<PoolHead>)
    ensures var t := TagLoop(s, heads);
            && (t.verdict.Continue? ==> KeptTasks(t.s.log) == KeptTasks(s.log) + Untagged(heads))
            && (t.verdict.Continue? || t.verdict.Failed?)
            && KeptTasks(s.log) <= KeptTasks(t.s.log) <= KeptTasks(s.log) + Untagged(heads)
            && t.s.m.taskRef == (if KeptTasks(t.s.log) == KeptTasks(s.log) then s.m.taskRef else Newest(t.s.log))
            && t.s.m.retryAfter == s.m.retryAfter
            && t.s.m.reason == s.m.reason
            && (DropsBackedOff(s.log) ==> DropsBackedOff(t.s.log))
    decreases |heads|
  {
    if heads != [] {
      if !heads[0].NeedsTag() {
        TagLoopTasks(s, heads[1..]);
      } else if heads[0].tag.TaskRef? {
        TagLoopTasks(Scope(s.m.(taskRef := heads[0].tag), Log(s.log, Tagged(s.m.vmid, heads[0].tag.id))), heads[1..]);
        NewestIsRecent(Scope(s.m.(taskRef := heads[0].tag), Log(s.log, Tagged(s.m.vmid, heads[0].tag.id))), heads[1..]);
      }
    }
  }

  lemma {:induction false} NewestIsRecent(s: Scope, heads: seq<PoolHead>)
    ensures KeptTasks(TagLoop(s, heads).s.log) == KeptTasks(s.log) ==> Newest(TagLoop(s, heads).s.log) == Newest(s.log)
    ensures KeptTasks(TagLoop(s, heads).s.log) >= KeptTasks(s.log)
    decreases |heads|
  {
    if heads != [] {
      if !heads[0].NeedsTag() {
        NewestIsRecent(s, heads[1..]);
      } else if heads[0].tag.TaskRef? {
        NewestIsRecent(Scope(s.m.(taskRef := heads[0].tag), Log(s.log, Tagged(s.m.vmid, heads[0].tag.id))), heads[1..]);
      }
    }
  }

  lemma {:induction false} IPLocked(s: Scope, o: Obs)
    ensures Locked(s, IPStage(s, o), true, TaskBound(o))
  {
    if s.m.reason.WaitingForStaticIPAllocation? {
      var heads := if o.net.present then o.net.heads else [];
      TagLoopTasks(s, heads);
    }
  }

  /** The bound on untagged pools is exact: publishing addresses starts one task for each of them. */
  lemma {:induction false} TasksArePools(s: Scope, o: Obs)
    requires s.m.reason.WaitingForStaticIPAllocation? && IPStage(s, o).s.m.reason.WaitingForBootstrapDataReconciliation?
    ensures KeptTasks(IPStage(s, o).s.log) == KeptTasks(s.log) + UntaggedPools(o)
    ensures IPStage(s, o).s.m.taskRef == if UntaggedPools(o) == 0 then s.m.taskRef else Newest(IPStage(s, o).s.log)
  {
    TagLoopTasks(s, if o.net.present then o.net.heads else []);
  }

  /** Of two untagged pools the second one's task overwrites the first one's, still running, in TaskRef. */
  lemma {:induction false} SecondTagOverwrites(s: Scope, o: Obs, a: PoolHead, b: PoolHead)
    requires o.net.present && o.net.heads == [a, b] && a.NeedsTag() && b.NeedsTag()
    requires s.m.reason.WaitingForStaticIPAllocation? && IPStage(s, o).s.m.reason.WaitingForBootstrapDataReconciliation?
    ensures a.tag.TaskRef? && b.tag.TaskRef? && IPStage(s, o).s.m.taskRef == b.tag
    ensures IPStage(s, o).s.log.Has(Tagged(s.m.vmid, a.tag.id))
  {
    TwoTags(s, a, b);
  }

  lemma {:induction false} TwoTags(s: Scope, a: PoolHead, b: PoolHead)
    requires a.NeedsTag() && b.NeedsTag()
    ensures var t := TagLoop(s, [a, b]);
            if a.tag.TaskRef? && b.tag.TaskRef?
            then t == Step(Scope(s.m.(taskRef := b.tag), Log(Log(s.log, Tagged(s.m.vmid, a.tag.id)), Tagged(s.m.vmid, b.tag.id))), Continue)
            else t.verdict.Failed? && t.s.m.reason == s.m.reason
  {
    assert [a, b][1..] == [b] && [b][1..] == [];
    if a.tag.TaskRef? {
      var s1 := Scope(s.m.(taskRef := a.tag), Log(s.log, Tagged(s.m.vmid, a.tag.id)));
      assert TagLoop(s, [a, b]) == TagLoop(s1, [b]);
      if b.tag.TaskRef? {
        var s2 := Scope(s1.m.(taskRef := b.tag), Log(s1.log, Tagged(s1.m.vmid, b.tag.id)));
        assert TagLoop(s1, [b]) == TagLoop(s2, []);
      }
    }
  }

  lemma {:induction false} PowerLocked(s: Scope, vm: VmView, o: Obs)
    ensures Locked(s, PowerStage(s, vm, o), true)
  {
    if !s.m.reason.WaitingForVMPowerUp? {
    } else if !vm.power.Paused? && !vm.power.Stopped? && !vm.power.Hibernated? {
    } else if o.start.NoTask? {
    } else if vm.power.Paused? {
      NewTaskLocks(s, Resumed(s.m.vmid, o.start.id), o.start);
    } else {
      NewTaskLocks(s, Started(s.m.vmid, o.start.id), o.start);
    }
  }

  lemma {:induction false} NewTaskLocks(s: Scope, e: Event, task: TaskRef)
    requires (e.Started? || e.Resumed?) && task.TaskRef? && e.KeptTask() == task
    ensures Locked(s, Step(Scope(s.m.(taskRef := task), Log(s.log, e)), Requeue), true)
  {
  }

  lemma {:induction false} AddressLocked(s: Scope, vm: VmView)
    ensures Locked(s, AddressStage(s, vm), true)
  {
  }

  lemma {:induction false} BootstrapLocked(s: Scope, vm: VmView, o: Obs)
    ensures Locked(s, BootstrapStage(s, vm, o), true)
  {
    if !s.m.reason.WaitingForBootstrapDataReconciliation? || !vm.hasMacs {
    } else if o.bootstrap.DataError? {
    } else {
      var c := HandleDevices(o.net);
      var s1 := AfterClaims(s, c);
      assert s1.log == s.log && s1.m.taskRef == s.m.taskRef && s1.m.retryAfter == s.m.retryAfter;
      AfterDevicesLocked(s1, c, o.bootstrap);
    }
  }

  lemma {:induction false} AfterDevicesLocked(s: Scope, c: Collect, b: BootstrapObs)
    requires b.Data?
    ensures Locked(s, AfterDevices(s, c, b), true)
  {
    if c.err || (!c.requeue && !b.deviceDataOk) || !b.vrfDataOk {
    } else if b.format.UnknownFormat? {
    } else {
    }
  }

  lemma {:induction false} FinalLocked(s: Scope, o: Obs)
    ensures Locked(s, CloudInitStage(s, o), true)
    ensures Locked(s, FinalStage(s, o), true)
  {
  }

  lemma {:induction false} LateStagesLocked(s: Scope, vm: VmView, o: Obs)
    ensures Locked(s, LateStages(s, vm, o), true)
  {
    BootstrapLocked(s, vm, o);
    var t5 := BootstrapStage(s, vm, o);
    PowerLocked(t5.s, vm, o);
    var t6 := PowerStage(t5.s, vm, o);
    AddressLocked(t6.s, vm);
    var t7 := AddressStage(t6.s, vm);
    FinalLocked(t7.s, o);
    var t8 := CloudInitStage(t7.s, o);
    FinalLocked(t8.s, o);
  }

  lemma {:induction false} EarlyStagesLocked(s: Scope, vm: VmView, o: Obs)
    ensures Locked(s, EarlyStages(s, vm, o), true, TaskBound(o))
  {
    ConfigLocked(s, vm, o);
    var t1 := RecoveryStage(s, vm, o);
    ConfigLocked(t1.s, vm, o);
    var t2 := ConfigStage(t1.s, vm, o);
    ConfigLocked(t2.s, vm, o);
    var t3 := DiskStage(t2.s, vm, o);
    IPLocked(t3.s, o);
    var t4 := IPStage(t3.s, o);
    LateStagesLocked(t4.s, vm, o);
  }

  /** From a free lock on, whatever a reconcile starts, TaskRef ends up naming the last of it. */
  lemma {:induction false} FreeLock(s: Scope, o: Obs)
    requires s.m.taskRef.NoTask?
    ensures Locked(s, ReconcileVM(s, o), o.clusterPatchOk, TaskBound(o))
  {
    EnsureLocked(s, o);
    var t1 := EnsureStage(s, o);
    if t1.verdict.Continue? {
      EarlyStagesLocked(t1.s, o.vm.view, o);
    }
  }

  lemma {:induction false} DoneTaskFreesTheLock(s: Scope, o: Obs)
    requires s.m.taskRef.TaskRef? && TaskDone(s.m, o)
    ensures TaskStage(s, o) == Step(Scope(s.m.(taskRef := NoTask), s.log), Continue)
    ensures ReconcileVM(s, o) == ReconcileVM(Scope(s.m.(taskRef := NoTask), s.log), o)
  {
  }

  /** Every reconcile starts at most one task it keeps, as long as at most one default pool needs an IPv4 tag. */
  lemma {:induction false} OneKeptTaskPerReconcile(s: Scope, o: Obs)
    requires UntaggedPools(o) <= 1
    ensures KeptTasks(NormalStep(s, o).s.log) <= KeptTasks(s.log) + 1
    ensures KeptTasks(NormalStep(s, o).s.log) == KeptTasks(s.log) + 1 && o.clusterPatchOk ==>
              NormalStep(s, o).s.m.taskRef == Newest(NormalStep(s, o).s.log)
  {
    if s.m.taskRef.TaskRef? && !TaskDone(s.m, o) {
      OpenTaskBlocks(s, o);
    } else {
      var s1 := Scope(s.m.(finalizer := true), s.log);
      FreeLock(Scope(s1.m.(taskRef := NoTask), s.log), o);
      if s.m.taskRef.TaskRef? {
        DoneTaskFreesTheLock(s1, o);
      } else {
        assert Scope(s1.m.(taskRef := NoTask), s.log) == s1;
      }
    }
  }

  // ---- back-off over runs ------------------------------------------------------------------------

  /** Task outcomes are stable: what is seen of the recorded task agrees with its one fate. */
  predicate Stable(m: Machine, o: Obs, fails: TaskId -> bool) {
    m.taskRef.TaskRef? && o.lookup.Found? ==>
      (o.lookup.task.WentWrong() ==> fails(m.taskRef.id))
      && (o.lookup.task.WentWell() ==> !fails(m.taskRef.id))
  }

  predicate StableRun(s: Scope, inputs: seq<Input>, fails: TaskId -> bool)
    decreases |inputs|
  {
    inputs == [] || (Stable(s.m, inputs[0].o, fails) && StableRun(Next(s, inputs[0]).s, inputs[1..], fails))
  }

  /** RetryAfter is set only over a failed task, a back-off after its failure was seen. */
  predicate BackedOff(s: Scope, fails: TaskId -> bool) {
    DropsBackedOff(s.log)
    && (s.m.retryAfter.RetryAt? ==>
          s.m.taskRef.TaskRef? && fails(s.m.taskRef.id)
          && SeenFailing(s.log, s.m.taskRef.id, s.m.retryAfter.time - 60))
  }

  lemma {:induction false} SeenStaysSeen(log: Log, task: TaskId, deadline: Time, later: Time)
    requires SeenFailing(log, task, deadline) && deadline <= later
    ensures SeenFailing(log, task, later)
    decreases log
  {
    if !(log.e.FailureSeen? && log.e.task == task && log.e.at <= deadline) {
      SeenStaysSeen(log.before, task, deadline, later);
    }
  }

  lemma {:induction false} TaskStageBacksOff(s: Scope, o: Obs, fails: TaskId -> bool)
    requires BackedOff(s, fails) && Stable(s.m, o, fails)
    ensures BackedOff(TaskStage(s, o).s, fails)
    ensures TaskStage(s, o).verdict.Continue? ==>
              TaskStage(s, o).s.m.taskRef.NoTask? && TaskStage(s, o).s.m.retryAfter.NoRetry?
    ensures !TaskStage(s, o).verdict.Ready?
  {
    if s.m.taskRef.TaskRef? && o.lookup.Found? {
      var t := o.lookup.task;
      if s.m.retryAfter.RetryAt? && o.now < s.m.retryAfter.time {
      } else if Classify(t).TaskRunning? || Classify(t).TaskUnknown? {
      } else if Classify(t).TaskSucceeded? {
      } else if s.m.retryAfter.NoRetry? {
      } else {
        SeenStaysSeen(s.log, s.m.taskRef.id, s.m.retryAfter.time - 60, o.now - 60);
      }
    }
  }

  lemma {:induction false} ReconcileBacksOff(s: Scope, o: Obs, fails: TaskId -> bool)
    requires BackedOff(s, fails) && Stable(s.m, o, fails)
    ensures BackedOff(ReconcileVM(s, o).s, fails)
  {
    TaskStageBacksOff(s, o, fails);
    var t0 := TaskStage(s, o);
    if t0.verdict.Continue? {
      FreeLock(t0.s, o);
      assert ReconcileVM(s, o) == ReconcileVM(t0.s, o);
    }
  }

  lemma {:induction false} DeleteBacksOff(s: Scope, o: Obs, fails: TaskId -> bool)
    requires BackedOff(s, fails)
    ensures BackedOff(DeleteStep(s, o).s, fails)
  {
    if s.m.vmid <= 0 && s.m.taskRef.NoTask? {
    } else if !o.clientOk {
    } else {
      var s1 := Scope(s.m.(reason := Deleting), s.log);
      var call := ApiDelete(s.m.vmid, o.del);
      var s2 := AfterApiDelete(s1, call);
      assert s2.m == s1.m && BackedOff(s2, fails);
      AfterDeleteKeepsTask(s2, call, o);
    }
  }

  lemma AfterDeleteKeepsTask(s: Scope, call: DeleteCall, o: Obs)
    ensures var t := AfterDelete(s, call, o).s;
            t.log == s.log && t.m.taskRef == s.m.taskRef && t.m.retryAfter == s.m.retryAfter
  {
    if call.err.None? {
    } else if VMNotFound(call.err.value) || call.err.value.ErrVMIDFree? {
    } else if call.err.value.ErrVMNotOnNode? {
    } else {
    }
  }

  lemma {:induction false} SameTaskBacksOff(s: Scope, s': Scope, fails: TaskId -> bool)
    requires BackedOff(s, fails)
    requires s'.log == s.log && s'.m.taskRef == s.m.taskRef && s'.m.retryAfter == s.m.retryAfter
    ensures BackedOff(s', fails)
  {
  }

  lemma {:induction false} NormalBacksOff(s: Scope, o: Obs, fails: TaskId -> bool)
    requires BackedOff(s, fails) && Stable(s.m, o, fails)
    ensures BackedOff(NormalStep(s, o).s, fails)
  {
    NormalCases(s, o);
    var t := NormalStep(s, o);
    var s1 := Scope(s.m.(finalizer := true), s.log);
    if Gated(s, t) {
      SameTaskBacksOff(s, t.s, fails);
    } else {
      SameTaskBacksOff(s, s1, fails);
      ReconcileBacksOff(s1, o, fails);
      SameTaskBacksOff(ReconcileVM(s1, o).s, t.s, fails);
    }
  }

  lemma {:induction false} NextBacksOff(s: Scope, i: Input, fails: TaskId -> bool)
    requires BackedOff(s, fails) && Stable(s.m, i.o, fails)
    ensures BackedOff(Next(s, i).s, fails)
  {
    if i.Delete? {
      DeleteBacksOff(s, i.o, fails);
    } else {
      NormalBacksOff(s, i.o, fails);
    }
  }

  /**
   * Over every run with stable task outcomes: RetryAfter is set only while TaskRef is, and no failed
   * task was dropped less than a back-off after its failure was seen.
   */
  lemma {:induction false} BackoffOverRuns(s: Scope, inputs: seq<Input>, fails: TaskId -> bool)
    requires BackedOff(s, fails) && StableRun(s, inputs, fails)
    ensures BackedOff(Run(s, inputs), fails)
    decreases |inputs|
  {
    if inputs != [] {
      NextBacksOff(s, inputs[0], fails);
      BackoffOverRuns(Next(s, inputs[0]).s, inputs[1..], fails);
    }
  }

  /** Were a finished task to change its outcome it would fail: seen failing, then succeeding, it leaves RetryAfter over no task. */
  lemma UnstableOutcomeLeaksRetryAfter(s: Scope, failed: Obs, succeeded: Obs)
    requires s.m.taskRef.TaskRef? && s.m.retryAfter.NoRetry?
    requires failed.lookup.Found? && failed.lookup.task.WentWrong()
    requires succeeded.lookup.Found? && succeeded.lookup.task.WentWell()
    requires succeeded.now >= failed.now + 60
    ensures var m := TaskStage(TaskStage(s, failed).s, succeeded).s.m;
            m.taskRef.NoTask? && m.retryAfter.RetryAt?
  {
  }
}
