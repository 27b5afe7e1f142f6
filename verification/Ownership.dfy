/** Which VMs a machine's reconciles touch: only the one its VMID names, and live only under its own name. */
module Ownership {
  import opened Machines
  import opened Stages
  import opened Orphans

  /** Which lookups find the machine's VM, which mean that another machine's VM took the VMID, and which neither. */
  lemma FoundIff(m: Machine, got: VmLookup, v: VmView)
    ensures FindVM(m, got) == FoundVM(v) <==>
            m.vmid > 0 && got == Vm(v) && v.name == m.name && !Unnamed(m.name, m.vmid)
    ensures FindVM(m, got) == Collision <==>
            m.vmid > 0 && got.Vm? && got.view.name != m.name && !Unnamed(got.view.name, m.vmid)
            && m.providerID == "" && m.selfAllocated
    ensures FindVM(m, got) == NotFound <==> m.vmid > 0 && got.VmMissing?
    ensures FindVM(m, got) == NotCreated <==> m.vmid <= 0
  {
  }

  // ---- what is new in a record -------------------------------------------------------------------

  /** The events of `l'` after `l`. */
  function Since(l: Log, l': Log): seq<Event>
    decreases l'
  {
    if l' == l || l'.Empty? then [] else Since(l, l'.before) + [l'.e]
  }

  /** A Proxmox mutation of a VM that exists already. */
  predicate Touches(e: Event) {
    e.Mutation() && !e.Cloned?
  }

  /** `l'` continues `l`, and touches only VMs of `ids` in doing so. */
  predicate Only(l: Log, l': Log, ids: set<VmId>)
    decreases l'
  {
    l' == l || (l'.Log? && Only(l, l'.before, ids) && (Touches(l'.e) ==> l'.e.id in ids))
  }

  lemma {:induction false} OnlyChain(a: Log, b: Log, c: Log, ids: set<VmId>)
    requires Only(a, b, ids) && Only(b, c, ids)
    ensures Only(a, c, ids)
    decreases c
  {
    if c != b {
      OnlyChain(a, b, c.before, ids);
    }
  }

  lemma OnlyLonger(l: Log, l': Log, e: Event)
    requires Only(l, l', {}) && !Touches(e)
    ensures Only(l, Log(l', e), {})
  {
  }

  lemma {:induction false} OnlyGrows(l: Log, l': Log, ids: set<VmId>, more: set<VmId>)
    requires Only(l, l', ids) && ids <= more
    ensures Only(l, l', more)
    decreases l'
  {
    if l' != l {
      OnlyGrows(l, l'.before, ids, more);
    }
  }

  lemma {:induction false} OnlySince(l: Log, l': Log, ids: set<VmId>, e: Event)
    requires Only(l, l', ids) && e in Since(l, l') && Touches(e)
    ensures e.id in ids
    decreases l'
  {
    if l' != l && e in Since(l, l'.before) {
      OnlySince(l, l'.before, ids, e);
    }
  }

  // ---- the stages --------------------------------------------------------------------------------

  lemma {:induction false} TaskTouches(s: Scope, o: Obs)
    ensures Only(s.log, TaskStage(s, o).s.log, {})
  {
    if s.m.taskRef.TaskRef? && o.lookup.Found? {
      var task := s.m.taskRef.id;
      var t := TaskStage(s, o).s.log;
      OnlyLonger(s.log, s.log, FailureSeen(task, o.now));
      OnlyLonger(s.log, Log(s.log, FailureSeen(task, o.now)), TaskDropped(task, o.now));
      assert t == s.log || t == Log(s.log, FailureSeen(task, o.now))
             || t == Log(Log(s.log, FailureSeen(task, o.now)), TaskDropped(task, o.now));
    }
  }

  lemma {:induction false} EarlyTouches(s: Scope, vm: VmView, o: Obs)
    ensures RecoveryStage(s, vm, o).s.log == s.log
    ensures Only(s.log, ConfigStage(s, vm, o).s.log, {s.m.vmid})
    ensures Only(s.log, DiskStage(s, vm, o).s.log, {s.m.vmid})
  {
  }

  lemma {:induction false} TagLoopTouches(s: Scope, heads: seq<PoolHead>)
    ensures Only(s.log, TagLoop(s, heads).s.log, {s.m.vmid})
    decreases |heads|
  {
    if heads != [] {
      if !heads[0].NeedsTag() {
        TagLoopTouches(s, heads[1..]);
      } else if heads[0].tag.TaskRef? {
        var s1 := Scope(s.m.(taskRef := heads[0].tag), Log(s.log, Tagged(s.m.vmid, heads[0].tag.id)));
        TagLoopTouches(s1, heads[1..]);
        OnlyChain(s.log, s1.log, TagLoop(s1, heads[1..]).s.log, {s.m.vmid});
      }
    }
  }

  lemma {:induction false} IPTouches(s: Scope, o: Obs)
    ensures Only(s.log, IPStage(s, o).s.log, {s.m.vmid})
  {
    var heads := if o.net.present then o.net.heads else [];
    TagLoopTouches(s, heads);
    TagLoopSteady(s, heads);
  }

  lemma {:induction false} BootstrapTouches(s: Scope, vm: VmView, o: Obs)
    ensures Only(s.log, BootstrapStage(s, vm, o).s.log, {s.m.vmid})
  {
    if s.m.reason.WaitingForBootstrapDataReconciliation? && vm.hasMacs && o.bootstrap.Data? {
      var s1 := AfterClaims(s, HandleDevices(o.net));
      assert s1.log == s.log && s1.m.vmid == s.m.vmid;
      AfterDevicesTouches(s1, HandleDevices(o.net), o.bootstrap);
    }
  }

  lemma {:induction false} AfterDevicesTouches(s: Scope, c: Collect, b: BootstrapObs)
    requires b.Data?
    ensures Only(s.log, AfterDevices(s, c, b).s.log, {s.m.vmid})
  {
  }

  lemma {:induction false} LastTouches(s: Scope, vm: VmView, o: Obs)
    ensures Only(s.log, PowerStage(s, vm, o).s.log, {s.m.vmid})
    ensures Only(s.log, AddressStage(s, vm).s.log, {s.m.vmid})
    ensures CloudInitStage(s, o).s.log == s.log
    ensures Only(s.log, FinalStage(s, o).s.log, {s.m.vmid})
  {
  }

  lemma {:induction false} LateStagesTouch(s: Scope, vm: VmView, o: Obs)
    ensures Only(s.log, LateStages(s, vm, o).s.log, {s.m.vmid})
  {
    var id := s.m.vmid;
    BootstrapTouches(s, vm, o);
    BootstrapSteady(s, vm, o);
    var t5 := BootstrapStage(s, vm, o);
    LastTouches(t5.s, vm, o);
    PowerSteady(t5.s, vm, o);
    var t6 := PowerStage(t5.s, vm, o);
    OnlyChain(s.log, t5.s.log, t6.s.log, {id});
    LastTouches(t6.s, vm, o);
    LastSteady(t6.s, vm, o);
    var t7 := AddressStage(t6.s, vm);
    OnlyChain(s.log, t6.s.log, t7.s.log, {id});
    LastTouches(t7.s, vm, o);
    LastSteady(t7.s, vm, o);
    var t8 := CloudInitStage(t7.s, o);
    LastTouches(t8.s, vm, o);
    OnlyChain(s.log, t8.s.log, FinalStage(t8.s, o).s.log, {id});
  }

  lemma {:induction false} EarlyStagesTouch(s: Scope, vm: VmView, o: Obs)
    ensures Only(s.log, EarlyStages(s, vm, o).s.log, {s.m.vmid})
  {
    var id := s.m.vmid;
    EarlyTouches(s, vm, o);
    ConfigSteady(s, vm, o);
    var t1 := RecoveryStage(s, vm, o);
    EarlyTouches(t1.s, vm, o);
    ConfigSteady(t1.s, vm, o);
    var t2 := ConfigStage(t1.s, vm, o);
    EarlyTouches(t2.s, vm, o);
    ConfigSteady(t2.s, vm, o);
    var t3 := DiskStage(t2.s, vm, o);
    OnlyChain(s.log, t2.s.log, t3.s.log, {id});
    IPTouches(t3.s, o);
    IPSteady(t3.s, o);
    var t4 := IPStage(t3.s, o);
    OnlyChain(s.log, t3.s.log, t4.s.log, {id});
    LateStagesTouch(t4.s, vm, o);
    OnlyChain(s.log, t4.s.log, LateStages(t4.s, vm, o).s.log, {id});
  }

  /** Short of finding the machine's own VM, a reconcile at most clones. */
  lemma {:induction false} LookupTouches(s: Scope, o: Obs)
    ensures LookupStage(s, o).verdict.Continue? <==> OwnVM(s.m, o.vm)
    ensures OwnVM(s.m, o.vm) ==> LookupStage(s, o).s.log == s.log && LookupStage(s, o).s.m.vmid == s.m.vmid
    ensures Only(s.log, LookupStage(s, o).s.log, {})
  {
    var found := FindVM(s.m, o.vm);
    if found.NotCreated? {
      CreateTouches(s, o);
    } else if found.NotFound? {
      assert Relocate(s, o).log == s.log;
    } else if found.NotInitialized? {
    } else if found.Collision? {
    } else {
    }
  }

  lemma CreateTouches(s: Scope, o: Obs)
    ensures !CreateStage(s, o).verdict.Continue? && Only(s.log, CreateStage(s, o).s.log, {})
  {
    if o.create.CloneAccepted? {
      OnlyLonger(s.log, s.log, Cloned(o.create.id, o.create.task));
      assert CreateStage(s, o).s.log == Log(s.log, Cloned(o.create.id, o.create.task));
    } else {
      assert CreateStage(s, o).s.log == s.log;
    }
  }

  /** The VMs a live machine's reconcile may touch. */
  function Own(m: Machine, got: VmLookup): set<VmId> {
    if OwnVM(m, got) then {m.vmid} else {}
  }

  lemma {:induction false} ReconcileTouches(s: Scope, o: Obs)
    ensures Only(s.log, ReconcileVM(s, o).s.log, Own(s.m, o.vm))
  {
    var ids := Own(s.m, o.vm);
    TaskTouches(s, o);
    TaskSteady(s, o);
    var s0 := TaskStage(s, o).s;
    OnlyGrows(s.log, s0.log, {}, ids);
    if TaskStage(s, o).verdict.Continue? && s0.m.taskRef.NoTask? {
      var s1 := Initialised(s0);
      assert s1.log == s0.log && s1.m == s0.m.(reason := s1.m.reason);
      LookupTouches(s1, o);
      var t := LookupStage(s1, o);
      OnlyGrows(s0.log, t.s.log, {}, ids);
      OnlyChain(s.log, s0.log, t.s.log, ids);
      if t.verdict.Continue? {
        EarlyStagesTouch(t.s, o.vm.view, o);
        OnlyChain(s.log, t.s.log, EarlyStages(t.s, o.vm.view, o).s.log, ids);
      }
    }
  }

  lemma {:induction false} NormalTouches(s: Scope, o: Obs)
    ensures Only(s.log, NormalStep(s, o).s.log, Own(s.m, o.vm))
  {
    NormalCases(s, o);
    ReconcileTouches(Scope(s.m.(finalizer := true), s.log), o);
  }

  lemma {:induction false} DeleteTouches(s: Scope, o: Obs)
    ensures Only(s.log, DeleteStep(s, o).s.log, if s.m.vmid >= 100 then {s.m.vmid} else {})
  {
    if s.m.vmid <= 0 && s.m.taskRef.NoTask? {
    } else if !o.clientOk {
    } else {
      var s1 := Scope(s.m.(reason := Deleting), s.log);
      var call := ApiDelete(s.m.vmid, o.del);
      assert Only(s.log, AfterApiDelete(s1, call).log, if s.m.vmid >= 100 then {s.m.vmid} else {});
      AfterDeleteMove(AfterApiDelete(s1, call), call, o);
    }
  }

  // ---- over runs ---------------------------------------------------------------------------------

  /**
   * Whatever a reconcile changes on Proxmox, clones aside, it changes about the VM the machine's VMID names. A live
   * machine's VM is moreover registered under the machine's own name, so no reconcile configures, starts or tags
   * a VM that is another's, or one that has no name yet.
   */
  ghost predicate TouchesOwn(w: World, i: Input, w': World) {
    forall e :: e in Since(w.s.log, w'.s.log) && Touches(e) ==>
      && e.id == w.s.m.vmid
      && (i.Normal? ==> e.id > 0 && e.id in w.vms && w.vms[e.id].name == w.s.m.name && !Unnamed(w.s.m.name, e.id))
      && (i.Delete? ==> e.id >= 100)
  }

  lemma {:induction false} ReconcileTouchesOwn(w: World, i: Input, w': World)
    requires Reconcile(w, i, w')
    ensures TouchesOwn(w, i, w')
  {
    var ids := if i.Normal? then Own(w.s.m, i.o.vm) else if w.s.m.vmid >= 100 then {w.s.m.vmid} else {};
    if i.Normal? {
      NormalTouches(w.s, i.o);
    } else {
      DeleteTouches(w.s, i.o);
    }
    forall e | e in Since(w.s.log, w'.s.log) && Touches(e) ensures e.id in ids {
      OnlySince(w.s.log, w'.s.log, ids, e);
    }
  }

  /** In every reconcile of every run. */
  lemma RunsTouchOwn(ws: seq<World>, moves: seq<Move>, k: nat)
    requires IsRun(ws, moves) && k < |moves| && moves[k].Inside?
    ensures TouchesOwn(ws[k], moves[k].i, ws[k + 1])
  {
    assert Moves(ws[k], moves[k], ws[k + 1]);
    ReconcileTouchesOwn(ws[k], moves[k].i, ws[k + 1]);
  }
}
