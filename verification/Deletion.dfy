/** Deleting a machine: when its finalizer goes, what Proxmox is asked first, and that it goes in bounded time. */
module Deletion {
  import opened Base
  import opened Machines
  import opened Stages
  import Orphans

  // ---- when the finalizer goes -------------------------------------------------------------------

  /** The error of a failed call says that the VM does not exist; the one that looks up the cluster never does. */
  predicate SaidToBeGone(d: DeleteObs) {
    d.errorSaysDoesNotExist &&
    (|| !d.nodeOk
     || (d.clusterOk && d.check.CheckError?)
     || (d.clusterOk && d.check.IdTaken? && d.readable && ((d.running && !d.stopOk) || !d.deleteOk)))
  }

  /** There is nothing to delete, or Proxmox was asked and has nothing left under the VMID. */
  predicate NothingLeft(m: Machine, o: Obs) {
    || (m.vmid <= 0 && m.taskRef.NoTask?)
    || (o.clientOk && (|| m.vmid < 100
                       || (o.del.nodeOk && o.del.clusterOk && o.del.check.IdFree?)
                       || SaidToBeGone(o.del)))
  }

  /**
   * The finalizer goes exactly if there is nothing to delete, or Proxmox was asked and the VMID is one it never
   * gives out, or is free, or a call on the way says that the VM does not exist. The VM being unreadable on its
   * node is none of these, whatever the error says.
   */
  lemma {:induction false} FinalizerGoesIff(s: Scope, o: Obs)
    requires s.m.finalizer
    ensures !DeleteStep(s, o).s.m.finalizer <==> NothingLeft(s.m, o)
    ensures !DeleteStep(s, o).s.m.finalizer ==> DeleteStep(s, o).s.m.placed == ""
  {
    if s.m.vmid <= 0 && s.m.taskRef.NoTask? {
    } else if !o.clientOk {
    } else {
      StageDropsIff(Scope(s.m.(reason := Deleting), s.log), o);
    }
  }

  lemma {:induction false} StageDropsIff(s: Scope, o: Obs)
    requires s.m.finalizer
    ensures !DeleteStage(s, o).s.m.finalizer <==>
            || s.m.vmid < 100
            || (o.del.nodeOk && o.del.clusterOk && o.del.check.IdFree?)
            || SaidToBeGone(o.del)
    ensures !DeleteStage(s, o).s.m.finalizer ==> DeleteStage(s, o).s.m.placed == ""
  {
    var call := ApiDelete(s.m.vmid, o.del);
    var s1 := AfterApiDelete(s, call);
    assert s1.m == s.m;
    AfterDeleteDrops(s1, call, o);
    CallSaysGoneIff(s.m.vmid, o.del);
  }

  lemma AfterDeleteDrops(s: Scope, call: DeleteCall, o: Obs)
    requires s.m.finalizer
    ensures !AfterDelete(s, call, o).s.m.finalizer <==>
            call.err == Some(ErrVMIDFree) || call.err == Some(OtherError(true))
    ensures !AfterDelete(s, call, o).s.m.finalizer ==> AfterDelete(s, call, o).s.m.placed == ""
  {
    if call.err.Some? && call.err.value.ErrVMNotOnNode? {
      assert RelocateForDeletion(s.m, o).finalizer;
    }
  }

  lemma CallSaysGoneIff(id: VmId, d: DeleteObs)
    ensures var err := ApiDelete(id, d).err;
            err == Some(ErrVMIDFree) || err == Some(OtherError(true)) <==>
            id < 100 || (d.nodeOk && d.clusterOk && d.check.IdFree?) || SaidToBeGone(d)
  {
  }

  /** A live machine never loses its finalizer. */
  lemma {:induction false} NormalKeepsFinalizer(s: Scope, o: Obs)
    requires s.m.finalizer
    ensures NormalStep(s, o).s.m.finalizer
  {
    NormalCases(s, o);
    var s1 := Scope(s.m.(finalizer := true), s.log);
    FinalizerStays(s1, o);
  }

  lemma {:induction false} FinalizerStays(s: Scope, o: Obs)
    requires s.m.finalizer
    ensures ReconcileVM(s, o).s.m.finalizer
  {
    Orphans.TaskSteady(s, o);
    var s0 := TaskStage(s, o).s;
    var s1 := Initialised(s0);
    assert s1.m.finalizer;
    LookupKeepsFinalizer(s1, o);
    if LookupStage(s1, o).verdict.Continue? {
      Orphans.EarlyStagesSteady(LookupStage(s1, o).s, o.vm.view, o);
    }
  }

  lemma {:induction false} LookupKeepsFinalizer(s: Scope, o: Obs)
    requires s.m.finalizer
    ensures LookupStage(s, o).s.m.finalizer
    ensures LookupStage(s, o).verdict.Continue? ==> o.vm.Vm?
  {
    var found := FindVM(s.m, o.vm);
    if found.NotCreated? {
      assert CreateStage(s, o).s.m.finalizer && !CreateStage(s, o).verdict.Continue?;
    } else if found.NotFound? {
      assert Relocate(s, o).m.finalizer;
    }
  }

  // ---- what Proxmox is asked ---------------------------------------------------------------------

  /** Nothing but the VM's own answers keep the delete from being accepted. */
  predicate Accepts(d: DeleteObs) {
    d.nodeOk && d.clusterOk && d.check.IdTaken? && d.readable && (d.running ==> d.stopOk) && d.deleteOk
  }

  /** An accepted delete is preceded by the stop of a running VM, and keeps the finalizer until the VMID is free. */
  lemma {:induction false} AcceptedDeleteIs(s: Scope, o: Obs)
    requires s.m.vmid >= 100 && o.clientOk
    ensures Accepts(o.del) ==>
              DeleteStep(s, o).s ==
              Scope(s.m.(reason := Deleting),
                    Log(if o.del.running then Log(s.log, StoppedVM(s.m.vmid)) else s.log, DeleteRequested(s.m.vmid)))
    ensures !Accepts(o.del) ==>
              DeleteStep(s, o).s.log == s.log || DeleteStep(s, o).s.log == Log(s.log, StoppedVM(s.m.vmid))
  {
    var s1 := Scope(s.m.(reason := Deleting), s.log);
    var call := ApiDelete(s.m.vmid, o.del);
    assert call.err.None? <==> Accepts(o.del);
    if Accepts(o.del) {
      assert call == DeleteCall(None, o.del.running);
      assert DeleteStep(s, o) == Step(AfterApiDelete(s1, call), Requeue);
    } else {
      AfterDeleteKeepsLog(AfterApiDelete(s1, call), call, o);
    }
  }

  lemma AfterDeleteKeepsLog(s: Scope, call: DeleteCall, o: Obs)
    ensures AfterDelete(s, call, o).s.log == s.log
  {
  }

  /** The VM is not on the node asked: the record moves to where the listing has it, if under the machine's name. */
  lemma {:induction false} UnreadableRelocates(s: Scope, o: Obs)
    requires s.m.vmid >= 100 && o.clientOk && o.del.nodeOk && o.del.clusterOk && o.del.check.IdTaken? && !o.del.readable
    ensures var s' := DeleteStep(s, o).s;
            var moves := o.resource.Resource? && o.resource.node != "" && o.resource.name == s.m.name
                         && o.resource.node != s.m.Locate(o.sourceNode);
            s' == Scope(if moves then s.m.(reason := DeletionFailed, node := o.resource.node, placed := o.resource.node)
                        else s.m.(reason := DeletionFailed), s.log)
  {
    var s1 := Scope(s.m.(reason := Deleting), s.log);
    assert ApiDelete(s.m.vmid, o.del) == DeleteCall(Some(ErrVMNotOnNode), false);
    assert s1.m.Locate(o.sourceNode) == s.m.Locate(o.sourceNode);
  }

  // ---- bounded deletion --------------------------------------------------------------------------

  /** The machine; the node its VM is on; whether its deletion was accepted, and how many checks it then still takes. */
  datatype Phase = Phase(s: Scope, host: string, accepted: bool, checks: nat)

  predicate Deletes(p: Phase) {
    p.s.m.finalizer && p.s.m.vmid >= 100 && p.host != ""
  }

  /**
   * What a delete reconcile meets while Proxmox cooperates: it answers, finds the VM on its host and only there,
   * lists it under its name, and accepts the requests. The VMID is free only after the deletion ran.
   */
  predicate Cooperative(p: Phase, o: Obs) {
    && o.clientOk && o.del.nodeOk && o.del.clusterOk
    && o.del.check == (if p.accepted && p.checks == 0 then IdFree else IdTaken)
    && o.del.readable == (p.s.m.Locate(o.sourceNode) == p.host)
    && (o.del.running ==> o.del.stopOk) && o.del.deleteOk
    && o.resource == Resource(p.host, p.s.m.name)
  }

  /** One reconcile: an accepted deletion runs on, and takes no more than `maxChecks` checks. */
  predicate GoodStep(p: Phase, o: Obs, p': Phase, maxChecks: nat) {
    && Cooperative(p, o)
    && p'.s == DeleteStep(p.s, o).s && p'.host == p.host
    && p'.accepted == (p.accepted || Accepts(o.del))
    && p'.checks <= maxChecks
    && (p.accepted && p.checks > 0 ==> p'.checks == p.checks - 1)
  }

  /** How many reconciles are left: to find the VM, to have its deletion accepted, and to wait for it. */
  function Rank(p: Phase, maxChecks: nat): nat {
    if p.accepted then p.checks
    else if p.s.m.node == p.host then maxChecks + 1
    else maxChecks + 2
  }

  lemma {:induction false} LocatedOrMoves(p: Phase, o: Obs)
    requires Deletes(p) && Cooperative(p, o) && o.del.check.IdTaken?
    ensures var s' := DeleteStep(p.s, o).s;
            && s'.m.finalizer && s'.m.vmid == p.s.m.vmid
            && (Accepts(o.del) || (s'.m.node == p.host && p.s.m.node != p.host))
  {
    if Accepts(o.del) {
      AcceptedDeleteIs(p.s, o);
    } else {
      UnreadableRelocates(p.s, o);
    }
  }

  /** Every cooperative reconcile takes the finalizer off or comes closer to it. */
  lemma {:induction false} EveryStepAdvances(p: Phase, o: Obs, p': Phase, maxChecks: nat)
    requires Deletes(p) && p.checks <= maxChecks && GoodStep(p, o, p', maxChecks)
    ensures p'.s.m.finalizer ==> Deletes(p') && Rank(p', maxChecks) < Rank(p, maxChecks)
    ensures Rank(p, maxChecks) == 0 ==> !p'.s.m.finalizer
  {
    FinalizerGoesIff(p.s, o);
    if o.del.check.IdTaken? {
      LocatedOrMoves(p, o);
    }
  }

  ghost predicate GoodRun(ps: seq<Phase>, os: seq<Obs>, maxChecks: nat) {
    && |ps| == |os| + 1
    && (forall k :: 0 <= k < |ps| ==> ps[k].checks <= maxChecks)
    && forall k :: 0 <= k < |os| ==> GoodStep(ps[k], os[k], ps[k + 1], maxChecks)
  }

  lemma {:induction false} RankOverRun(ps: seq<Phase>, os: seq<Obs>, maxChecks: nat, k: nat)
    requires GoodRun(ps, os, maxChecks) && Deletes(ps[0]) && k < |ps|
    requires forall j :: 0 <= j <= k ==> ps[j].s.m.finalizer
    ensures Deletes(ps[k]) && Rank(ps[k], maxChecks) + k <= Rank(ps[0], maxChecks)
  {
    if k > 0 {
      RankOverRun(ps, os, maxChecks, k - 1);
      EveryStepAdvances(ps[k - 1], os[k - 1], ps[k], maxChecks);
    }
  }

  /** The finalizer is gone after at most three reconciles more than the deletion takes checks. */
  lemma {:induction false} GoneInBoundedSteps(ps: seq<Phase>, os: seq<Obs>, maxChecks: nat)
    requires GoodRun(ps, os, maxChecks) && Deletes(ps[0]) && |os| >= maxChecks + 3
    ensures exists k :: 0 < k <= maxChecks + 3 && !ps[k].s.m.finalizer
  {
    if forall j :: 0 <= j <= maxChecks + 3 ==> ps[j].s.m.finalizer {
      RankOverRun(ps, os, maxChecks, maxChecks + 3);
      assert false;
    }
  }
}
