/**
 * Progress: with a cooperative Proxmox, IPAM and guest, every reconcile lowers a measure, so a
 * machine is reported Ready within a number of reconciles known in advance.
 */
module Progress {
  import opened Machines
  import opened Stages
  import StageOrder
  import Readiness

  /**
   * The machine, and how long its environment will still take: polls until the open task is over,
   * unresolved IPAM claims, polls until cloud-init is done, and whether the VM was started.
   */
  datatype Phase = Phase(s: Scope, polls: nat, claims: nat, cloudInit: nat, started: bool)

  predicate AtStart(r: Reason) {
    r.NoCondition? || r.WaitingForClusterInfrastructureReady? || r.WaitingForBootstrapData? || r.Cloning?
  }

  /** The phases provisioning goes through. */
  predicate OnPath(p: Phase) {
    var m := p.s.m;
    && m.retryAfter.NoRetry?
    && !m.provisioned
    && (m.taskRef.TaskRef? ==> m.vmid > 0)
    && (|| (AtStart(m.reason) && !p.started)
        || (m.vmid > 0 && !p.started && (m.reason.WaitingForDiskReconciliation? || m.reason.WaitingForStaticIPAllocation?))
        || (m.vmid > 0 && m.ipAddresses && !p.started && m.reason.WaitingForBootstrapDataReconciliation?)
        || (m.vmid > 0 && m.ipAddresses && m.reason.WaitingForVMPowerUp?)
        || (m.vmid > 0 && m.ipAddresses && p.started && m.reason.WaitingForCloudInit?))
  }

  function StageRank(p: Phase): nat {
    var m := p.s.m;
    if m.reason.WaitingForDiskReconciliation? then 5
    else if m.reason.WaitingForStaticIPAllocation? then 4
    else if m.reason.WaitingForBootstrapDataReconciliation? then 3
    else if m.reason.WaitingForVMPowerUp? then if p.started then 1 else 2
    else if m.reason.WaitingForCloudInit? then 0
    else if m.vmid > 0 then 6
    else 7
  }

  /** Stage, then open task, then claims and cloud-init, when no task takes more than `maxPolls` polls. */
  function Rank(p: Phase, maxPolls: nat): nat {
    StageRank(p) * (maxPolls + 2) + (if p.s.m.taskRef.TaskRef? then p.polls + 1 else 0) + p.claims + p.cloudInit
  }

  predicate ClaimsAre(claims: seq<Claim>, pending: bool) {
    && (forall c :: c in claims ==> c == ClaimResolved || c == ClaimPending || c == ClaimMissing(true))
    && (pending <==> exists c :: c in claims && c != ClaimResolved)
  }

  /** What a reconcile meets in a cooperative environment at phase `p`. */
  predicate Cooperative(p: Phase, o: Obs) {
    var m := p.s.m;
    && o.infraReady && o.dataSecret && o.finalizerPatchOk && o.failureDomainOk && o.clientOk
    // tasks succeed
    && (m.taskRef.TaskRef? ==> o.lookup.Found?)
    && (m.taskRef.TaskRef? && p.polls > 0 ==> o.lookup.task.isRunning)
    && (m.taskRef.TaskRef? && p.polls == 0 ==> o.lookup.task.WentWell())
    && o.create.CloneAccepted? && o.create.id > 0 && o.clusterPatchOk
    // the VM is found with MAC addresses, and runs once started
    && o.vm.Vm? && o.vm.view.name == m.name && !Unnamed(m.name, m.vmid) && o.vm.view.hasMacs
    && (if p.started then o.vm.view.power.Running?
        else o.vm.view.power.Stopped? || o.vm.view.power.Paused? || o.vm.view.power.Hibernated?)
    // some option needs configuring
    && o.config.ConfigureAccepted?
    && !o.disks.ResizeError?
    // claims resolve
    && o.net.present && o.net.devices && !o.net.poolsErr && ClaimsAre(o.net.claims, p.claims > 0)
    && (forall h :: h in o.net.heads && h.NeedsTag() ==> h.tag.TaskRef?)
    && o.bootstrap.Data? && o.bootstrap.deviceDataOk && o.bootstrap.vrfDataOk && o.bootstrap.injectOk
    && o.start.TaskRef?
    && o.agentOk && (if p.cloudInit > 0 then o.cloudInit.CloudInitRunning? else o.cloudInit.CloudInitDone?)
    && o.unmountOk
  }

  /** Going from `l` to `l'` issued a start or a resume. */
  predicate StartedBy(l: Log, l': Log) {
    l' != l && l'.Log? && (l'.e.Started? || l'.e.Resumed?)
  }

  /** One cooperative reconcile; whatever it waited for is closer afterwards. */
  predicate GoodStep(p: Phase, o: Obs, p': Phase, maxPolls: nat) {
    && Cooperative(p, o)
    && p'.s == NormalStep(p.s, o).s
    && p'.started == (p.started || StartedBy(p.s.log, p'.s.log))
    && p'.polls <= maxPolls
    && (p.s.m.taskRef.TaskRef? && p.polls > 0 ==> p'.polls == p.polls - 1)
    && p'.claims <= p.claims && p'.cloudInit <= p.cloudInit
    && (p'.s.m.reason.WaitingForStaticIPAllocation? && p'.s.m.taskRef.NoTask? && p.claims > 0 ==> p'.claims < p.claims)
    && (p'.s.m.reason.WaitingForCloudInit? && p'.s.m.taskRef.NoTask? && p.cloudInit > 0 ==> p'.cloudInit < p.cloudInit)
  }

  // ---- claims and tags ---------------------------------------------------------------------------

  lemma {:induction false} ClaimsOutcome(claims: seq<Claim>, requeue: bool, pending: bool)
    requires ClaimsAre(claims, pending)
    ensures HandleClaims(false, requeue, claims) == Collect(false, requeue || pending, false)
    decreases |claims|
  {
    if claims != [] {
      var rest := claims[1..];
      var restPending := exists c :: c in rest && c != ClaimResolved;
      assert forall c :: c in rest ==> c in claims;
      assert claims[0] in claims;
      ClaimsOutcome(rest, requeue || claims[0] != ClaimResolved, restPending);
      assert forall c :: c in claims ==> c == claims[0] || c in rest;
    }
  }

  lemma {:induction false} TagLoopSucceeds(s: Scope, heads: seq<PoolHead>)
    requires forall h :: h in heads && h.NeedsTag() ==> h.tag.TaskRef?
    ensures var t := TagLoop(s, heads);
            t.verdict.Continue? && t.s.m == s.m.(taskRef := t.s.m.taskRef)
            && (t.s.log == s.log || (t.s.log.Log? && t.s.log.e.Tagged?))
    decreases |heads|
  {
    if heads != [] {
      assert heads[0] in heads;
      if heads[0].NeedsTag() {
        TagLoopSucceeds(Scope(s.m.(taskRef := heads[0].tag), Log(s.log, Tagged(s.m.vmid, heads[0].tag.id))), heads[1..]);
      } else {
        TagLoopSucceeds(s, heads[1..]);
      }
    }
  }

  // ---- what the stages do ------------------------------------------------------------------------

  /** The end of a stage that waits or hands over: the reason it is at, and nothing that stops progress. */
  predicate Left(s: Scope, t: Step) {
    t.verdict.Requeue? && t.s.m.vmid == s.m.vmid
    && t.s.m.retryAfter == s.m.retryAfter && t.s.m.provisioned == s.m.provisioned
  }

  lemma {:induction false} IPStageLeaves(s: Scope, o: Obs, claims: nat)
    requires s.m.reason.WaitingForStaticIPAllocation?
    requires o.net.present && o.net.devices && !o.net.poolsErr && ClaimsAre(o.net.claims, claims > 0)
    requires forall h :: h in o.net.heads && h.NeedsTag() ==> h.tag.TaskRef?
    ensures var t := IPStage(s, o);
            Left(s, t)
            && (if claims > 0 then t.s == s
                else t.s.m.reason.WaitingForBootstrapDataReconciliation? && t.s.m.ipAddresses
                     && t.s.log.Log? && t.s.log.e.IPsWritten?)
  {
    ClaimsOutcome(o.net.claims, false, claims > 0);
    TagLoopSucceeds(s, o.net.heads);
  }

  lemma {:induction false} BootLeaves(s: Scope, vm: VmView, o: Obs, claims: nat)
    requires s.m.reason.WaitingForBootstrapDataReconciliation?
    requires vm.hasMacs && (vm.power.Stopped? || vm.power.Paused? || vm.power.Hibernated?)
    requires o.net.present && !o.net.poolsErr && ClaimsAre(o.net.claims, claims > 0)
    requires o.bootstrap.Data? && o.bootstrap.deviceDataOk && o.bootstrap.vrfDataOk && o.bootstrap.injectOk
    requires o.start.TaskRef?
    ensures var t := LateStages(s, vm, o);
            Left(s, t) && t.s.m.reason.WaitingForVMPowerUp? && t.s.m.taskRef.TaskRef?
            && t.s.m.ipAddresses == s.m.ipAddresses && t.s.log.Log? && (t.s.log.e.Started? || t.s.log.e.Resumed?)
  {
    ClaimsOutcome(o.net.claims, false, claims > 0);
    assert AfterClaims(s, HandleDevices(o.net)) == s;
    var t5 := BootstrapStage(s, vm, o);
    assert t5 == InjectStage(s, o.bootstrap);
    PowerLeaves(t5.s, vm, o);
  }

  lemma {:induction false} PowerLeaves(s: Scope, vm: VmView, o: Obs)
    requires s.m.reason.WaitingForVMPowerUp? && o.start.TaskRef?
    requires vm.power.Stopped? || vm.power.Paused? || vm.power.Hibernated?
    ensures var t := PowerStage(s, vm, o);
            Left(s, t) && t.s.m.reason.WaitingForVMPowerUp? && t.s.m.taskRef.TaskRef?
            && t.s.m.ipAddresses == s.m.ipAddresses && StartedBy(s.log, t.s.log)
            && t.s.log.Log? && (t.s.log.e.Started? || t.s.log.e.Resumed?)
  {
    if vm.power.Paused? {
      LogGrows(s.log, Resumed(s.m.vmid, o.start.id));
    } else {
      LogGrows(s.log, Started(s.m.vmid, o.start.id));
    }
  }

  lemma LogGrows(l: Log, e: Event)
    ensures Log(l, e) != l
  {
    if l.Log? {
      LogGrows(l.before, l.e);
    }
  }

  /** The VM runs: addresses are published, and cloud-init decides. */
  lemma {:induction false} RunningLeaves(s: Scope, vm: VmView, o: Obs, cloudInit: nat)
    requires s.m.reason.WaitingForVMPowerUp? || s.m.reason.WaitingForCloudInit?
    requires vm.power.Running? && s.m.ipAddresses && o.agentOk && o.unmountOk
    requires if cloudInit > 0 then o.cloudInit.CloudInitRunning? else o.cloudInit.CloudInitDone?
    ensures var t := LateStages(s, vm, o);
            t.verdict.Ready?
            || (Left(s, t) && cloudInit > 0 && t.s.m.reason.WaitingForCloudInit? && t.s.m.ipAddresses
                && t.s.m.taskRef == s.m.taskRef)
  {
    assert BootstrapStage(s, vm, o) == Step(s, Continue);
    var t6 := PowerStage(s, vm, o);
    assert t6.verdict.Continue? && t6.s.m == s.m.(reason := t6.s.m.reason);
    var t7 := AddressStage(t6.s, vm);
    assert t7.verdict.Continue? && t7.s.m == s.m.(reason := WaitingForCloudInit, addresses := t7.s.m.addresses);
    var t8 := CloudInitStage(t7.s, o);
    assert t8.verdict.Continue? ==> t8.s.m.reason.WaitingForBootstrapReady?;
  }

  // ---- one reconcile -----------------------------------------------------------------------------

  /** `p` with its open task over. */
  function Unlocked(p: Phase): Phase {
    p.(s := Scope(p.s.m.(taskRef := NoTask), p.s.log))
  }

  /** From `p` (no open task) to `t`: Ready, or a lower stage, or the same stage still waiting. */
  predicate Moved(p: Phase, t: Step) {
    var p' := Phase(t.s, 0, 0, 0, p.started || StartedBy(p.s.log, t.s.log));
    t.verdict.Ready?
    || (OnPath(p')
        && (StageRank(p') < StageRank(p)
            || (StageRank(p') == StageRank(p) && t.s.m.taskRef.NoTask?
                && ((t.s.m.reason.WaitingForStaticIPAllocation? && p.claims > 0)
                    || (t.s.m.reason.WaitingForCloudInit? && p.cloudInit > 0)))))
  }

  lemma {:induction false} CreateMoves(p: Phase, o: Obs)
    requires OnPath(p) && Cooperative(p, o) && p.s.m.taskRef.NoTask? && p.s.m.vmid <= 0
    ensures Moved(p, EnsureStage(p.s, o)) && EnsureStage(p.s, o).verdict.Requeue?
  {
    var s1 := Initialised(p.s);
    assert s1 == Scope(p.s.m.(reason := Cloning), p.s.log);
    assert EnsureStage(p.s, o) == CreateStage(s1, o);
  }

  /** The lookup succeeds and only fixes the reason and the provider ID. */
  function Located(s: Scope, o: Obs): Scope
    requires o.vm.Vm?
  {
    Scope(Initialised(s).m.(providerID := PROVIDER_SCHEME + o.vm.view.uuid), s.log)
  }

  lemma {:induction false} EnsureFinds(p: Phase, o: Obs)
    requires OnPath(p) && Cooperative(p, o) && p.s.m.taskRef.NoTask? && p.s.m.vmid > 0
    ensures EnsureStage(p.s, o) == Step(Located(p.s, o), Continue)
    ensures var q := p.(s := Located(p.s, o));
            OnPath(q) && StageRank(q) == StageRank(p)
            && (AtStart(p.s.m.reason) ==> q.s.m.reason.Cloning?)
            && (!AtStart(p.s.m.reason) ==> q.s.m.reason == p.s.m.reason)
  {
    var s1 := Initialised(p.s);
    if AtStart(p.s.m.reason) {
      assert s1 == Scope(p.s.m.(reason := Cloning), p.s.log);
    } else {
      assert s1 == p.s;
    }
    assert FindVM(s1.m, o.vm) == FoundVM(o.vm.view);
  }

  /** The stages from the found VM on, phase by phase. */
  lemma {:induction false} ConfigMoves(p: Phase, vm: VmView, o: Obs)
    requires OnPath(p) && p.s.m.taskRef.NoTask? && p.s.m.vmid > 0 && p.s.m.reason.Cloning?
    requires !vm.power.Running? && o.config.ConfigureAccepted?
    ensures Moved(p, EarlyStages(p.s, vm, o))
  {
    assert RecoveryStage(p.s, vm, o) == Step(p.s, Continue);
    var t := ConfigStage(p.s, vm, o);
    assert EarlyStages(p.s, vm, o) == t;
  }

  lemma {:induction false} IPMoves(p: Phase, vm: VmView, o: Obs)
    requires OnPath(p) && p.s.m.taskRef.NoTask? && p.s.m.vmid > 0
    requires p.s.m.reason.WaitingForDiskReconciliation? || p.s.m.reason.WaitingForStaticIPAllocation?
    requires Cooperative(p, o) && vm == o.vm.view
    ensures Moved(p, EarlyStages(p.s, vm, o))
  {
    assert RecoveryStage(p.s, vm, o) == Step(p.s, Continue);
    assert ConfigStage(p.s, vm, o) == Step(p.s, Continue);
    DiskLeaves(p.s, vm, o);
    var t3 := DiskStage(p.s, vm, o);
    IPStageLeaves(t3.s, o, p.claims);
    assert EarlyStages(p.s, vm, o) == IPStage(t3.s, o);
  }

  lemma DiskLeaves(s: Scope, vm: VmView, o: Obs)
    requires s.m.reason.WaitingForDiskReconciliation? || s.m.reason.WaitingForStaticIPAllocation?
    requires !vm.power.Running? && !s.m.provisioned && !o.disks.ResizeError?
    ensures var t := DiskStage(s, vm, o);
            t.verdict.Continue? && t.s.m == s.m.(reason := WaitingForStaticIPAllocation)
            && (t.s.log == s.log || (t.s.log.Log? && t.s.log.e.Resized?))
  {
  }

  lemma {:induction false} LateMoves(p: Phase, vm: VmView, o: Obs)
    requires OnPath(p) && p.s.m.taskRef.NoTask? && p.s.m.vmid > 0
    requires !AtStart(p.s.m.reason)
    requires !p.s.m.reason.WaitingForDiskReconciliation? && !p.s.m.reason.WaitingForStaticIPAllocation?
    requires Cooperative(p, o) && vm == o.vm.view
    ensures Moved(p, EarlyStages(p.s, vm, o))
  {
    assert RecoveryStage(p.s, vm, o) == Step(p.s, Continue);
    assert EarlyStages(p.s, vm, o) == LateStages(p.s, vm, o);
    if p.started {
      RunningLeaves(p.s, vm, o, p.cloudInit);
    } else if p.s.m.reason.WaitingForBootstrapDataReconciliation? {
      BootLeaves(p.s, vm, o, p.claims);
    } else {
      assert BootstrapStage(p.s, vm, o) == Step(p.s, Continue);
      PowerLeaves(p.s, vm, o);
    }
  }

  lemma {:induction false} ActMoves(p: Phase, o: Obs)
    requires OnPath(p) && p.s.m.taskRef.NoTask? && Cooperative(p, o)
    ensures Moved(p, ReconcileVM(p.s, o))
  {
    assert TaskStage(p.s, o) == Step(p.s, Continue);
    if p.s.m.vmid <= 0 {
      CreateMoves(p, o);
    } else {
      EnsureFinds(p, o);
      var q := p.(s := Located(p.s, o));
      var vm := o.vm.view;
      assert Cooperative(q, o);
      if q.s.m.reason.Cloning? {
        ConfigMoves(q, vm, o);
      } else if q.s.m.reason.WaitingForDiskReconciliation? || q.s.m.reason.WaitingForStaticIPAllocation? {
        IPMoves(q, vm, o);
      } else {
        LateMoves(q, vm, o);
      }
      assert ReconcileVM(p.s, o) == EarlyStages(q.s, vm, o);
    }
  }

  /** The finalizer is not part of the phase. */
  lemma {:induction false} FinalizerAside(p: Phase, o: Obs)
    requires OnPath(p) && Cooperative(p, o)
    ensures var q := p.(s := Scope(p.s.m.(finalizer := true), p.s.log));
            OnPath(q) && Cooperative(q, o) && StageRank(q) == StageRank(p)
            && NormalStep(p.s, o) == MarkReady(ReconcileVM(q.s, o))
  {
  }

  lemma {:induction false} OpenTaskWaits(p: Phase, o: Obs)
    requires OnPath(p) && Cooperative(p, o) && p.s.m.taskRef.TaskRef?
    ensures p.polls > 0 ==> ReconcileVM(p.s, o) == Step(p.s, Requeue)
    ensures p.polls == 0 ==> ReconcileVM(p.s, o) == ReconcileVM(Unlocked(p).s, o)
                             && OnPath(Unlocked(p)) && Cooperative(Unlocked(p), o)
                             && StageRank(Unlocked(p)) == StageRank(p)
  {
    if p.polls == 0 {
      assert TaskStage(p.s, o) == Step(Unlocked(p).s, Continue);
      assert TaskStage(Unlocked(p).s, o) == Step(Unlocked(p).s, Continue);
    }
  }

  lemma RankFalls(p: Phase, q: Phase, t: Step, p': Phase, maxPolls: nat)
    requires Moved(q, t) && !t.verdict.Ready?
    requires q.s.log == p.s.log && q.started == p.started && q.claims == p.claims && q.cloudInit == p.cloudInit
    requires StageRank(q) == StageRank(p)
    requires p'.s == t.s && p'.started == (p.started || StartedBy(p.s.log, t.s.log)) && p'.polls <= maxPolls
    requires p'.claims <= p.claims && p'.cloudInit <= p.cloudInit
    requires t.s.m.reason.WaitingForStaticIPAllocation? && t.s.m.taskRef.NoTask? && p.claims > 0 ==> p'.claims < p.claims
    requires t.s.m.reason.WaitingForCloudInit? && t.s.m.taskRef.NoTask? && p.cloudInit > 0 ==> p'.cloudInit < p.cloudInit
    ensures OnPath(p') && Rank(p', maxPolls) < Rank(p, maxPolls)
  {
    var r, r', w := StageRank(p), StageRank(p'), maxPolls + 2;
    assert OnPath(p');
    if r' < r {
      ProductGap(r', r, w);
    }
  }

  lemma ProductGap(small: int, large: int, w: nat)
    requires small < large
    ensures small * w + w <= large * w
  {
    var more := large - small - 1;
    assert more * w >= 0;
    assert large == small + 1 + more;
    assert large * w == small * w + w + more * w;
  }

  /** Every cooperative reconcile reports Ready or lowers the rank. */
  lemma {:induction false} EveryStepAdvances(p: Phase, o: Obs, p': Phase, maxPolls: nat)
    requires OnPath(p) && p.polls <= maxPolls && GoodStep(p, o, p', maxPolls)
    ensures NormalStep(p.s, o).verdict.Ready?
            || (OnPath(p') && p'.polls <= maxPolls && Rank(p', maxPolls) < Rank(p, maxPolls))
  {
    FinalizerAside(p, o);
    var q := p.(s := Scope(p.s.m.(finalizer := true), p.s.log));
    var t := ReconcileVM(q.s, o);
    if p.s.m.taskRef.NoTask? {
      ActMoves(q, o);
      if !t.verdict.Ready? {
        RankFalls(p, q, t, p', maxPolls);
      }
    } else {
      OpenTaskWaits(q, o);
      if p.polls == 0 {
        ActMoves(Unlocked(q), o);
        if !t.verdict.Ready? {
          RankFalls(p, Unlocked(q), t, p', maxPolls);
        }
      } else {
        assert p'.s == q.s && !StartedBy(p.s.log, p'.s.log);
      }
    }
  }

  // ---- whole runs --------------------------------------------------------------------------------

  ghost predicate GoodRun(ps: seq<Phase>, os: seq<Obs>, maxPolls: nat) {
    |ps| == |os| + 1
    && (forall k :: 0 <= k < |ps| ==> ps[k].polls <= maxPolls)
    && forall k :: 0 <= k < |os| ==> GoodStep(ps[k], os[k], ps[k + 1], maxPolls)
  }

  lemma {:induction false} RankOverRun(ps: seq<Phase>, os: seq<Obs>, maxPolls: nat, k: nat)
    requires GoodRun(ps, os, maxPolls) && OnPath(ps[0]) && k <= |os|
    requires forall j :: 0 <= j < k ==> !NormalStep(ps[j].s, os[j]).verdict.Ready?
    ensures OnPath(ps[k]) && Rank(ps[k], maxPolls) + k <= Rank(ps[0], maxPolls)
  {
    if k > 0 {
      RankOverRun(ps, os, maxPolls, k - 1);
      assert GoodStep(ps[k - 1], os[k - 1], ps[k], maxPolls);
      EveryStepAdvances(ps[k - 1], os[k - 1], ps[k], maxPolls);
    }
  }

  // ---- and Ready then means started --------------------------------------------------------------

  /** On the path nothing falls through: the clone has something to configure, and is not running before it is started. */
  lemma PathDoesNotFallThrough(p: Phase, o: Obs)
    requires OnPath(p) && Cooperative(p, o)
    ensures !Readiness.EntersFallThrough(p.s, o)
  {
  }

  lemma ReadyWasStarted(p: Phase, o: Obs)
    requires OnPath(p) && Cooperative(p, o) && NormalStep(p.s, o).verdict.Ready?
    ensures p.started
  {
    PathDoesNotFallThrough(p, o);
    Readiness.FinalizerAside(p.s, o);
    Readiness.ReadyIff(Scope(p.s.m.(finalizer := true), p.s.log), o);
  }

  lemma {:induction false} PathKeepsOrder(ps: seq<Phase>, os: seq<Obs>, maxPolls: nat, k: nat)
    requires GoodRun(ps, os, maxPolls) && k <= |os| && StageOrder.Inv(ps[0].s, true)
    requires forall j :: 0 <= j < |os| ==> StageOrder.Supported(os[j])
    requires forall j :: 0 <= j < k ==> !NormalStep(ps[j].s, os[j]).verdict.Ready?
    ensures StageOrder.Inv(ps[k].s, true)
  {
    if k > 0 {
      PathKeepsOrder(ps, os, maxPolls, k - 1);
      assert GoodStep(ps[k - 1], os[k - 1], ps[k], maxPolls);
      StageOrder.NormalStepKeeps(ps[k - 1].s, os[k - 1], true);
    }
  }

  predicate ReportsReady(p: Phase, o: Obs) { NormalStep(p.s, o).verdict.Ready? }

  /** Reconcile k reports Ready of a started machine, whose VM is prepared if the run kept stage order. */
  ghost predicate Reached(ps: seq<Phase>, os: seq<Obs>, k: nat) {
    && k < |os| < |ps| && ReportsReady(ps[k], os[k]) && ps[k].started
    && (StageOrder.Inv(ps[0].s, true) && (forall j :: 0 <= j < |os| ==> StageOrder.Supported(os[j])) ==>
          StageOrder.Done(NormalStep(ps[k].s, os[k]).s))
  }

  lemma FirstReady(ps: seq<Phase>, os: seq<Obs>, maxPolls: nat, k: nat)
    requires GoodRun(ps, os, maxPolls) && OnPath(ps[0]) && k < |os|
    requires forall j :: 0 <= j < k ==> !ReportsReady(ps[j], os[j])
    requires ReportsReady(ps[k], os[k])
    ensures Reached(ps, os, k)
  {
    assert forall j :: 0 <= j < k ==> !ReportsReady(ps[j], os[j]) && !NormalStep(ps[j].s, os[j]).verdict.Ready?;
    RankOverRun(ps, os, maxPolls, k);
    assert GoodStep(ps[k], os[k], ps[k + 1], maxPolls);
    ReadyWasStarted(ps[k], os[k]);
    PathDoesNotFallThrough(ps[k], os[k]);
    if StageOrder.Inv(ps[0].s, true) && forall j :: 0 <= j < |os| ==> StageOrder.Supported(os[j]) {
      PathKeepsOrder(ps, os, maxPolls, k);
      Readiness.StepIsDoneIff(ps[k].s, os[k]);
    }
  }

  lemma NeverReadyIsShort(ps: seq<Phase>, os: seq<Obs>, maxPolls: nat)
    requires GoodRun(ps, os, maxPolls) && OnPath(ps[0])
    requires forall j :: 0 <= j < |os| ==> !ReportsReady(ps[j], os[j])
    ensures |os| <= Rank(ps[0], maxPolls)
  {
    assert forall j :: 0 <= j < |os| ==> !ReportsReady(ps[j], os[j]) && !NormalStep(ps[j].s, os[j]).verdict.Ready?;
    RankOverRun(ps, os, maxPolls, |os|);
  }

  /**
   * A fresh machine, or any on the path, is Ready within as many cooperative reconciles as its rank, plus
   * one; and then it was started, and with supported bootstrap formats its VM was prepared and then seen running.
   */
  lemma {:induction false} ReadyInBoundedSteps(ps: seq<Phase>, os: seq<Obs>, maxPolls: nat)
    requires GoodRun(ps, os, maxPolls) && OnPath(ps[0])
    requires |os| > Rank(ps[0], maxPolls)
    ensures exists k: nat :: Reached(ps, os, k)
  {
    var k := SomeReady(ps, os, maxPolls);
    FirstReady(ps, os, maxPolls, k);
  }

  lemma SomeReady(ps: seq<Phase>, os: seq<Obs>, maxPolls: nat) returns (k: nat)
    requires GoodRun(ps, os, maxPolls) && OnPath(ps[0]) && |os| > Rank(ps[0], maxPolls)
    ensures k < |os| && ReportsReady(ps[k], os[k]) && forall j :: 0 <= j < k ==> !ReportsReady(ps[j], os[j])
  {
    var reports := seq(|os|, j requires 0 <= j < |os| && |ps| == |os| + 1 => ReportsReady(ps[j], os[j]));
    k := FirstTrue(reports);
    forall j | 0 <= j < k ensures !ReportsReady(ps[j], os[j]) { assert !reports[j]; }
    if k == |os| {
      NeverReadyIsShort(ps, os, maxPolls);
    }
  }

  lemma FirstTrue(bs: seq<bool>) returns (k: nat)
    ensures k <= |bs| && (forall j :: 0 <= j < k ==> !bs[j]) && (k < |bs| ==> bs[k])
  {
    k := 0;
    while k < |bs| && !bs[k]
      invariant k <= |bs| && forall j :: 0 <= j < k ==> !bs[j]
    {
      k := k + 1;
    }
  }
}
