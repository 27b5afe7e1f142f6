/** Choosing the Proxmox node of a new VM. */
module Scheduler {
  import opened Ledger
  import opened Score

  datatype NodeInfo = NodeInfo(
    name: string, availableMemory: nat, allocatableMemory: nat, availableCPUs: int, allocatableCPUs: int)

  /** The resolved scheduler hints: percentages. */
  datatype Hints = Hints(memoryAdjustment: int, cpuAdjustment: int, memoryTolerance: int, cpuTolerance: int)

  /** Bytes of memory, and sockets times cores in 64 bits. */
  datatype Request = Request(memory: nat, cpus: int)

  datatype Scored = Scored(info: NodeInfo, score: real, pending: nat, zone: string, zoneVMs: nat)

  // ---- what the loops count ----------------------------------------------------------------------

  /** Machines placed on the node. */
  function Placements(locations: seq<NodeLocation>, node: string): nat {
    if locations == [] then 0
    else
      var last := |locations| - 1;
      Placements(locations[..last], node) + if locations[last].node == node then 1 else 0
  }

  /** Machines placed on a node of the zone, by the zone of the node and not of the entry. */
  function ZonePlacements(locations: seq<NodeLocation>, nodeZone: map<string, string>, zone: string): nat {
    if locations == [] then 0
    else
      var last := |locations| - 1;
      ZonePlacements(locations[..last], nodeZone, zone)
      + if locations[last].node in nodeZone && nodeZone[locations[last].node] == zone then 1 else 0
  }

  // ---- the choice --------------------------------------------------------------------------------

  function Weight(tolerance: int): real { (100 - tolerance) as real / 100.0 }

  /** What is in use, plus one request per placement, plus the new one. */
  function Charge(reported: real, pending: nat, requested: int): real {
    ReportedUsage(reported) + pending as real * requested as real + requested as real
  }

  /** One resource of one node, charged for its placements and for the new machine. */
  function ChargedScore(alloc: int, available: int, adjustment: int, pending: nat, requested: int): real {
    if adjustment > 0 then
      ResourceScore(alloc as real * 100.0 / adjustment as real, alloc as real,
                    Charge(alloc as real - available as real, pending, requested))
    else 0.0
  }

  function Weighted(tolerance: int, score: real): real { Weight(tolerance) * score }

  function TotalScore(n: NodeInfo, pending: nat, request: Request, hints: Hints): real {
    Weighted(hints.memoryTolerance,
             ChargedScore(n.allocatableMemory, n.availableMemory, hints.memoryAdjustment, pending, request.memory))
    + Weighted(hints.cpuTolerance,
               ChargedScore(n.allocatableCPUs, n.availableCPUs, hints.cpuAdjustment, pending, request.cpus))
  }

  predicate HasMemory(n: NodeInfo, request: Request) { request.memory <= n.availableMemory }

  /** The hard fit, against the availability as reported. */
  predicate FitsOn(n: NodeInfo, request: Request, hints: Hints) {
    HasMemory(n, request) && (hints.cpuAdjustment > 0 ==> request.cpus <= n.availableCPUs)
  }

  /** The comparator: emptier zone, higher score, more free memory, fewer placements. */
  predicate Precedes(balanceZones: bool, a: Scored, b: Scored) {
    if balanceZones && a.zoneVMs != b.zoneVMs then a.zoneVMs < b.zoneVMs
    else if a.score != b.score then a.score > b.score
    else if a.info.availableMemory != b.info.availableMemory then a.info.availableMemory > b.info.availableMemory
    else a.pending < b.pending
  }

  /**
   * What the keys promise of the winner `a` over `b`: no fuller a zone where zones are balanced, among equals no
   * lower a score, among equals no less memory, among equals no more placements.
   */
  predicate AtLeastAsGood(balanceZones: bool, a: Scored, b: Scored) {
    var sameZones := balanceZones ==> a.zoneVMs == b.zoneVMs;
    && (balanceZones ==> a.zoneVMs <= b.zoneVMs)
    && (sameZones ==> a.score >= b.score)
    && (sameZones && a.score == b.score ==> a.info.availableMemory >= b.info.availableMemory)
    && (sameZones && a.score == b.score && a.info.availableMemory == b.info.availableMemory ==> a.pending <= b.pending)
  }

  predicate Tie(balanceZones: bool, a: Scored, b: Scored) {
    (balanceZones ==> a.zoneVMs == b.zoneVMs) && a.score == b.score
    && a.info.availableMemory == b.info.availableMemory && a.pending == b.pending
  }

  datatype Problem = Problem(nodes: seq<NodeInfo>, locations: seq<NodeLocation>, nodeZone: map<string, string>,
                             request: Request, hints: Hints)
  {
    function Zone(i: nat): string
      requires i < |nodes|
    {
      if nodes[i].name in nodeZone then nodeZone[nodes[i].name] else ""
    }

    predicate Fits(i: nat)
      requires i < |nodes|
    {
      FitsOn(nodes[i], request, hints)
    }

    function Candidate(i: nat): Scored
      requires i < |nodes|
    {
      var pending := Placements(locations, nodes[i].name);
      Scored(nodes[i], TotalScore(nodes[i], pending, request, hints), pending,
             Zone(i), ZonePlacements(locations, nodeZone, Zone(i)))
    }

    /** Zones are balanced when the nodes that fit span more than one; no zone is one, too. */
    ghost predicate SpansZones() {
      exists i, j :: 0 <= i < |nodes| && 0 <= j < |nodes| && Fits(i) && Fits(j) && Zone(i) != Zone(j)
    }

    /** Node k fits, is at least as good as every node that fits, and comes first among its ties. */
    ghost predicate Best(k: nat) {
      && k < |nodes| && Fits(k)
      && forall j :: 0 <= j < |nodes| && Fits(j) ==>
           && AtLeastAsGood(SpansZones(), Candidate(k), Candidate(j))
           && (Tie(SpansZones(), Candidate(k), Candidate(j)) ==> k <= j)
    }
  }

  datatype Decision =
    | Placed(node: string)
    | ClientError
    | NoNodes
    | InsufficientMemory(node: string, available: int, requested: int)
    | InsufficientCPU(node: string, available: int, requested: int)

  ghost predicate Correct(p: Problem, d: Decision) {
    match d
    case Placed(node) => exists k: nat :: p.Best(k) && p.nodes[k].name == node
    case ClientError => false
    case NoNodes => p.nodes == []
    case InsufficientMemory(node, available, requested) =>
      && requested == p.request.memory
      && (forall i :: 0 <= i < |p.nodes| ==> !HasMemory(p.nodes[i], p.request))
      && exists k :: 0 <= k < |p.nodes| && MostMemory(p.nodes, k)
                     && p.nodes[k].name == node && p.nodes[k].availableMemory == available
    case InsufficientCPU(node, available, requested) =>
      && requested == p.request.cpus
      && (forall i :: 0 <= i < |p.nodes| ==> !p.Fits(i))
      && (exists i :: 0 <= i < |p.nodes| && HasMemory(p.nodes[i], p.request))
      && exists k :: 0 <= k < |p.nodes| && FirstMostCPUs(p.nodes, k)
                     && p.nodes[k].name == node && p.nodes[k].availableCPUs == available
  }

  predicate MostMemory(nodes: seq<NodeInfo>, k: nat)
    requires k < |nodes|
  {
    forall i :: 0 <= i < |nodes| ==> nodes[i].availableMemory <= nodes[k].availableMemory
  }

  predicate FirstMostCPUs(nodes: seq<NodeInfo>, k: nat)
    requires k < |nodes|
  {
    forall i :: 0 <= i < |nodes| ==>
      nodes[i].availableCPUs <= nodes[k].availableCPUs && (i < k ==> nodes[i].availableCPUs < nodes[k].availableCPUs)
  }

  // ---- the comparator is a strict weak order -----------------------------------------------------

  lemma PrecedesIsTransitive(z: bool, a: Scored, b: Scored, c: Scored)
    requires Precedes(z, a, b) && Precedes(z, b, c)
    ensures Precedes(z, a, c)
  {
  }

  lemma TiesAreTransitive(z: bool, a: Scored, b: Scored, c: Scored)
    requires !Precedes(z, b, a) && !Precedes(z, c, b)
    ensures !Precedes(z, c, a)
    ensures Precedes(z, a, b) || Precedes(z, b, c) ==> Precedes(z, a, c)
  {
  }

  /** What the comparator decides, key by key. */
  lemma PrecedesIff(z: bool, a: Scored, b: Scored)
    ensures !Precedes(z, b, a) <==> AtLeastAsGood(z, a, b)
    ensures Precedes(z, a, b) <==> AtLeastAsGood(z, a, b) && !Tie(z, a, b)
  {
  }

  predicate StableOrder(cs: seq<Scored>, z: bool, order: seq<nat>) {
    && |order| == |cs|
    && (forall a :: 0 <= a < |order| ==> order[a] < |cs|)
    && (forall i :: 0 <= i < |cs| ==> i in order)
    && (forall a, b :: 0 <= a < b < |order| ==>
          && !Precedes(z, cs[order[b]], cs[order[a]])
          && (!Precedes(z, cs[order[a]], cs[order[b]]) ==> order[a] < order[b]))
  }

  predicate IsFirst(cs: seq<Scored>, z: bool, k: nat) {
    && k < |cs|
    && forall j :: 0 <= j < |cs| ==> AtLeastAsGood(z, cs[k], cs[j]) && (Tie(z, cs[k], cs[j]) ==> k <= j)
  }

  /** However a stable sort arranges the candidates, its head is the first of the best. */
  lemma StableSortHead(cs: seq<Scored>, z: bool, order: seq<nat>, k: nat)
    requires StableOrder(cs, z, order) && cs != []
    ensures IsFirst(cs, z, k) <==> k == order[0]
  {
    var head := order[0];
    forall j | 0 <= j < |cs|
      ensures AtLeastAsGood(z, cs[head], cs[j]) && (Tie(z, cs[head], cs[j]) ==> head <= j)
    {
      assert j in order;
      var b :| 0 <= b < |order| && order[b] == j;
      PrecedesIff(z, cs[head], cs[j]);
    }
    assert IsFirst(cs, z, head);
    if IsFirst(cs, z, k) {
      assert AtLeastAsGood(z, cs[k], cs[head]) && AtLeastAsGood(z, cs[head], cs[k]);
      assert Tie(z, cs[k], cs[head]) && Tie(z, cs[head], cs[k]);
    }
  }

  // ---- what a correct decision says --------------------------------------------------------------

  /** The chosen node against any other that fits, in the terms of the inventory. */
  lemma ChosenAgainst(p: Problem, k: nat, j: nat)
    requires p.Best(k) && j < |p.nodes| && FitsOn(p.nodes[j], p.request, p.hints)
    ensures var a, b := p.nodes[k], p.nodes[j];
            var placedA, placedB := Placements(p.locations, a.name), Placements(p.locations, b.name);
            var scoreA, scoreB := TotalScore(a, placedA, p.request, p.hints), TotalScore(b, placedB, p.request, p.hints);
            var zoneA, zoneB := ZonePlacements(p.locations, p.nodeZone, p.Zone(k)),
                                ZonePlacements(p.locations, p.nodeZone, p.Zone(j));
            && FitsOn(a, p.request, p.hints)
            && (p.SpansZones() ==> zoneA <= zoneB)
            && (!p.SpansZones() || zoneA == zoneB ==>
                  && scoreA >= scoreB
                  && (scoreA == scoreB ==>
                        && a.availableMemory >= b.availableMemory
                        && (a.availableMemory == b.availableMemory ==>
                              placedA <= placedB && (placedA == placedB ==> k <= j))))
  {
    assert p.Fits(j);
  }

  // ---- what the score is -------------------------------------------------------------------------

  lemma SignOfProduct(a: real, b: real)
    requires 0.0 < b
    ensures 0.0 <= a <==> 0.0 <= a * b
  {
  }

  /** The size a node offers physically is no less than its allocatable one exactly if it is not overbooked. */
  lemma PhysicalSize(alloc: real, adjustment: real)
    requires 0.0 < alloc && 0.0 < adjustment
    ensures 0.0 < alloc * 100.0 / adjustment
    ensures alloc <= alloc * 100.0 / adjustment <==> adjustment <= 100.0
  {
    var phys := alloc * 100.0 / adjustment;
    assert (phys - alloc) * adjustment == alloc * (100.0 - adjustment);
    SignOfProduct(phys - alloc, adjustment);
    SignOfProduct(100.0 - adjustment, alloc);
  }

  /** What the use, the placements and the request leave of a resource. */
  function Free(alloc: int, available: int, pending: nat, requested: int): real {
    MinReal(available as real, alloc as real) - (pending + 1) as real * requested as real
  }

  /** Its share, squared; nothing if the resource is disabled or used up. */
  function SquaredShare(adjustment: int, free: real, alloc: int): real
    requires 0 < alloc
  {
    if adjustment == 0 || free < 0.0 then 0.0 else Square(free / alloc as real)
  }

  lemma ChargeIs(alloc: int, available: int, pending: nat, requested: int)
    ensures Charge(alloc as real - available as real, pending, requested)
            == alloc as real - Free(alloc, available, pending, requested)
  {
    assert (pending + 1) as real * requested as real == pending as real * requested as real + requested as real;
  }

  /** Without overbooking only the share that is left counts. */
  lemma PlainCurve(phys: real, alloc: real, free: real)
    requires 0.0 < alloc <= phys
    ensures ResourceScore(phys, alloc, alloc - free) == if free < 0.0 then 0.0 else Square(free / alloc)
  {
    CurveIs(phys, alloc, alloc - free);
    CurveIs(alloc, alloc, alloc - free);
  }

  /** One resource without overbooking. */
  lemma PlainScore(alloc: int, available: int, adjustment: int, pending: nat, requested: int)
    requires 0 <= adjustment <= 100 && 0 < alloc
    ensures ChargedScore(alloc, available, adjustment, pending, requested)
            == SquaredShare(adjustment, Free(alloc, available, pending, requested), alloc)
  {
    if adjustment > 0 {
      PhysicalSize(alloc as real, adjustment as real);
      ChargeIs(alloc, available, pending, requested);
      PlainCurve(alloc as real * 100.0 / adjustment as real, alloc as real, Free(alloc, available, pending, requested));
    }
  }

  /** Without overbooking the score is the weighted sum of the squared free shares. */
  lemma TotalScoreIs(n: NodeInfo, pending: nat, request: Request, hints: Hints)
    requires 0 <= hints.memoryAdjustment <= 100 && 0 <= hints.cpuAdjustment <= 100
    requires 0 < n.allocatableMemory && 0 < n.allocatableCPUs
    ensures var memory := Free(n.allocatableMemory, n.availableMemory, pending, request.memory);
            var cpus := Free(n.allocatableCPUs, n.availableCPUs, pending, request.cpus);
            TotalScore(n, pending, request, hints) ==
              Weighted(hints.memoryTolerance, SquaredShare(hints.memoryAdjustment, memory, n.allocatableMemory))
              + Weighted(hints.cpuTolerance, SquaredShare(hints.cpuAdjustment, cpus, n.allocatableCPUs))
  {
    PlainScore(n.allocatableMemory, n.availableMemory, hints.memoryAdjustment, pending, request.memory);
    PlainScore(n.allocatableCPUs, n.availableCPUs, hints.cpuAdjustment, pending, request.cpus);
  }

  /** Overbooked or not, the memory tolerance weighs the memory score and the CPU tolerance the CPU score. */
  lemma WeightedSum(n: NodeInfo, pending: nat, request: Request, hints: Hints)
    ensures TotalScore(n, pending, request, hints) ==
              (100 - hints.memoryTolerance) as real / 100.0
              * ChargedScore(n.allocatableMemory, n.availableMemory, hints.memoryAdjustment, pending, request.memory)
              + (100 - hints.cpuTolerance) as real / 100.0
                * ChargedScore(n.allocatableCPUs, n.availableCPUs, hints.cpuAdjustment, pending, request.cpus)
  {
  }

  /** Fully tolerated, a resource says nothing about the score, overbooked or not. */
  lemma ToleratedIsIgnored(n: NodeInfo, n': NodeInfo, pending: nat, request: Request, hints: Hints)
    ensures hints.memoryTolerance == 100 && n'.availableCPUs == n.availableCPUs && n'.allocatableCPUs == n.allocatableCPUs ==>
              TotalScore(n', pending, request, hints) == TotalScore(n, pending, request, hints)
    ensures hints.cpuTolerance == 100 && n'.availableMemory == n.availableMemory
            && n'.allocatableMemory == n.allocatableMemory ==>
              TotalScore(n', pending, request, hints) == TotalScore(n, pending, request, hints)
  {
  }

  lemma BestIsUnique(p: Problem, k: nat, k': nat)
    requires p.Best(k) && p.Best(k')
    ensures k == k'
  {
  }

  /** A node is chosen exactly when one fits; memory is blamed exactly when no node has it. */
  lemma DecisionFollowsFit(p: Problem, d: Decision)
    requires Correct(p, d) && p.nodes != []
    ensures d.Placed? <==> exists i :: 0 <= i < |p.nodes| && p.Fits(i)
    ensures d.InsufficientMemory? <==> forall i :: 0 <= i < |p.nodes| ==> !HasMemory(p.nodes[i], p.request)
    ensures d.InsufficientCPU? ==> p.hints.cpuAdjustment > 0
  {
    assert forall i :: 0 <= i < |p.nodes| && p.Fits(i) ==> HasMemory(p.nodes[i], p.request);
    if d.InsufficientCPU? {
      var i :| 0 <= i < |p.nodes| && HasMemory(p.nodes[i], p.request);
      assert !p.Fits(i);
    }
  }

  /** A request the inventory can hold never loses to a node that cannot hold it. */
  lemma PlacedNodeFits(p: Problem, node: string)
    requires Correct(p, Placed(node))
    ensures exists k :: 0 <= k < |p.nodes| && p.nodes[k].name == node && FitsOn(p.nodes[k], p.request, p.hints)
  {
    var k: nat :| p.Best(k) && p.nodes[k].name == node;
  }
}
