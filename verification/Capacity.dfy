/** What a node still offers, and that fresh numbers never let placements exceed it. */
module Capacity {
  import opened Base
  import opened Ledger
  import opened Scheduler

  /** A VM or a container as Proxmox lists it; containers are never templates. */
  datatype Guest = Guest(template: bool, memory: nat, cpus: nat)

  function Memory(guests: seq<Guest>): nat {
    if guests == [] then 0
    else
      var last := guests[|guests| - 1];
      Memory(guests[..|guests| - 1]) + if last.template then 0 else last.memory
  }

  function CPUs(guests: seq<Guest>): nat {
    if guests == [] then 0
    else
      var last := guests[|guests| - 1];
      CPUs(guests[..|guests| - 1]) + if last.template then 0 else last.cpus
  }

  // ---- the client's two loops --------------------------------------------------------------------

  lemma ScaledFloor(total: nat, adjustment: nat)
    ensures (total as real / 100.0 * adjustment as real).Floor == total * adjustment / 100
  {
    var q, r := total * adjustment / 100, total * adjustment % 100;
    assert (total as real / 100.0 * adjustment as real) * 100.0 == (total * adjustment) as real;
    assert (total * adjustment) as real == q as real * 100.0 + r as real;
  }

  method ReservableMemory(total: nat, adjustment: nat, vms: seq<Guest>, containers: seq<Guest>)
    returns (available: nat, allocatable: nat)
    requires forall i :: 0 <= i < |containers| ==> !containers[i].template
    ensures allocatable == if adjustment == 0 then total else total * adjustment / 100
    ensures available == if adjustment == 0 then total else Max(0, allocatable - Memory(vms + containers))
  {
    ScaledFloor(total, adjustment);
    if adjustment == 0 {
      return total, total;
    }
    allocatable := (total as real / 100.0 * adjustment as real).Floor;
    available := allocatable;
    for i := 0 to |vms|
      invariant available == Max(0, allocatable - Memory(vms[..i]))
    {
      assert vms[..i + 1][..i] == vms[..i];
      if vms[i].template {
        continue;
      }
      available := if available < vms[i].memory then 0 else available - vms[i].memory;
    }
    assert vms[..|vms|] == vms == vms + containers[..0];
    for i := 0 to |containers|
      invariant available == Max(0, allocatable - Memory(vms + containers[..i]))
    {
      assert (vms + containers[..i + 1])[..|vms| + i] == vms + containers[..i];
      available := if available < containers[i].memory then 0 else available - containers[i].memory;
    }
    assert containers[..|containers|] == containers;
  }

  method ReservableCPUs(total: nat, adjustment: nat, vms: seq<Guest>, containers: seq<Guest>)
    returns (available: int, allocatable: int)
    requires forall i :: 0 <= i < |containers| ==> !containers[i].template
    ensures allocatable == if adjustment == 0 then total * 100 else total * adjustment / 100
    ensures available == if adjustment == 0 then total * 100 else Max(0, allocatable - CPUs(vms + containers))
  {
    if adjustment == 0 {
      return total * 100, total * 100;
    }
    allocatable := total * adjustment / 100;
    available := allocatable;
    for i := 0 to |vms|
      invariant available == allocatable - CPUs(vms[..i])
    {
      assert vms[..i + 1][..i] == vms[..i];
      if vms[i].template {
        continue;
      }
      available := available - vms[i].cpus;
    }
    assert vms[..|vms|] == vms == vms + containers[..0];
    for i := 0 to |containers|
      invariant available == allocatable - CPUs(vms + containers[..i])
    {
      assert (vms + containers[..i + 1])[..|vms| + i] == vms + containers[..i];
      available := available - containers[i].cpus;
    }
    assert containers[..|containers|] == containers;
    if available < 0 {
      available := 0;
    }
  }

  // ---- the guests' order does not matter ---------------------------------------------------------

  lemma {:induction false} WithoutOne(guests: seq<Guest>, i: nat)
    requires i < |guests|
    ensures Memory(guests) == Memory(guests[..i] + guests[i + 1..]) + if guests[i].template then 0 else guests[i].memory
    ensures CPUs(guests) == CPUs(guests[..i] + guests[i + 1..]) + if guests[i].template then 0 else guests[i].cpus
    decreases |guests|
  {
    var n := |guests| - 1;
    if i == n {
      assert guests[..i] + guests[i + 1..] == guests[..n];
    } else {
      var rest := guests[..i] + guests[i + 1..];
      assert rest[..n - 1] == guests[..n][..i] + guests[..n][i + 1..];
      WithoutOne(guests[..n], i);
    }
  }

  lemma SameRest(guests: seq<Guest>, i: nat)
    requires i < |guests|
    ensures multiset(guests[..i] + guests[i + 1..]) == multiset(guests) - multiset{guests[i]}
  {
    assert guests == guests[..i] + [guests[i]] + guests[i + 1..];
  }

  /** Both sums depend on the guests only, whatever order the API lists them in. */
  lemma {:induction false} OrderIsIrrelevant(a: seq<Guest>, b: seq<Guest>)
    requires multiset(a) == multiset(b)
    ensures Memory(a) == Memory(b) && CPUs(a) == CPUs(b)
    decreases |a|
  {
    if a == [] {
      assert |multiset(b)| == 0;
    } else {
      var n := |a| - 1;
      assert a[n] in multiset(b);
      var i :| 0 <= i < |b| && b[i] == a[n];
      SameRest(a, n);
      SameRest(b, i);
      OrderIsIrrelevant(a[..n] + a[n + 1..], b[..i] + b[i + 1..]);
      WithoutOne(a, n);
      WithoutOne(b, i);
    }
  }

  // ---- runs of placements ------------------------------------------------------------------------

  datatype Host = Host(name: string, memory: nat, cpus: nat, guests: seq<Guest>)

  function AllocatableMemory(h: Host, hints: Hints): nat
    requires hints.memoryAdjustment >= 0
  {
    h.memory * hints.memoryAdjustment / 100
  }

  function AllocatableCPUs(h: Host, hints: Hints): nat
    requires hints.cpuAdjustment >= 0
  {
    h.cpus * hints.cpuAdjustment / 100
  }

  predicate Adjusted(hints: Hints) { hints.memoryAdjustment >= 0 && hints.cpuAdjustment >= 0 }

  /** The node's numbers as the client would report them right now. */
  function FreshInfo(h: Host, hints: Hints): NodeInfo
    requires Adjusted(hints)
  {
    var (memory, allocMemory) :=
      if hints.memoryAdjustment == 0 then (h.memory, h.memory)
      else (Max(0, AllocatableMemory(h, hints) - Memory(h.guests)), AllocatableMemory(h, hints));
    if hints.cpuAdjustment == 0 then NodeInfo(h.name, memory, allocMemory, 0, 0)
    else NodeInfo(h.name, memory, allocMemory,
                  Max(0, AllocatableCPUs(h, hints) - CPUs(h.guests)), AllocatableCPUs(h, hints))
  }

  function FreshInfos(fleet: seq<Host>, hints: Hints): seq<NodeInfo>
    requires Adjusted(hints)
  {
    seq(|fleet|, i requires 0 <= i < |fleet| => FreshInfo(fleet[i], hints))
  }

  /** The scheduler's two client calls about a node give these numbers. */
  method ReportNode(h: Host, vms: seq<Guest>, containers: seq<Guest>, hints: Hints) returns (info: NodeInfo)
    requires Adjusted(hints) && h.guests == vms + containers
    requires forall i :: 0 <= i < |containers| ==> !containers[i].template
    ensures info == FreshInfo(h, hints)
  {
    var memory, allocMemory := ReservableMemory(h.memory, hints.memoryAdjustment, vms, containers);
    var cpus, allocCPUs := 0, 0;
    if hints.cpuAdjustment > 0 {
      cpus, allocCPUs := ReservableCPUs(h.cpus, hints.cpuAdjustment, vms, containers);
    }
    info := NodeInfo(h.name, memory, allocMemory, cpus, allocCPUs);
  }

  /** The new VM gets exactly what was requested. */
  function Clone(request: Request): Guest
    requires request.cpus >= 0
  {
    Guest(false, request.memory, request.cpus)
  }

  /** One machine is placed with fresh numbers and cloned onto the chosen node. */
  ghost predicate Places(fleet: seq<Host>, fleet': seq<Host>, hints: Hints)
    requires Adjusted(hints)
  {
    exists k: nat, request: Request, locations: seq<NodeLocation>, nodeZone: map<string, string> ::
      && k < |fleet| && request.cpus >= 0
      && Problem(FreshInfos(fleet, hints), locations, nodeZone, request, hints).Best(k)
      && fleet' == fleet[k := fleet[k].(guests := fleet[k].guests + [Clone(request)])]
  }

  lemma CloneCounts(guests: seq<Guest>, request: Request)
    requires request.cpus >= 0
    ensures Memory(guests + [Clone(request)]) == Memory(guests) + request.memory
    ensures CPUs(guests + [Clone(request)]) == CPUs(guests) + request.cpus
  {
    assert (guests + [Clone(request)])[..|guests|] == guests;
  }

  /** No resource with an adjustment is past its allocatable amount, unless it was from the start. */
  predicate Within(h: Host, memoryBefore: nat, cpusBefore: nat, hints: Hints)
    requires Adjusted(hints)
  {
    && (hints.memoryAdjustment > 0 ==> Memory(h.guests) <= Max(AllocatableMemory(h, hints), memoryBefore))
    && (hints.cpuAdjustment > 0 ==> CPUs(h.guests) <= Max(AllocatableCPUs(h, hints), cpusBefore))
  }

  lemma PlacementStaysWithin(fleet: seq<Host>, fleet': seq<Host>, hints: Hints, i: nat, memory: nat, cpus: nat)
    requires Adjusted(hints) && Places(fleet, fleet', hints)
    requires i < |fleet| && Within(fleet[i], memory, cpus, hints)
    ensures |fleet'| == |fleet| && Within(fleet'[i], memory, cpus, hints)
  {
    var k: nat, request: Request, locations: seq<NodeLocation>, nodeZone: map<string, string> :|
      && k < |fleet| && request.cpus >= 0
      && Problem(FreshInfos(fleet, hints), locations, nodeZone, request, hints).Best(k)
      && fleet' == fleet[k := fleet[k].(guests := fleet[k].guests + [Clone(request)])];
    assert FitsOn(FreshInfo(fleet[k], hints), request, hints);
    CloneCounts(fleet[k].guests, request);
  }

  /** Over any run of placements no node is pushed past its allocatable memory or CPUs. */
  lemma {:induction false} NeverOvercommits(fleets: seq<seq<Host>>, hints: Hints, n: nat, i: nat)
    requires Adjusted(hints)
    requires n < |fleets| && i < |fleets[0]|
    requires forall t :: 0 <= t < |fleets| - 1 ==> Places(fleets[t], fleets[t + 1], hints)
    ensures |fleets[n]| == |fleets[0]|
    ensures Within(fleets[n][i], Memory(fleets[0][i].guests), CPUs(fleets[0][i].guests), hints)
    decreases n
  {
    if n > 0 {
      NeverOvercommits(fleets, hints, n - 1, i);
      PlacementStaysWithin(fleets[n - 1], fleets[n], hints, i, Memory(fleets[0][i].guests), CPUs(fleets[0][i].guests));
    }
  }

  /** A memory adjustment of 0 still leaves a hard fit, against the whole memory of the node. */
  lemma ZeroAdjustmentStillFits(h: Host, request: Request, hints: Hints)
    requires Adjusted(hints) && hints.memoryAdjustment == 0
    ensures HasMemory(FreshInfo(h, hints), request) <==> request.memory <= h.memory
    ensures FitsOn(FreshInfo(h, hints), request, hints) ==> request.memory <= h.memory
  {
  }
}
