/** The scheduler's loops, proved to take the decision that Scheduler describes. */
module VmScheduler {
  import opened Base
  import opened Ledger
  import opened Scheduler

  // ---- zones of nodes and entries of a zone ------------------------------------------------------

  /** Zone "" stands for a nil zone. */
  datatype ZoneNodes = ZoneNodes(zone: string, nodes: seq<string>)

  predicate Lists(config: ZoneNodes, node: string) { config.zone != "" && node in config.nodes }

  /** The zone of the last configuration that names a zone and lists the node. */
  function LastZoneOf(configs: seq<ZoneNodes>, node: string): Option<string> {
    if configs == [] then None
    else
      var last := configs[|configs| - 1];
      if Lists(last, node) then Some(last.zone) else LastZoneOf(configs[..|configs| - 1], node)
  }

  method NodeToZone(configs: seq<ZoneNodes>, nodes: seq<string>) returns (zoneOf: map<string, string>)
    ensures forall node :: node in zoneOf <==> node in nodes && LastZoneOf(configs, node).Some?
    ensures forall node :: node in zoneOf ==> LastZoneOf(configs, node) == Some(zoneOf[node])
  {
    zoneOf := map[];
    for i := 0 to |configs|
      invariant forall node :: node in zoneOf <==> node in nodes && LastZoneOf(configs[..i], node).Some?
      invariant forall node :: node in zoneOf ==> LastZoneOf(configs[..i], node) == Some(zoneOf[node])
    {
      assert configs[..i + 1][..i] == configs[..i];
      if configs[i].zone != "" {
        zoneOf := AddZone(zoneOf, configs[i], nodes);
      }
    }
    assert configs[..|configs|] == configs;
  }

  /** The inner loop: the configuration's listed candidates take its zone. */
  method AddZone(before: map<string, string>, config: ZoneNodes, nodes: seq<string>)
    returns (zoneOf: map<string, string>)
    ensures forall node :: node in zoneOf <==> node in before || (node in nodes && node in config.nodes)
    ensures forall node :: node in zoneOf ==>
      zoneOf[node] == if node in nodes && node in config.nodes then config.zone else before[node]
  {
    zoneOf := before;
    for j := 0 to |config.nodes|
      invariant forall node :: node in zoneOf <==> node in before || (node in nodes && node in config.nodes[..j])
      invariant forall node :: node in zoneOf ==>
        zoneOf[node] == if node in nodes && node in config.nodes[..j] then config.zone else before[node]
    {
      if config.nodes[j] in nodes {
        zoneOf := zoneOf[config.nodes[j] := config.zone];
      }
    }
    assert config.nodes[..|config.nodes|] == config.nodes;
  }

  function InZone(locations: seq<NodeLocation>, zone: string): seq<NodeLocation> {
    if locations == [] then []
    else
      var last := |locations| - 1;
      InZone(locations[..last], zone) + if locations[last].zone == zone then [locations[last]] else []
  }

  method LocationsInZone(locations: seq<NodeLocation>, zone: string) returns (inZone: seq<NodeLocation>)
    ensures inZone == InZone(locations, zone)
  {
    inZone := [];
    for i := 0 to |locations|
      invariant inZone == InZone(locations[..i], zone)
    {
      assert locations[..i + 1][..i] == locations[..i];
      if locations[i].zone == zone {
        inZone := inZone + [locations[i]];
      }
    }
    assert locations[..|locations|] == locations;
  }

  /** Recording a machine adds it to the entries of its own zone only. */
  lemma RecordedInItsZone(locations: seq<NodeLocation>, loc: NodeLocation, zone: string)
    ensures InZone(locations + [loc], zone) == InZone(locations, zone) + if loc.zone == zone then [loc] else []
  {
    assert (locations + [loc])[..|locations|] == locations;
  }

  // ---- gathering ---------------------------------------------------------------------------------

  /** The client's answers about one node; a failed call has no usable numbers. */
  datatype Report = Report(
    name: string,
    memoryFails: bool, availableMemory: nat, allocatableMemory: nat,
    cpuFails: bool, availableCPUs: int, allocatableCPUs: int)

  predicate Unanswered(r: Report, hints: Hints) {
    r.memoryFails || (hints.cpuAdjustment > 0 && r.cpuFails)
  }

  /** CPU numbers are asked for, and used, only when CPU is enabled. */
  function Info(r: Report, hints: Hints): NodeInfo {
    if hints.cpuAdjustment > 0 then
      NodeInfo(r.name, r.availableMemory, r.allocatableMemory, r.availableCPUs, r.allocatableCPUs)
    else NodeInfo(r.name, r.availableMemory, r.allocatableMemory, 0, 0)
  }

  function Infos(reports: seq<Report>, hints: Hints): seq<NodeInfo> {
    seq(|reports|, i requires 0 <= i < |reports| => Info(reports[i], hints))
  }

  method GatherNodes(reports: seq<Report>, hints: Hints) returns (failed: bool, nodes: seq<NodeInfo>)
    ensures failed <==> exists i :: 0 <= i < |reports| && Unanswered(reports[i], hints)
    ensures !failed ==> nodes == Infos(reports, hints)
  {
    nodes := [];
    failed := false;
    for i := 0 to |reports|
      invariant |nodes| == i && forall j :: 0 <= j < i ==> nodes[j] == Info(reports[j], hints)
      invariant forall j :: 0 <= j < i ==> !Unanswered(reports[j], hints)
    {
      var r := reports[i];
      if r.memoryFails {
        assert Unanswered(r, hints);
        failed := true;
        return;
      }
      var info := NodeInfo(r.name, r.availableMemory, r.allocatableMemory, 0, 0);
      if hints.cpuAdjustment > 0 {
        if r.cpuFails {
          assert Unanswered(r, hints);
          failed := true;
          return;
        }
        info := info.(availableCPUs := r.availableCPUs, allocatableCPUs := r.allocatableCPUs);
      }
      nodes := nodes + [info];
    }
  }

  function At(m: map<string, nat>, key: string): nat { if key in m then m[key] else 0 }

  method CountPlacements(locations: seq<NodeLocation>) returns (count: map<string, nat>)
    ensures forall node :: At(count, node) == Placements(locations, node)
  {
    count := map[];
    for i := 0 to |locations|
      invariant forall node :: At(count, node) == Placements(locations[..i], node)
    {
      assert locations[..i + 1][..i] == locations[..i];
      count := count[locations[i].node := At(count, locations[i].node) + 1];
    }
    assert locations[..|locations|] == locations;
  }

  method CountZones(locations: seq<NodeLocation>, nodeZone: map<string, string>) returns (count: map<string, nat>)
    ensures forall zone :: At(count, zone) == ZonePlacements(locations, nodeZone, zone)
  {
    count := map[];
    for i := 0 to |locations|
      invariant forall zone :: At(count, zone) == ZonePlacements(locations[..i], nodeZone, zone)
    {
      assert locations[..i + 1][..i] == locations[..i];
      var node := locations[i].node;
      if node in nodeZone {
        count := count[nodeZone[node] := At(count, nodeZone[node]) + 1];
      }
    }
    assert locations[..|locations|] == locations;
  }

  // ---- candidates --------------------------------------------------------------------------------

  /** cs lists, in node order, the scored nodes that fit among the first n; at says where each stands. */
  ghost predicate Collected(p: Problem, n: nat, cs: seq<Scored>, at: seq<nat>)
    requires n <= |p.nodes|
  {
    && |at| == |cs|
    && (forall c :: 0 <= c < |cs| ==> at[c] < n && p.Fits(at[c]) && cs[c] == p.Candidate(at[c]))
    && (forall c, d :: 0 <= c < d < |at| ==> at[c] < at[d])
    && (forall i :: 0 <= i < n && p.Fits(i) ==> i in at)
  }

  method CollectCandidates(p: Problem) returns (cs: seq<Scored>, ghost at: seq<nat>)
    ensures Collected(p, |p.nodes|, cs, at)
  {
    var pendingCount := CountPlacements(p.locations);
    var zoneVMs := CountZones(p.locations, p.nodeZone);
    cs, at := [], [];
    for i := 0 to |p.nodes|
      invariant Collected(p, i, cs, at)
    {
      var n := p.nodes[i];
      if p.request.memory > n.availableMemory {
        continue;
      }
      if p.hints.cpuAdjustment > 0 && p.request.cpus > n.availableCPUs {
        continue;
      }
      var pending := At(pendingCount, n.name);
      var zone := if n.name in p.nodeZone then p.nodeZone[n.name] else "";
      var c := Scored(n, TotalScore(n, pending, p.request, p.hints), pending, zone, At(zoneVMs, zone));
      assert c == p.Candidate(i);
      cs, at := cs + [c], at + [i];
      assert at[|at| - 1] == i;
    }
  }

  method SpansZones(p: Problem, cs: seq<Scored>, ghost at: seq<nat>) returns (balanceZones: bool)
    requires Collected(p, |p.nodes|, cs, at)
    ensures balanceZones <==> p.SpansZones()
  {
    var zones := {};
    for i := 0 to |cs|
      invariant forall z :: z in zones <==> exists c :: 0 <= c < i && cs[c].zone == z
    {
      zones := zones + {cs[i].zone};
    }
    balanceZones := |zones| > 1;
    ZonesAmongCandidates(p, cs, at, zones);
  }

  lemma ZonesAmongCandidates(p: Problem, cs: seq<Scored>, at: seq<nat>, zones: set<string>)
    requires Collected(p, |p.nodes|, cs, at)
    requires forall z :: z in zones <==> exists c :: 0 <= c < |cs| && cs[c].zone == z
    ensures |zones| > 1 <==> p.SpansZones()
  {
    MoreThanOne(zones);
    if |zones| > 1 {
      var y, z :| y in zones && z in zones && y != z;
      var c :| 0 <= c < |cs| && cs[c].zone == y;
      var d :| 0 <= d < |cs| && cs[d].zone == z;
      assert p.Zone(at[c]) != p.Zone(at[d]);
    }
    forall i, j | 0 <= i < |p.nodes| && 0 <= j < |p.nodes| && p.Fits(i) && p.Fits(j)
      ensures p.Zone(i) in zones && p.Zone(j) in zones
    {
      var c :| 0 <= c < |at| && at[c] == i;
      var d :| 0 <= d < |at| && at[d] == j;
      assert cs[c].zone == p.Zone(i) && cs[d].zone == p.Zone(j);
    }
  }

  lemma MoreThanOne(s: set<string>)
    ensures |s| > 1 <==> exists y, z :: y in s && z in s && y != z
  {
    if s != {} {
      var y :| y in s;
      if s - {y} != {} {
        var z :| z in s - {y};
        assert |s - {y} - {z}| == |s| - 2;
      } else {
        assert s == {y};
      }
    }
  }

  /** The head of the stable sort; see StableSortHead. */
  method FirstCandidate(cs: seq<Scored>, balanceZones: bool) returns (k: nat)
    requires cs != []
    ensures IsFirst(cs, balanceZones, k)
  {
    k := 0;
    for i := 1 to |cs|
      invariant k < i
      invariant forall j :: 0 <= j < i ==>
        AtLeastAsGood(balanceZones, cs[k], cs[j]) && (Tie(balanceZones, cs[k], cs[j]) ==> k <= j)
    {
      PrecedesIff(balanceZones, cs[i], cs[k]);
      PrecedesIff(balanceZones, cs[k], cs[i]);
      if Precedes(balanceZones, cs[i], cs[k]) {
        forall j | 0 <= j < i ensures Precedes(balanceZones, cs[i], cs[j]) {
          PrecedesIff(balanceZones, cs[k], cs[j]);
          TiesAreTransitive(balanceZones, cs[i], cs[k], cs[j]);
          PrecedesIff(balanceZones, cs[i], cs[j]);
        }
        k := i;
      }
    }
  }

  lemma FirstCandidateIsBest(p: Problem, cs: seq<Scored>, at: seq<nat>, k: nat)
    requires Collected(p, |p.nodes|, cs, at) && IsFirst(cs, p.SpansZones(), k)
    ensures p.Best(at[k])
  {
    forall j | 0 <= j < |p.nodes| && p.Fits(j)
      ensures AtLeastAsGood(p.SpansZones(), p.Candidate(at[k]), p.Candidate(j))
      ensures Tie(p.SpansZones(), p.Candidate(at[k]), p.Candidate(j)) ==> at[k] <= j
    {
      var c :| 0 <= c < |at| && at[c] == j;
    }
  }

  // ---- the decision ------------------------------------------------------------------------------

  method BuildInsufficientError(p: Problem) returns (d: Decision)
    requires forall i :: 0 <= i < |p.nodes| ==> !p.Fits(i)
    ensures Correct(p, d) && !d.Placed?
  {
    if p.nodes == [] {
      return NoNodes;
    }
    var mem, cpu := 0, 0;
    for i := 1 to |p.nodes|
      invariant mem < i && cpu < i
      invariant MostMemory(p.nodes[..i], mem) && FirstMostCPUs(p.nodes[..i], cpu)
    {
      if p.nodes[i].availableMemory > p.nodes[mem].availableMemory {
        mem := i;
      }
      if p.nodes[i].availableCPUs > p.nodes[cpu].availableCPUs {
        cpu := i;
      }
    }
    assert p.nodes[..|p.nodes|] == p.nodes;
    if p.request.memory > p.nodes[mem].availableMemory {
      d := InsufficientMemory(p.nodes[mem].name, p.nodes[mem].availableMemory, p.request.memory);
    } else {
      assert HasMemory(p.nodes[mem], p.request);
      d := InsufficientCPU(p.nodes[cpu].name, p.nodes[cpu].availableCPUs, p.request.cpus);
    }
  }

  method SelectNode(reports: seq<Report>, locations: seq<NodeLocation>, nodeZone: map<string, string>,
                    request: Request, hints: Hints) returns (d: Decision)
    ensures d == ClientError <==> exists i :: 0 <= i < |reports| && Unanswered(reports[i], hints)
    ensures d != ClientError ==> Correct(Problem(Infos(reports, hints), locations, nodeZone, request, hints), d)
  {
    var failed, nodes := GatherNodes(reports, hints);
    if failed {
      return ClientError;
    }
    var p := Problem(nodes, locations, nodeZone, request, hints);
    var cs, at := CollectCandidates(p);
    if cs == [] {
      d := BuildInsufficientError(p);
      return;
    }
    var balanceZones := SpansZones(p, cs, at);
    var k := FirstCandidate(cs, balanceZones);
    FirstCandidateIsBest(p, cs, at, k);
    d := Placed(cs[k].info.name);
  }

  /** ScheduleVM: the entries of the machine's zone, the zones of the allowed nodes, then the choice. */
  method ScheduleVM(reports: seq<Report>, locations: seq<NodeLocation>, zone: string, configs: seq<ZoneNodes>,
                    request: Request, hints: Hints) returns (d: Decision, ghost nodeZone: map<string, string>)
    ensures forall i :: 0 <= i < |reports| ==>
      LastZoneOf(configs, reports[i].name) ==
      if reports[i].name in nodeZone then Some(nodeZone[reports[i].name]) else None
    ensures d == ClientError <==> exists i :: 0 <= i < |reports| && Unanswered(reports[i], hints)
    ensures d != ClientError ==>
      Correct(Problem(Infos(reports, hints), InZone(locations, zone), nodeZone, request, hints), d)
  {
    var inZone := LocationsInZone(locations, zone);
    var names := seq(|reports|, i requires 0 <= i < |reports| => reports[i].name);
    assert forall i :: 0 <= i < |reports| ==> names[i] == reports[i].name;
    var zoneOf := NodeToZone(configs, names);
    nodeZone := zoneOf;
    d := SelectNode(reports, inZone, zoneOf, request, hints);
  }
}
