/** What the scheduler keeps over bursts: repeatedly choosing a node and recording the placement. */
module Bursts {
  import opened Base
  import opened Ledger
  import opened Score
  import opened Scheduler
  import VmScheduler
  import Strings

  /** Problem q comes after p: the node chosen for p is recorded, the zones of nodes stay. */
  ghost predicate Follows(p: Problem, q: Problem) {
    && q.nodeZone == p.nodeZone
    && exists k: nat, loc: NodeLocation ::
         p.Best(k) && loc.node == p.nodes[k].name && q.locations == p.locations + [loc]
  }

  /** Availability, request, hints and even the node list may differ from step to step. */
  ghost predicate Burst(ps: seq<Problem>) {
    ps != [] && forall i :: 0 <= i < |ps| - 1 ==> Follows(ps[i], ps[i + 1])
  }

  lemma RecordCounts(locations: seq<NodeLocation>, loc: NodeLocation, node: string)
    ensures Placements(locations + [loc], node) == Placements(locations, node) + if loc.node == node then 1 else 0
  {
    assert (locations + [loc])[..|locations|] == locations;
  }

  lemma RecordCountsZone(locations: seq<NodeLocation>, loc: NodeLocation, nodeZone: map<string, string>, zone: string)
    ensures ZonePlacements(locations + [loc], nodeZone, zone) ==
              ZonePlacements(locations, nodeZone, zone)
              + if loc.node in nodeZone && nodeZone[loc.node] == zone then 1 else 0
  {
    assert (locations + [loc])[..|locations|] == locations;
  }

  /** Scheduling with the entries of the machine's zone, then recording it in the ledger, is such a step. */
  lemma SchedulingFollows(p: Problem, ledger: seq<NodeLocation>, zone: string, machine: string, node: string, q: Problem)
    requires p.locations == VmScheduler.InZone(ledger, zone) && Correct(p, Placed(node)) && !HasMachine(ledger, machine)
    requires q.nodeZone == p.nodeZone
    requires q.locations == VmScheduler.InZone(Added(ledger, NodeLocation(machine, node, zone)), zone)
    ensures Follows(p, q)
  {
    var k: nat :| p.Best(k) && p.nodes[k].name == node;
    var loc := NodeLocation(machine, node, zone);
    VmScheduler.RecordedInItsZone(ledger, loc, zone);
    assert q.locations == p.locations + [loc];
  }

  // ---- zones -------------------------------------------------------------------------------------

  /** Every one of the zones has a node that fits. Other nodes may be in other zones, or in none. */
  ghost predicate ZonesFit(p: Problem, zones: set<string>) {
    forall z :: z in zones ==> exists i :: 0 <= i < |p.nodes| && p.Fits(i) && p.Zone(i) == z
  }

  function InZoneCount(p: Problem, zone: string): nat { ZonePlacements(p.locations, p.nodeZone, zone) }

  /** The largest and the smallest count of machines per zone differ by at most d. */
  ghost predicate ZoneSpread(p: Problem, zones: set<string>, d: nat) {
    forall y, z :: y in zones && z in zones ==> InZoneCount(p, y) <= InZoneCount(p, z) + d
  }

  lemma ChosenZoneIsEmptiest(p: Problem, k: nat, zones: set<string>, z: string)
    requires ZonesFit(p, zones) && p.Best(k) && z in zones
    ensures InZoneCount(p, p.Zone(k)) <= InZoneCount(p, z)
  {
    var i :| 0 <= i < |p.nodes| && p.Fits(i) && p.Zone(i) == z;
    if p.Zone(k) != z {
      assert p.SpansZones();
      assert !Precedes(true, p.Candidate(i), p.Candidate(k));
    }
  }

  /** What one step does to a zone's count. */
  lemma StepCounts(p: Problem, q: Problem, zone: string) returns (k: nat)
    requires Follows(p, q)
    ensures p.Best(k)
    ensures InZoneCount(q, zone) ==
              InZoneCount(p, zone) + if p.nodes[k].name in p.nodeZone && p.Zone(k) == zone then 1 else 0
  {
    var loc: NodeLocation;
    k, loc :| p.Best(k) && loc.node == p.nodes[k].name && q.locations == p.locations + [loc];
    RecordCountsZone(p.locations, loc, p.nodeZone, zone);
  }

  lemma ZoneStep(p: Problem, q: Problem, zones: set<string>, d: nat)
    requires Follows(p, q) && ZonesFit(p, zones) && ZoneSpread(p, zones, d)
    ensures ZoneSpread(q, zones, Max(d, 1))
  {
    forall y, z | y in zones && z in zones ensures InZoneCount(q, y) <= InZoneCount(q, z) + Max(d, 1) {
      var k := StepCounts(p, q, y);
      var k' := StepCounts(p, q, z);
      BestIsUnique(p, k, k');
      ChosenZoneIsEmptiest(p, k, zones, z);
    }
  }

  /** Zones stay balanced over any burst: the spread never grows past 1 or past where it started. */
  lemma {:induction false} ZonesStayBalanced(ps: seq<Problem>, zones: set<string>, d: nat, n: nat)
    requires Burst(ps) && n < |ps| && ZoneSpread(ps[0], zones, d)
    requires forall i :: 0 <= i < n ==> ZonesFit(ps[i], zones)
    ensures ZoneSpread(ps[n], zones, Max(d, 1))
    decreases n
  {
    if n > 0 {
      ZonesStayBalanced(ps, zones, d, n - 1);
      ZoneStep(ps[n - 1], ps[n], zones, Max(d, 1));
    }
  }

  // ---- a zone without a node that fits -----------------------------------------------------------

  /** Every node that fits is in the zone. */
  ghost predicate OnlyFits(p: Problem, zone: string) {
    forall i :: 0 <= i < |p.nodes| && p.Fits(i) ==> p.nodes[i].name in p.nodeZone && p.Zone(i) == zone
  }

  /** The only zone with nodes that fit takes every machine, so the others fall behind without bound. */
  lemma {:induction false} OnlyFittingZoneTakesAll(ps: seq<Problem>, zone: string, other: string, n: nat)
    requires Burst(ps) && n < |ps| && other != zone && forall i :: 0 <= i < n ==> OnlyFits(ps[i], zone)
    ensures InZoneCount(ps[n], zone) == InZoneCount(ps[0], zone) + n
    ensures InZoneCount(ps[n], other) == InZoneCount(ps[0], other)
    decreases n
  {
    if n > 0 {
      OnlyFittingZoneTakesAll(ps, zone, other, n - 1);
      var k := StepCounts(ps[n - 1], ps[n], zone);
      var k' := StepCounts(ps[n - 1], ps[n], other);
    }
  }

  /** A full node in zone a, a roomy one in zone b, and i machines placed so far. */
  function Skewed(i: nat): Problem {
    Problem([NodeInfo("x", 0, 0, 0, 0), NodeInfo("y", 1, 1, 0, 0)],
            seq(i, j requires 0 <= j => NodeLocation(Strings.Decimal(j), "y", "")),
            map["x" := "a", "y" := "b"], Request(1, 0), Hints(100, 0, 0, 100))
  }

  lemma SkewedFollows(i: nat)
    ensures Follows(Skewed(i), Skewed(i + 1)) && OnlyFits(Skewed(i), "b")
  {
    var p, loc := Skewed(i), NodeLocation(Strings.Decimal(i), "y", "");
    assert !p.Fits(0) && p.Fits(1);
    assert p.Best(1);
    assert Skewed(i + 1).locations == p.locations + [loc];
  }

  lemma SkewedIsUnique(i: nat)
    ensures UniqueNames(Skewed(i).locations)
  {
    var s := Skewed(i).locations;
    forall j, k | 0 <= j < k < |s| ensures s[j].machine != s[k].machine {
      if s[j].machine == s[k].machine {
        Strings.DecimalInjective(j, k);
      }
    }
  }

  /** So the condition is needed: for every n there is a burst of distinct machines that ends with a spread of n. */
  lemma UnfitZoneBreaksBalance(n: nat)
    ensures exists ps: seq<Problem> :: Burst(ps) && |ps| == n + 1 && ZoneSpread(ps[0], {"a", "b"}, 0) && UniqueNames(ps[n].locations)
                         && InZoneCount(ps[n], "b") == InZoneCount(ps[n], "a") + n
  {
    var ps := seq(n + 1, i requires 0 <= i => Skewed(i));
    forall i | 0 <= i < n ensures Follows(ps[i], ps[i + 1]) && OnlyFits(ps[i], "b") {
      SkewedFollows(i);
    }
    SkewedIsUnique(n);
    assert ps[0].locations == [];
    OnlyFittingZoneTakesAll(ps, "b", "a", n);
  }

  // ---- nodes in no zone --------------------------------------------------------------------------

  /** Machines on nodes of no zone are counted for none. */
  lemma {:induction false} UnzonedCountsNothing(locations: seq<NodeLocation>, nodeZone: map<string, string>)
    requires "" !in nodeZone.Values
    ensures ZonePlacements(locations, nodeZone, "") == 0
  {
    if locations != [] {
      UnzonedCountsNothing(locations[..|locations| - 1], nodeZone);
    }
  }

  ghost predicate UnzonedFits(p: Problem) {
    exists u :: 0 <= u < |p.nodes| && p.Fits(u) && p.nodes[u].name !in p.nodeZone
  }

  /** While a node of no zone fits, a zone is chosen only if it is empty. */
  lemma ZonedChoiceIsEmpty(p: Problem, k: nat)
    requires "" !in p.nodeZone.Values && p.Best(k) && UnzonedFits(p)
    ensures p.nodes[k].name in p.nodeZone ==> p.Zone(k) in p.nodeZone.Values && InZoneCount(p, p.Zone(k)) == 0
  {
    var u :| 0 <= u < |p.nodes| && p.Fits(u) && p.nodes[u].name !in p.nodeZone;
    if p.nodes[k].name in p.nodeZone {
      assert p.Zone(k) in p.nodeZone.Values;
      assert p.SpansZones();
      UnzonedCountsNothing(p.locations, p.nodeZone);
      assert !Precedes(true, p.Candidate(u), p.Candidate(k));
    }
  }

  /** Over such a burst a zone that has a machine gains none, and an empty one gains at most one. */
  lemma {:induction false} ZonesStopFilling(ps: seq<Problem>, zone: string, n: nat)
    requires Burst(ps) && n < |ps| && "" !in ps[0].nodeZone.Values && forall i :: 0 <= i < n ==> UnzonedFits(ps[i])
    ensures ps[n].nodeZone == ps[0].nodeZone
    ensures InZoneCount(ps[0], zone) <= InZoneCount(ps[n], zone) <= Max(InZoneCount(ps[0], zone), 1)
    decreases n
  {
    if n > 0 {
      ZonesStopFilling(ps, zone, n - 1);
      assert Follows(ps[n - 1], ps[n]);
      var k := StepCounts(ps[n - 1], ps[n], zone);
      ZonedChoiceIsEmpty(ps[n - 1], k);
    }
  }

  function UnzonedPlacements(locations: seq<NodeLocation>, nodeZone: map<string, string>): nat {
    if locations == [] then 0
    else
      var last := |locations| - 1;
      UnzonedPlacements(locations[..last], nodeZone) + if locations[last].node in nodeZone then 0 else 1
  }

  function EmptyZones(p: Problem): set<string> {
    set z | z in p.nodeZone.Values && InZoneCount(p, z) == 0
  }

  lemma UnzonedStep(p: Problem, q: Problem)
    requires Follows(p, q) && "" !in p.nodeZone.Values && UnzonedFits(p)
    ensures UnzonedPlacements(q.locations, q.nodeZone) - |EmptyZones(q)|
            >= UnzonedPlacements(p.locations, p.nodeZone) - |EmptyZones(p)| + 1
  {
    var k: nat, loc: NodeLocation :| p.Best(k) && loc.node == p.nodes[k].name && q.locations == p.locations + [loc];
    assert q.locations[..|p.locations|] == p.locations;
    ZonedChoiceIsEmpty(p, k);
    forall z ensures InZoneCount(q, z) == InZoneCount(p, z) + if loc.node in p.nodeZone && p.Zone(k) == z then 1 else 0 {
      RecordCountsZone(p.locations, loc, p.nodeZone, z);
    }
    if loc.node in p.nodeZone {
      assert EmptyZones(q) == EmptyZones(p) - {p.Zone(k)};
    } else {
      assert EmptyZones(q) == EmptyZones(p);
    }
  }

  /** So all but as many machines as there were empty zones land on nodes of no zone. */
  lemma {:induction false} UnzonedTakesTheRest(ps: seq<Problem>, n: nat)
    requires Burst(ps) && n < |ps| && "" !in ps[0].nodeZone.Values && forall i :: 0 <= i < n ==> UnzonedFits(ps[i])
    ensures ps[n].nodeZone == ps[0].nodeZone
    ensures UnzonedPlacements(ps[n].locations, ps[n].nodeZone) + |EmptyZones(ps[0])|
            >= UnzonedPlacements(ps[0].locations, ps[0].nodeZone) + n + |EmptyZones(ps[n])|
    decreases n
  {
    if n > 0 {
      UnzonedTakesTheRest(ps, n - 1);
      assert Follows(ps[n - 1], ps[n]);
      UnzonedStep(ps[n - 1], ps[n]);
    }
  }

  // ---- nodes -------------------------------------------------------------------------------------

  /** The nodes report the same numbers and lie in one zone, or in none; weights are not negative. */
  ghost predicate Uniform(p: Problem, names: set<string>) {
    && names == (set i | 0 <= i < |p.nodes| :: p.nodes[i].name)
    && (forall i, j :: 0 <= i < |p.nodes| && 0 <= j < |p.nodes| ==> p.nodes[i].(name := "") == p.nodes[j].(name := ""))
    && (forall i, j :: 0 <= i < |p.nodes| && 0 <= j < |p.nodes| ==> p.Zone(i) == p.Zone(j))
    && p.hints.memoryTolerance <= 100 && p.hints.cpuTolerance <= 100 && p.request.cpus >= 0
  }

  /** Placement counts of any two of the nodes differ by at most d. */
  ghost predicate NodeSpread(p: Problem, names: set<string>, d: nat) {
    forall a, b :: a in names && b in names ==> Placements(p.locations, a) <= Placements(p.locations, b) + d
  }

  lemma ChargeGrows(reported: real, a: nat, b: nat, requested: int)
    requires a <= b && requested >= 0
    ensures Charge(reported, a, requested) <= Charge(reported, b, requested)
  {
    assert (b - a) * requested >= 0;
    assert b as real * requested as real - a as real * requested as real == ((b - a) * requested) as real;
  }

  lemma ChargedScoreIs(alloc: int, available: int, adjustment: int, pending: nat, requested: int, phys: real, used: real)
    requires adjustment > 0 && phys == alloc as real * 100.0 / adjustment as real
    requires used == Charge(alloc as real - available as real, pending, requested)
    ensures ChargedScore(alloc, available, adjustment, pending, requested) == ResourceScore(phys, alloc as real, used)
  {
  }

  lemma ChargedScoreFalls(alloc: int, available: int, adjustment: int, a: nat, b: nat, requested: int)
    requires a <= b && requested >= 0
    ensures ChargedScore(alloc, available, adjustment, a, requested)
            >= ChargedScore(alloc, available, adjustment, b, requested)
  {
    if adjustment > 0 {
      var phys, reported := alloc as real * 100.0 / adjustment as real, alloc as real - available as real;
      var used, more := Charge(reported, a, requested), Charge(reported, b, requested);
      ChargeGrows(reported, a, b, requested);
      ScoreFalls(phys, alloc as real, used, more);
      ChargedScoreIs(alloc, available, adjustment, a, requested, phys, used);
      ChargedScoreIs(alloc, available, adjustment, b, requested, phys, more);
    }
  }

  lemma WeightedFalls(tolerance: int, x: real, y: real)
    requires tolerance <= 100 && x >= y
    ensures Weighted(tolerance, x) >= Weighted(tolerance, y)
  {
    ScaleOrder(Weight(tolerance), x, y);
  }

  lemma ScaleOrder(w: real, x: real, y: real)
    requires w >= 0.0 && x >= y
    ensures w * x >= w * y
  {
  }

  lemma WeightedScoreFalls(tolerance: int, alloc: int, available: int, adjustment: int, a: nat, b: nat, requested: int)
    requires a <= b && requested >= 0 && tolerance <= 100
    ensures Weighted(tolerance, ChargedScore(alloc, available, adjustment, a, requested))
            >= Weighted(tolerance, ChargedScore(alloc, available, adjustment, b, requested))
  {
    ChargedScoreFalls(alloc, available, adjustment, a, b, requested);
    WeightedFalls(tolerance, ChargedScore(alloc, available, adjustment, a, requested),
                  ChargedScore(alloc, available, adjustment, b, requested));
  }

  /** More placements never raise a node's score, whatever is saturated or weighted zero. */
  lemma TotalScoreFalls(n: NodeInfo, a: nat, b: nat, request: Request, hints: Hints)
    requires a <= b && request.cpus >= 0 && hints.memoryTolerance <= 100 && hints.cpuTolerance <= 100
    ensures TotalScore(n, a, request, hints) >= TotalScore(n, b, request, hints)
  {
    WeightedScoreFalls(hints.memoryTolerance, n.allocatableMemory, n.availableMemory, hints.memoryAdjustment,
                       a, b, request.memory);
    WeightedScoreFalls(hints.cpuTolerance, n.allocatableCPUs, n.availableCPUs, hints.cpuAdjustment,
                       a, b, request.cpus);
  }

  lemma ScoreIgnoresName(n: NodeInfo, m: NodeInfo, pending: nat, request: Request, hints: Hints)
    requires n.(name := "") == m.(name := "")
    ensures TotalScore(n, pending, request, hints) == TotalScore(m, pending, request, hints)
  {
    assert n.allocatableMemory == m.allocatableMemory && n.availableMemory == m.availableMemory;
    assert n.allocatableCPUs == m.allocatableCPUs && n.availableCPUs == m.availableCPUs;
  }

  lemma ChosenNodeIsEmptiest(p: Problem, k: nat, names: set<string>, j: nat)
    requires Uniform(p, names) && p.Best(k) && j < |p.nodes|
    ensures Placements(p.locations, p.nodes[k].name) <= Placements(p.locations, p.nodes[j].name)
  {
    var a, b := Placements(p.locations, p.nodes[j].name), Placements(p.locations, p.nodes[k].name);
    assert p.nodes[j].(name := "") == p.nodes[k].(name := "");
    assert p.Fits(j) && !p.SpansZones();
    ScoreIgnoresName(p.nodes[j], p.nodes[k], a, p.request, p.hints);
    if a < b {
      TotalScoreFalls(p.nodes[k], a, b, p.request, p.hints);
    }
  }

  lemma NodeStep(p: Problem, q: Problem, names: set<string>, d: nat)
    requires Follows(p, q) && Uniform(p, names) && NodeSpread(p, names, d)
    ensures NodeSpread(q, names, Max(d, 1))
  {
    var k: nat, loc: NodeLocation :| p.Best(k) && loc.node == p.nodes[k].name && q.locations == p.locations + [loc];
    forall a, b | a in names && b in names
      ensures Placements(q.locations, a) <= Placements(q.locations, b) + Max(d, 1)
    {
      RecordCounts(p.locations, loc, a);
      RecordCounts(p.locations, loc, b);
      var j :| 0 <= j < |p.nodes| && p.nodes[j].name == b;
      ChosenNodeIsEmptiest(p, k, names, j);
    }
  }

  /** On identical nodes a burst spreads evenly, even where the score is saturated or switched off. */
  lemma {:induction false} NodesStaySpread(ps: seq<Problem>, names: set<string>, d: nat, n: nat)
    requires Burst(ps) && n < |ps| && NodeSpread(ps[0], names, d)
    requires forall i :: 0 <= i < n ==> Uniform(ps[i], names)
    ensures NodeSpread(ps[n], names, Max(d, 1))
    decreases n
  {
    if n > 0 {
      NodesStaySpread(ps, names, d, n - 1);
      NodeStep(ps[n - 1], ps[n], names, Max(d, 1));
    }
  }
}
