/** Which Proxmox endpoint a machine's calls go to, and the admission rules that keep it. */
module Zones {
  import opened Base
  import opened Ledger

  datatype SecretRef = NoRef | SecretRef(namespace: string, name: string)

  datatype SecretKey = SecretKey(namespace: string, name: string)

  /** Zone "" stands for a nil zone. */
  datatype ZoneConfig = ZoneConfig(zone: string, credentials: SecretRef)

  datatype Cluster = Cluster(namespace: string, zones: seq<ZoneConfig>,
                             controlPlane: seq<NodeLocation>, workers: seq<NodeLocation>)

  /** The cluster's client, a client built from the zone's own secret, or an error. */
  datatype Choice = ClusterClient | OwnCredentials(key: SecretKey) | NotConfigured

  function KeyOf(namespace: string, ref: SecretRef): SecretKey
    requires ref.SecretRef?
  {
    SecretKey(if ref.namespace == "" then namespace else ref.namespace, ref.name)
  }

  function ChoiceOf(namespace: string, ref: SecretRef): Choice {
    if ref.NoRef? then ClusterClient else OwnCredentials(KeyOf(namespace, ref))
  }

  predicate Configures(zones: seq<ZoneConfig>, zone: string) {
    exists i :: 0 <= i < |zones| && zones[i].zone == zone
  }

  /** What the zone's machines are served by: its first configuration decides. */
  function Resolve(c: Cluster, zone: string): Choice {
    if zone == "" then ClusterClient else ResolveIn(c.namespace, c.zones, zone)
  }

  function ResolveIn(namespace: string, zones: seq<ZoneConfig>, zone: string): Choice {
    if zones == [] then if zone == "default" then ClusterClient else NotConfigured
    else if zones[0].zone == zone then ChoiceOf(namespace, zones[0].credentials)
    else ResolveIn(namespace, zones[1..], zone)
  }

  /** Some recorded machine lives in the zone. */
  predicate Occupied(c: Cluster, zone: string) {
    || (exists i :: 0 <= i < |c.controlPlane| && c.controlPlane[i].zone == zone)
    || (exists i :: 0 <= i < |c.workers| && c.workers[i].zone == zone)
  }

  // ---- ClientForZone -----------------------------------------------------------------------------

  method ClientForZone(c: Cluster, zone: string) returns (choice: Choice)
    ensures choice == Resolve(c, zone)
  {
    if zone == "" {
      return ClusterClient;
    }
    for i := 0 to |c.zones|
      invariant ResolveIn(c.namespace, c.zones, zone) == ResolveIn(c.namespace, c.zones[i..], zone)
    {
      if c.zones[i].zone != zone {
        assert c.zones[i..][1..] == c.zones[i + 1..];
        continue;
      }
      if c.zones[i].credentials.NoRef? {
        return ClusterClient;
      }
      return OwnCredentials(KeyOf(c.namespace, c.zones[i].credentials));
    }
    if zone == "default" {
      return ClusterClient;
    }
    return NotConfigured;
  }

  lemma {:induction false} ResolveUnconfigured(namespace: string, zones: seq<ZoneConfig>, zone: string)
    requires !Configures(zones, zone)
    ensures ResolveIn(namespace, zones, zone) == if zone == "default" then ClusterClient else NotConfigured
  {
    if zones != [] {
      forall i | 0 <= i < |zones[1..]| ensures zones[1..][i].zone != zone {
        assert zones[1..][i] == zones[i + 1];
      }
      ResolveUnconfigured(namespace, zones[1..], zone);
    }
  }

  /** Zone names are the keys of the list. */
  predicate UniqueZones(zones: seq<ZoneConfig>) {
    forall i, j :: 0 <= i < j < |zones| ==> zones[i].zone != zones[j].zone
  }

  lemma {:induction false} ResolveUnique(namespace: string, zones: seq<ZoneConfig>, i: nat)
    requires UniqueZones(zones) && i < |zones|
    ensures ResolveIn(namespace, zones, zones[i].zone) == ChoiceOf(namespace, zones[i].credentials)
    decreases i
  {
    if i > 0 {
      ResolveUnique(namespace, zones[1..], i - 1);
    }
  }

  /** Whose credentials serve a configured zone, and who serves a machine whose zone is not configured. */
  lemma ServedBy(c: Cluster, i: nat, zone: string)
    requires UniqueZones(c.zones) && i < |c.zones|
    ensures c.zones[i].zone == "" || Resolve(c, c.zones[i].zone) ==
              match c.zones[i].credentials
              case NoRef => ClusterClient
              case SecretRef(namespace, name) =>
                if namespace != "" then OwnCredentials(SecretKey(namespace, name))
                else OwnCredentials(SecretKey(c.namespace, name))
    ensures zone != "" && !Configures(c.zones, zone) ==>
              Resolve(c, zone) == if zone == "default" then ClusterClient else NotConfigured
    ensures Resolve(c, "") == ClusterClient
  {
    ResolveUnique(c.namespace, c.zones, i);
    if !Configures(c.zones, zone) {
      ResolveUnconfigured(c.namespace, c.zones, zone);
    }
  }

  // ---- admission ---------------------------------------------------------------------------------

  predicate ValidCredentials(c: Cluster) {
    forall i :: 0 <= i < |c.zones| ==>
      c.zones[i].zone != "default" && (c.zones[i].credentials.SecretRef? ==> c.zones[i].credentials.name != "")
  }

  method ValidateZoneCredentials(c: Cluster) returns (accepted: bool)
    ensures accepted <==> ValidCredentials(c)
  {
    for i := 0 to |c.zones|
      invariant forall j :: 0 <= j < i ==>
        c.zones[j].zone != "default" && (c.zones[j].credentials.SecretRef? ==> c.zones[j].credentials.name != "")
    {
      if c.zones[i].zone == "default" {
        return false;
      }
      if c.zones[i].credentials.SecretRef? && c.zones[i].credentials.name == "" {
        return false;
      }
    }
    return true;
  }

  predicate NamedMachines(c: Cluster) {
    && (forall i :: 0 <= i < |c.controlPlane| ==> c.controlPlane[i].machine != "")
    && (forall i :: 0 <= i < |c.workers| ==> c.workers[i].machine != "")
  }

  /** The machine of the first entry in the zone, or "". */
  function FirstIn(s: seq<NodeLocation>, zone: string): (machine: string)
    ensures (forall i :: 0 <= i < |s| ==> s[i].machine != "") ==>
              (machine != "" <==> exists i :: 0 <= i < |s| && s[i].zone == zone)
  {
    if s == [] then ""
    else if s[0].zone == zone then s[0].machine
    else
      assert forall i :: 0 < i < |s| ==> s[i] == s[1..][i - 1];
      FirstIn(s[1..], zone)
  }

  /** The inner loop. */
  method FirstAmong(s: seq<NodeLocation>, zone: string) returns (found: bool, machine: string)
    ensures found <==> exists i :: 0 <= i < |s| && s[i].zone == zone
    ensures machine == FirstIn(s, zone)
  {
    for i := 0 to |s|
      invariant forall j :: 0 <= j < i ==> s[j].zone != zone
      invariant FirstIn(s, zone) == FirstIn(s[i..], zone)
    {
      if s[i].zone == zone {
        return true, s[i].machine;
      }
      assert s[i..][1..] == s[i + 1..];
    }
    return false, "";
  }

  method FirstMachineInZone(c: Cluster, zone: string) returns (machine: string)
    ensures machine == (if exists i :: 0 <= i < |c.controlPlane| && c.controlPlane[i].zone == zone
                        then FirstIn(c.controlPlane, zone) else FirstIn(c.workers, zone))
    ensures NamedMachines(c) ==> (machine != "" <==> Occupied(c, zone))
  {
    var found;
    found, machine := FirstAmong(c.controlPlane, zone);
    if found {
      return;
    }
    found, machine := FirstAmong(c.workers, zone);
  }

  /** The zone's last configuration, as a map filled in a loop keeps it. */
  function LastOf(namespace: string, zones: seq<ZoneConfig>, zone: string): Option<Choice> {
    if zones == [] then None
    else
      var last := zones[|zones| - 1];
      if last.zone == zone then Some(ChoiceOf(namespace, last.credentials))
      else LastOf(namespace, zones[..|zones| - 1], zone)
  }

  /** The new object still has the zone, with the same credentials. */
  predicate Keeps(c: Cluster, c': Cluster, i: nat)
    requires i < |c.zones|
  {
    LastOf(c'.namespace, c'.zones, c.zones[i].zone) == Some(ChoiceOf(c.namespace, c.zones[i].credentials))
  }

  predicate RemovalAllowed(c: Cluster, c': Cluster) {
    forall i :: 0 <= i < |c.zones| && Occupied(c', c.zones[i].zone) ==> Keeps(c, c', i)
  }

  method NewZones(c: Cluster) returns (zones: map<string, Choice>)
    ensures forall z :: LastOf(c.namespace, c.zones, z) == if z in zones then Some(zones[z]) else None
  {
    zones := map[];
    for i := 0 to |c.zones|
      invariant forall z :: LastOf(c.namespace, c.zones[..i], z) == if z in zones then Some(zones[z]) else None
    {
      assert c.zones[..i + 1][..i] == c.zones[..i];
      zones := zones[c.zones[i].zone := ChoiceOf(c.namespace, c.zones[i].credentials)];
    }
    assert c.zones[..|c.zones|] == c.zones;
  }

  /** An update is refused exactly if it drops or re-points a zone some recorded machine lives in. */
  method ValidateZoneRemoval(c: Cluster, c': Cluster) returns (accepted: bool)
    requires NamedMachines(c')
    ensures accepted <==> RemovalAllowed(c, c')
  {
    var newZones := NewZones(c');
    for i := 0 to |c.zones|
      invariant forall j :: 0 <= j < i && Occupied(c', c.zones[j].zone) ==> Keeps(c, c', j)
    {
      var zone := c.zones[i].zone;
      if zone in newZones && newZones[zone] == ChoiceOf(c.namespace, c.zones[i].credentials) {
        continue;
      }
      var machine := FirstMachineInZone(c', zone);
      if machine != "" {
        assert !Keeps(c, c', i);
        return false;
      }
    }
    return true;
  }

  lemma {:induction false} LastUnique(namespace: string, zones: seq<ZoneConfig>, zone: string)
    requires UniqueZones(zones)
    ensures LastOf(namespace, zones, zone) ==
              if Configures(zones, zone) then Some(ResolveIn(namespace, zones, zone)) else None
  {
    if zones != [] {
      var n := |zones| - 1;
      if zones[n].zone == zone {
        ResolveUnique(namespace, zones, n);
      } else {
        LastUnique(namespace, zones[..n], zone);
        if Configures(zones, zone) {
          var i :| 0 <= i < |zones| && zones[i].zone == zone;
          assert zones[..n][i].zone == zone;
          ResolveUnique(namespace, zones, i);
          ResolveUnique(namespace, zones[..n], i);
        }
      }
    }
  }

  /** With unique zone names the rule says what it is for: occupied zones keep their endpoint. */
  lemma RemovalAllowedIff(c: Cluster, c': Cluster)
    requires UniqueZones(c.zones) && UniqueZones(c'.zones) && c'.namespace == c.namespace
    ensures RemovalAllowed(c, c') <==>
            forall z :: Configures(c.zones, z) && Occupied(c', z) ==>
              Configures(c'.zones, z) && ResolveIn(c'.namespace, c'.zones, z) == ResolveIn(c.namespace, c.zones, z)
  {
    forall i | 0 <= i < |c.zones|
      ensures var z := c.zones[i].zone;
              && Configures(c.zones, z)
              && Keeps(c, c', i) == (Configures(c'.zones, z)
                                     && ResolveIn(c'.namespace, c'.zones, z) == ResolveIn(c.namespace, c.zones, z))
    {
      LastUnique(c'.namespace, c'.zones, c.zones[i].zone);
      ResolveUnique(c.namespace, c.zones, i);
    }
  }

  /**
   * Were names repeated, which the list's map key excludes, it would not: admission reads the last
   * configuration and routing the first, so a second one put in front re-routes an occupied zone.
   */
  lemma DuplicateZonesReroute(c: Cluster, i: nat, other: SecretRef)
    requires UniqueZones(c.zones) && i < |c.zones| && c.zones[i].zone != "" && Occupied(c, c.zones[i].zone)
    requires ChoiceOf(c.namespace, other) != ChoiceOf(c.namespace, c.zones[i].credentials)
    ensures var z := c.zones[i].zone; var c' := c.(zones := [ZoneConfig(z, other)] + c.zones);
            RemovalAllowed(c, c') && Occupied(c', z) && Resolve(c', z) != Resolve(c, z)
  {
    var front := ZoneConfig(c.zones[i].zone, other);
    var c' := c.(zones := [front] + c.zones);
    forall j | 0 <= j < |c.zones| ensures Keeps(c, c', j) {
      FrontIsNotLast(c.namespace, front, c.zones, c.zones[j].zone);
      LastUnique(c.namespace, c.zones, c.zones[j].zone);
      ResolveUnique(c.namespace, c.zones, j);
    }
    ResolveUnique(c.namespace, c.zones, i);
  }

  lemma {:induction false} FrontIsNotLast(namespace: string, front: ZoneConfig, zones: seq<ZoneConfig>, zone: string)
    requires Configures(zones, zone)
    ensures LastOf(namespace, [front] + zones, zone) == LastOf(namespace, zones, zone)
  {
    var n := |zones| - 1;
    assert ([front] + zones)[..|zones|] == [front] + zones[..n];
    if zones[n].zone != zone {
      var i :| 0 <= i < |zones| && zones[i].zone == zone;
      assert zones[..n][i].zone == zone;
      FrontIsNotLast(namespace, front, zones[..n], zone);
    }
  }

  // ---- runs --------------------------------------------------------------------------------------

  predicate Sound(c: Cluster) { UniqueZones(c.zones) && ValidCredentials(c) && NamedMachines(c) }

  /** A new spec is admitted; status is not part of the update. */
  predicate Updates(c: Cluster, c': Cluster) {
    c' == c.(zones := c'.zones) && UniqueZones(c'.zones) && ValidCredentials(c') && RemovalAllowed(c, c')
  }

  /** A controller edits the ledger; entries take only zones whose client it could resolve. */
  ghost predicate Records(c: Cluster, c': Cluster) {
    && c' == c.(controlPlane := c'.controlPlane, workers := c'.workers) && NamedMachines(c')
    && (forall z :: Occupied(c', z) ==> Occupied(c, z) || Resolve(c, z) != NotConfigured)
  }

  ghost predicate IsRun(cs: seq<Cluster>) {
    && cs != [] && Sound(cs[0]) && (forall z :: Occupied(cs[0], z) ==> Resolve(cs[0], z) != NotConfigured)
    && forall t :: 0 <= t < |cs| - 1 ==> Updates(cs[t], cs[t + 1]) || Records(cs[t], cs[t + 1])
  }

  lemma UpdateKeepsEndpoint(c: Cluster, c': Cluster, z: string)
    requires Sound(c) && Updates(c, c') && Occupied(c, z) && Resolve(c, z) != NotConfigured
    ensures Resolve(c', z) == Resolve(c, z)
  {
    if z != "" {
      RemovalAllowedIff(c, c');
      if !Configures(c.zones, z) {
        ResolveUnconfigured(c.namespace, c.zones, z);
        ResolveUnconfigured(c.namespace, c'.zones, z);
      }
    }
  }

  lemma {:induction false} OccupiedZonesResolve(cs: seq<Cluster>, t: nat, z: string)
    requires IsRun(cs) && t < |cs|
    ensures Sound(cs[t]) && (Occupied(cs[t], z) ==> Resolve(cs[t], z) != NotConfigured)
    decreases t
  {
    if t > 0 {
      OccupiedZonesResolve(cs, t - 1, z);
      if Updates(cs[t - 1], cs[t]) {
        if Occupied(cs[t - 1], z) {
          UpdateKeepsEndpoint(cs[t - 1], cs[t], z);
        }
      }
    }
  }

  /** While a machine stays recorded in a zone, that zone resolves to the endpoint it was recorded under. */
  lemma {:induction false} EndpointIsStable(cs: seq<Cluster>, first: nat, last: nat, z: string)
    requires IsRun(cs) && first <= last < |cs|
    requires forall t :: first <= t <= last ==> Occupied(cs[t], z)
    ensures Resolve(cs[last], z) == Resolve(cs[first], z) != NotConfigured
    decreases last
  {
    OccupiedZonesResolve(cs, last, z);
    if first < last {
      EndpointIsStable(cs, first, last - 1, z);
      OccupiedZonesResolve(cs, last - 1, z);
      if Updates(cs[last - 1], cs[last]) {
        UpdateKeepsEndpoint(cs[last - 1], cs[last], z);
      }
    }
  }

  lemma OccupiedAfter(s: seq<NodeLocation>, op: Op, i: nat)
    requires i < |Apply(s, op)|
    ensures var loc := Apply(s, op)[i];
            || (exists j :: 0 <= j < |s| && s[j].zone == loc.zone && s[j].machine == loc.machine)
            || (op.Add? && loc == op.loc)
            || (op.Update? && loc.zone == op.zone && loc.machine == op.name)
  {
    var s' := Apply(s, op);
    if op.Add? {
      assert i < |s| ==> s'[i] == s[i];
    } else if op.Remove? {
      assert HasMachine(s, op.name) ==> s'[i] == s[if i < Find(s, op.name) then i else i + 1];
    } else if HasMachine(s, op.name) {
      assert i != Find(s, op.name) ==> s'[i] == s[i];
    } else {
      assert i < |s| ==> s'[i] == s[i];
    }
  }

  function OpZone(op: Op): string { if op.Add? then op.loc.zone else if op.Update? then op.zone else "" }

  function OpMachine(op: Op): string { if op.Add? then op.loc.machine else op.name }

  /** The ledger's own edits are such records, when the machine's zone resolves. */
  lemma LedgerEditsRecord(c: Cluster, op: Op, isControlPlane: bool)
    requires NamedMachines(c) && Resolve(c, OpZone(op)) != NotConfigured && OpMachine(op) != ""
    ensures Records(c, if isControlPlane then c.(controlPlane := Apply(c.controlPlane, op))
                       else c.(workers := Apply(c.workers, op)))
  {
    var s := if isControlPlane then c.controlPlane else c.workers;
    forall i | 0 <= i < |Apply(s, op)|
      ensures Apply(s, op)[i].machine != ""
      ensures (exists j :: 0 <= j < |s| && s[j].zone == Apply(s, op)[i].zone) || Apply(s, op)[i].zone == OpZone(op)
    {
      OccupiedAfter(s, op, i);
    }
  }
}
