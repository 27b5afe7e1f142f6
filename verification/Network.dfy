/** The network configuration: the routes it means, and what Validate accepts. */
module Network {
  import opened Base
  import opened Strings

  /** A netip.Prefix: the zero one, or a valid one known by its canonical text. */
  datatype Prefix = Invalid | Prefix(text: string)
  {
    predicate Is6() { Prefix? && ':' in text }

    /** Zero bits of the unspecified address. */
    predicate IsDefault() { Prefix? && (text == "0.0.0.0/0" || text == "::/0") }
  }

  datatype Route = Route(to: Prefix, table: Option<int>, metric: Option<int>)

  datatype Rule = Rule(to: Prefix, from: Prefix, table: Option<int>)

  datatype Device = Device(name: string, isVrf: bool, children: seq<string>, table: Option<int>, vrf: string,
                           routes: seq<Route>, rules: seq<Rule>, dhcp4: bool, dhcp6: bool)

  const MAIN_TABLE := 254

  // ---- meaning -----------------------------------------------------------------------------------

  /** The last VRF among the first n devices that has the name as a child. */
  function VrfOf(devices: seq<Device>, n: nat, name: string): Option<nat>
    requires n <= |devices|
  {
    if n == 0 then None
    else if devices[n - 1].isVrf && name in devices[n - 1].children then Some(n - 1)
    else VrfOf(devices, n - 1, name)
  }

  lemma {:induction false} VrfOfIsVrf(devices: seq<Device>, n: nat, name: string)
    requires n <= |devices|
    ensures var v := VrfOf(devices, n, name); v.Some? ==> v.value < n && devices[v.value].isVrf && name in devices[v.value].children
  {
    if n > 0 {
      VrfOfIsVrf(devices, n - 1, name);
    }
  }

  function VrfTable(devices: seq<Device>, v: Option<nat>): Option<int> {
    if v.Some? && v.value < |devices| then devices[v.value].table else None
  }

  /** A VRF's own table, or that of the VRF a device is a member of. */
  function DeviceTable(devices: seq<Device>, k: nat): Option<int>
    requires k < |devices|
  {
    if devices[k].isVrf then devices[k].table
    else VrfTable(devices, VrfOf(devices, |devices|, devices[k].name))
  }

  function EffectiveTable(devices: seq<Device>, k: nat, route: Route): int
    requires k < |devices|
  {
    route.table.Or(DeviceTable(devices, k).Or(MAIN_TABLE))
  }

  /** What identifies a route to the kernel. */
  datatype RouteKey = RouteKey(table: int, to: Prefix, metric: int)

  function KeyOf(route: Route, deviceTable: Option<int>): RouteKey {
    RouteKey(route.table.Or(deviceTable.Or(MAIN_TABLE)), route.to, route.metric.Or(0))
  }

  function RouteKeys(routes: seq<Route>, deviceTable: Option<int>): seq<RouteKey> {
    seq(|routes|, j requires 0 <= j < |routes| => KeyOf(routes[j], deviceTable))
  }

  /** The keys of every route of the first n devices, in order. */
  function Keys(devices: seq<Device>, n: nat): seq<RouteKey>
    requires n <= |devices|
  {
    if n == 0 then [] else Keys(devices, n - 1) + RouteKeys(devices[n - 1].routes, DeviceTable(devices, n - 1))
  }

  predicate RuleOk(rule: Rule, isVrf: bool) {
    && (rule.to.Prefix? || rule.from.Prefix?)
    && (rule.table.Or(0) != 0 || isVrf)
    && (rule.to.Prefix? && rule.from.Prefix? ==> rule.to.Is6() == rule.from.Is6())
  }

  predicate RoutesValid(routes: seq<Route>) { forall j :: 0 <= j < |routes| ==> routes[j].to.Prefix? }

  predicate RulesValid(rules: seq<Rule>, isVrf: bool) { forall j :: 0 <= j < |rules| ==> RuleOk(rules[j], isVrf) }

  predicate HasDefault(routes: seq<Route>) { exists j :: 0 <= j < |routes| && routes[j].to.IsDefault() }

  predicate GivesGateway(d: Device) { d.dhcp4 || d.dhcp6 || HasDefault(d.routes) }

  predicate Acceptable(devices: seq<Device>) {
    && devices != []
    && (forall k :: 0 <= k < |devices| ==> RoutesValid(devices[k].routes) && RulesValid(devices[k].rules, devices[k].isVrf))
    && Distinct(Keys(devices, |devices|))
    && (exists k :: 0 <= k < |devices| && GivesGateway(devices[k]))
  }

  // ---- families, gateways and the main table -----------------------------------------------------

  /** A rule from one address family to the other makes the whole configuration unacceptable. */
  lemma MixedFamiliesRefused(devices: seq<Device>, k: nat, j: nat)
    requires k < |devices| && j < |devices[k].rules|
    requires devices[k].rules[j].to.Prefix? && devices[k].rules[j].from.Prefix?
    requires ':' in devices[k].rules[j].to.text <==> ':' !in devices[k].rules[j].from.text
    ensures !Acceptable(devices)
  {
    assert !RuleOk(devices[k].rules[j], devices[k].isVrf);
  }

  /** A gateway comes from DHCP or a route to everything, of either family. */
  lemma GatewayIff(d: Device)
    ensures GivesGateway(d) <==>
            d.dhcp4 || d.dhcp6
            || exists j :: 0 <= j < |d.routes| && (d.routes[j].to == Prefix("0.0.0.0/0") || d.routes[j].to == Prefix("::/0"))
  {
  }

  lemma {:induction false} DistinctParts(devices: seq<Device>, n: nat, k: nat)
    requires k < n <= |devices| && Distinct(Keys(devices, n))
    ensures Distinct(RouteKeys(devices[k].routes, DeviceTable(devices, k)))
  {
    var before, last := Keys(devices, n - 1), RouteKeys(devices[n - 1].routes, DeviceTable(devices, n - 1));
    assert Keys(devices, n) == before + last;
    assert forall i :: 0 <= i < |before| ==> (before + last)[i] == before[i];
    assert forall i :: 0 <= i < |last| ==> (before + last)[|before| + i] == last[i];
    if k < n - 1 {
      DistinctParts(devices, n - 1, k);
    }
  }

  /** Outside VRFs a route without a table is one of table 254, and one without a metric has metric 0. */
  lemma MainTableCollides(devices: seq<Device>, k: nat, i: nat, j: nat)
    requires k < |devices| && i < j < |devices[k].routes|
    requires devices[k].routes[i].to == devices[k].routes[j].to
    requires DeviceTable(devices, k).None?
    requires devices[k].routes[i].table.None? && devices[k].routes[j].table == Some(254)
    requires devices[k].routes[i].metric.None? && devices[k].routes[j].metric == Some(0)
    ensures !Acceptable(devices)
  {
    var keys := RouteKeys(devices[k].routes, DeviceTable(devices, k));
    assert keys[i] == keys[j];
    if Distinct(Keys(devices, |devices|)) {
      DistinctParts(devices, |devices|, k);
    }
  }

  // ---- the string that identifies a route --------------------------------------------------------

  /** `%d %s %d` */
  function RouteID(key: RouteKey): string
    requires key.to.Prefix?
  {
    Decimal(key.table) + [' '] + TargetID(key)
  }

  function TargetID(key: RouteKey): string
    requires key.to.Prefix?
  {
    key.to.text + [' '] + Decimal(key.metric)
  }

  lemma {:induction false} DecimalHasNoBlank(n: int)
    ensures ' ' !in Decimal(n)
    decreases if n < 0 then 1 - n else n
  {
    if n < 0 {
      DecimalHasNoBlank(-n);
    } else if n >= 10 {
      DecimalHasNoBlank(n / 10);
    }
  }

  lemma RouteIDSplits(key: RouteKey)
    requires key.to.Prefix? && ' ' !in key.to.text
    ensures Split(RouteID(key), ' ') == [Decimal(key.table), key.to.text, Decimal(key.metric)]
  {
    DecimalHasNoBlank(key.table);
    DecimalHasNoBlank(key.metric);
    SplitAt(Decimal(key.table), TargetID(key), ' ');
    SplitAt(key.to.text, Decimal(key.metric), ' ');
    SplitAt(Decimal(key.metric), "", ' ');
    assert Split(TargetID(key), ' ') == [key.to.text] + [Decimal(key.metric)];
  }

  /** Colliding strings are colliding routes. */
  lemma RouteIDInjective(a: RouteKey, b: RouteKey)
    requires a.to.Prefix? && b.to.Prefix? && ' ' !in a.to.text && ' ' !in b.to.text
    ensures RouteID(a) == RouteID(b) <==> a == b
  {
    if RouteID(a) == RouteID(b) {
      RouteIDSplits(a);
      RouteIDSplits(b);
      var s, t := Split(RouteID(a), ' '), Split(RouteID(b), ' ');
      assert s[0] == t[0] && s[1] == t[1] && s[2] == t[2];
      DecimalInjective(a.table, b.table);
      DecimalInjective(a.metric, b.metric);
    }
  }

  // ---- Validate ----------------------------------------------------------------------------------

  datatype Verdict = Accepted | MissingNetworkConfigData | MalformedRoute | ConflictingMetrics
                   | MalformedFIBRule | MissingGateway

  /** Prefix texts have no blanks in them. */
  predicate Textual(routes: seq<Route>) {
    forall j :: 0 <= j < |routes| && routes[j].to.Prefix? ==> ' ' !in routes[j].to.text
  }

  /** The collision map holds exactly the identifiers of the keys, and no two keys collide. */
  ghost predicate Holds(seen: set<string>, keys: seq<RouteKey>) {
    && Distinct(keys)
    && (forall i :: 0 <= i < |keys| ==> keys[i].to.Prefix? && ' ' !in keys[i].to.text && RouteID(keys[i]) in seen)
    && (forall id :: id in seen ==> exists i :: 0 <= i < |keys| && keys[i].to.Prefix? && RouteID(keys[i]) == id)
  }

  lemma SeenMeansCollision(seen: set<string>, keys: seq<RouteKey>, key: RouteKey)
    requires Holds(seen, keys) && key.to.Prefix? && ' ' !in key.to.text
    ensures RouteID(key) in seen <==> key in keys
    ensures key !in keys ==> Holds(seen + {RouteID(key)}, keys + [key])
  {
    forall i | 0 <= i < |keys| ensures RouteID(keys[i]) == RouteID(key) <==> keys[i] == key {
      RouteIDInjective(keys[i], key);
    }
    var keys' := keys + [key];
    assert keys'[|keys|] == key;
    forall id | id in seen + {RouteID(key)}
      ensures exists i :: 0 <= i < |keys'| && keys'[i].to.Prefix? && RouteID(keys'[i]) == id
    {
      if id in seen {
        var i :| 0 <= i < |keys| && keys[i].to.Prefix? && RouteID(keys[i]) == id;
        assert keys'[i] == keys[i];
      }
    }
  }

  lemma RepeatedKey(keys: seq<RouteKey>, more: seq<RouteKey>, j: nat)
    requires j < |more| && more[j] in keys + more[..j]
    ensures !Distinct(keys + more)
  {
    var i :| 0 <= i < |keys| + j && (keys + more[..j])[i] == more[j];
    assert (keys + more)[i] == (keys + more)[|keys| + j];
  }

  /** The body of the loop over a device's routes. */
  method CheckRoute(route: Route, deviceTable: Option<int>, seen: set<string>, ghost keys: seq<RouteKey>)
    returns (v: Verdict, seen': set<string>)
    requires Holds(seen, keys) && (route.to.Prefix? ==> ' ' !in route.to.text)
    ensures v == if route.to.Invalid? then MalformedRoute
                 else if KeyOf(route, deviceTable) in keys then ConflictingMetrics else Accepted
    ensures v == Accepted ==> Holds(seen', keys + [KeyOf(route, deviceTable)])
  {
    seen' := seen;
    if route.to.Invalid? {
      return MalformedRoute, seen;
    }
    var effectiveTable := deviceTable;
    if route.table.Some? {
      effectiveTable := route.table;
    }
    var key := RouteKey(effectiveTable.Or(MAIN_TABLE), route.to, route.metric.Or(0));
    assert key == KeyOf(route, deviceTable);
    SeenMeansCollision(seen, keys, key);
    if RouteID(key) in seen {
      return ConflictingMetrics, seen;
    }
    return Accepted, seen + {RouteID(key)};
  }

  method ValidateRoutes(routes: seq<Route>, deviceTable: Option<int>, hasGateway: bool, seen: set<string>,
                        ghost keys: seq<RouteKey>)
    returns (v: Verdict, hasGateway': bool, seen': set<string>)
    requires Textual(routes) && Holds(seen, keys)
    ensures v == Accepted <==> RoutesValid(routes) && Distinct(keys + RouteKeys(routes, deviceTable))
    ensures v == Accepted ==> hasGateway' == (hasGateway || HasDefault(routes))
    ensures v == Accepted ==> Holds(seen', keys + RouteKeys(routes, deviceTable))
    ensures v == MalformedRoute ==> !RoutesValid(routes)
    ensures v == ConflictingMetrics ==> !Distinct(keys + RouteKeys(routes, deviceTable))
    ensures v.Accepted? || v.MalformedRoute? || v.ConflictingMetrics?
  {
    v, hasGateway', seen' := Accepted, hasGateway, seen;
    ghost var all, done := RouteKeys(routes, deviceTable), keys;
    for j := 0 to |routes|
      invariant done == keys + all[..j] && Holds(seen', done)
      invariant forall i :: 0 <= i < j ==> routes[i].to.Prefix?
      invariant hasGateway' <==> hasGateway || exists i :: 0 <= i < j && routes[i].to.IsDefault()
      invariant v == Accepted
    {
      v, seen' := CheckRoute(routes[j], deviceTable, seen', done);
      if v != Accepted {
        if v == ConflictingMetrics {
          RepeatedKey(keys, all, j);
        }
        return;
      }
      if routes[j].to.IsDefault() {
        hasGateway' := true;
      }
      done := done + [all[j]];
    }
    assert all[..|routes|] == all;
  }

  method ValidateFIBRules(rules: seq<Rule>, isVrf: bool) returns (v: Verdict)
    ensures v == if RulesValid(rules, isVrf) then Accepted else MalformedFIBRule
  {
    for j := 0 to |rules|
      invariant forall i :: 0 <= i < j ==> RuleOk(rules[i], isVrf)
    {
      var rule := rules[j];
      if rule.to.Invalid? && rule.from.Invalid? {
        return MalformedFIBRule;
      }
      if rule.table.Or(0) == 0 && !isVrf {
        return MalformedFIBRule;
      }
      if rule.to.Prefix? && rule.from.Prefix? && rule.to.Is6() != rule.from.Is6() {
        return MalformedFIBRule;
      }
    }
    return Accepted;
  }

  /** The map gives the VRF of every member. */
  ghost predicate Resolves(vrfByMember: map<string, nat>, devices: seq<Device>) {
    forall name :: VrfOf(devices, |devices|, name) == if name in vrfByMember then Some(vrfByMember[name]) else None
  }

  method ResolveMembers(devices: seq<Device>) returns (vrfByMember: map<string, nat>)
    ensures Resolves(vrfByMember, devices)
  {
    vrfByMember := map[];
    for i := 0 to |devices|
      invariant forall name :: VrfOf(devices, i, name) == if name in vrfByMember then Some(vrfByMember[name]) else None
    {
      if !devices[i].isVrf {
        continue;
      }
      vrfByMember := AddChildren(vrfByMember, devices[i].children, i);
    }
  }

  method AddChildren(before: map<string, nat>, children: seq<string>, vrf: nat) returns (m: map<string, nat>)
    ensures forall name :: name in m <==> name in before || name in children
    ensures forall name :: name in m ==> m[name] == if name in children then vrf else before[name]
  {
    m := before;
    for j := 0 to |children|
      invariant forall name :: name in m <==> name in before || name in children[..j]
      invariant forall name :: name in m ==> m[name] == if name in children[..j] then vrf else before[name]
    {
      m := m[children[j] := vrf];
    }
    assert children[..|children|] == children;
  }

  predicate DevicesTextual(devices: seq<Device>) { forall k :: 0 <= k < |devices| ==> Textual(devices[k].routes) }

  /** The first n devices are acceptable, apart from the gateway. */
  predicate AcceptableUpTo(devices: seq<Device>, n: nat)
    requires n <= |devices|
  {
    && (forall k :: 0 <= k < n ==> RoutesValid(devices[k].routes) && RulesValid(devices[k].rules, devices[k].isVrf))
    && Distinct(Keys(devices, n))
  }

  lemma {:induction false} KeysArePrefixes(devices: seq<Device>, n: nat, m: nat)
    requires n <= m <= |devices|
    ensures Keys(devices, n) <= Keys(devices, m)
    ensures AcceptableUpTo(devices, m) ==> AcceptableUpTo(devices, n)
    decreases m
  {
    if n < m {
      KeysArePrefixes(devices, n, m - 1);
      assert Keys(devices, m - 1) <= Keys(devices, m);
    }
    assert forall i :: 0 <= i < |Keys(devices, n)| ==> Keys(devices, n)[i] == Keys(devices, m)[i];
  }

  /** The body of the loop over devices. */
  method ValidateDevice(devices: seq<Device>, k: nat, vrfByMember: map<string, nat>, hasGateway: bool, seen: set<string>)
    returns (v: Verdict, hasGateway': bool, seen': set<string>)
    requires k < |devices| && Textual(devices[k].routes)
    requires AcceptableUpTo(devices, k) && Holds(seen, Keys(devices, k))
    requires Resolves(vrfByMember, devices)
    ensures v == Accepted <==> AcceptableUpTo(devices, k + 1)
    ensures v == Accepted ==> hasGateway' == (hasGateway || GivesGateway(devices[k])) && Holds(seen', Keys(devices, k + 1))
    ensures !v.MissingGateway? && !v.MissingNetworkConfigData?
  {
    var d := devices[k];
    var deviceTable := None;
    if d.isVrf {
      deviceTable := d.table;
    } else if d.name in vrfByMember {
      VrfOfIsVrf(devices, |devices|, d.name);
      deviceTable := devices[vrfByMember[d.name]].table;
    }
    assert deviceTable == DeviceTable(devices, k);
    v, hasGateway', seen' := ValidateRoutes(d.routes, deviceTable, hasGateway, seen, Keys(devices, k));
    if v != Accepted {
      return;
    }
    v := ValidateFIBRules(d.rules, d.isVrf);
    if d.dhcp4 || d.dhcp6 {
      hasGateway' := true;
    }
  }

  predicate GatewayAmong(devices: seq<Device>, n: nat)
    requires n <= |devices|
  {
    exists k :: 0 <= k < n && GivesGateway(devices[k])
  }

  lemma AcceptableIff(devices: seq<Device>)
    ensures Acceptable(devices) <==> devices != [] && AcceptableUpTo(devices, |devices|) && GatewayAmong(devices, |devices|)
  {
  }

  lemma GatewayAmongNext(devices: seq<Device>, n: nat)
    requires n < |devices|
    ensures GatewayAmong(devices, n + 1) <==> GatewayAmong(devices, n) || GivesGateway(devices[n])
  {
  }

  method ValidateDevices(devices: seq<Device>) returns (v: Verdict, hasGateway: bool)
    requires DevicesTextual(devices)
    ensures v == Accepted <==> AcceptableUpTo(devices, |devices|)
    ensures v == Accepted ==> hasGateway == GatewayAmong(devices, |devices|)
    ensures !v.MissingGateway? && !v.MissingNetworkConfigData?
  {
    var vrfByMember := ResolveMembers(devices);
    var seen := {};
    v, hasGateway := Accepted, false;
    for k := 0 to |devices|
      invariant v == Accepted && AcceptableUpTo(devices, k)
      invariant Holds(seen, Keys(devices, k))
      invariant hasGateway == GatewayAmong(devices, k)
    {
      GatewayAmongNext(devices, k);
      v, hasGateway, seen := ValidateDevice(devices, k, vrfByMember, hasGateway, seen);
      if v != Accepted {
        KeysArePrefixes(devices, k + 1, |devices|);
        return;
      }
    }
  }

  /** Accepts exactly the acceptable configurations. */
  method Validate(devices: seq<Device>) returns (v: Verdict)
    requires DevicesTextual(devices)
    ensures v == Accepted <==> Acceptable(devices)
    ensures v == MissingNetworkConfigData <==> devices == []
    ensures v == MissingGateway <==>
      devices != [] && AcceptableUpTo(devices, |devices|) && forall k :: 0 <= k < |devices| ==> !GivesGateway(devices[k])
  {
    if |devices| == 0 {
      return MissingNetworkConfigData;
    }
    var hasGateway;
    v, hasGateway := ValidateDevices(devices);
    AcceptableIff(devices);
    if v == Accepted && !hasGateway {
      return MissingGateway;
    }
  }
}
