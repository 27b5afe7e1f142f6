/** The VRF rewrite before systemd-networkd units are rendered, and the tables those units mean. */
module Ignition {
  import opened Base
  import opened Strings
  import opened Network

  // ---- the rewrite, step by step -----------------------------------------------------------------

  function FirstNamed(s: seq<Device>, name: string): (i: nat)
    ensures i <= |s| && (i < |s| ==> s[i].name == name) && forall j :: 0 <= j < i ==> s[j].name != name
  {
    if s == [] || s[0].name == name then 0 else 1 + FirstNamed(s[1..], name)
  }

  /** The first device of the member's name gets the VRF's name. */
  function Named(s: seq<Device>, child: string, vrf: string): seq<Device> {
    var i := FirstNamed(s, child);
    if i < |s| then s[i := s[i].(vrf := vrf)] else s
  }

  function NamedAll(s: seq<Device>, children: seq<string>, vrf: string): (r: seq<Device>)
    ensures |r| == |s|
  {
    if children == [] then s
    else Named(NamedAll(s, children[..|children| - 1], vrf), children[|children| - 1], vrf)
  }

  function ReroutedRoutes(routes: seq<Route>, table: Option<int>): seq<Route> {
    seq(|routes|, j requires 0 <= j < |routes| => routes[j].(table := table))
  }

  /** The VRF's routes take its table. */
  function Rerouted(d: Device): Device { d.(routes := ReroutedRoutes(d.routes, d.table)) }

  function AdjustStep(s: seq<Device>, i: nat): (r: seq<Device>)
    requires i < |s|
    ensures |r| == |s|
  {
    if s[i].isVrf then
      var named := NamedAll(s, s[i].children, s[i].name);
      named[i := Rerouted(named[i])]
    else s
  }

  function AdjustUpTo(s: seq<Device>, n: nat): (r: seq<Device>)
    requires n <= |s|
    ensures |r| == |s|
  {
    if n == 0 then s else AdjustStep(AdjustUpTo(s, n - 1), n - 1)
  }

  function Adjusted(s: seq<Device>): seq<Device> { AdjustUpTo(s, |s|) }

  // ---- in place ----------------------------------------------------------------------------------

  method NameMember(data: array<Device>, child: string, vrf: string)
    modifies data
    ensures data[..] == Named(old(data[..]), child, vrf)
  {
    for j := 0 to data.Length
      invariant data[..] == old(data[..])
      invariant forall i :: 0 <= i < j ==> data[..][i].name != child
    {
      if data[j].name == child {
        assert data[..][j].name == child;
        assert FirstNamed(data[..], child) == j;
        data[j] := data[j].(vrf := vrf);
        return;
      }
    }
  }

  method RerouteVrf(data: array<Device>, i: nat)
    requires i < data.Length
    modifies data
    ensures data[..] == old(data[..])[i := Rerouted(old(data[i]))]
  {
    ghost var was := data[i];
    var n := |data[i].routes|;
    for j := 0 to n
      invariant forall k :: 0 <= k < data.Length && k != i ==> data[k] == old(data[k])
      invariant data[i] == was.(routes := data[i].routes) && |data[i].routes| == n
      invariant forall m :: 0 <= m < n ==>
        data[i].routes[m] == if m < j then was.routes[m].(table := was.table) else was.routes[m]
    {
      var routes := data[i].routes;
      data[i] := data[i].(routes := routes[j := routes[j].(table := data[i].table)]);
    }
    assert data[i].routes == ReroutedRoutes(was.routes, was.table);
  }

  method NameMembers(data: array<Device>, children: seq<string>, vrf: string)
    modifies data
    ensures data[..] == NamedAll(old(data[..]), children, vrf)
  {
    for c := 0 to |children|
      invariant data[..] == NamedAll(old(data[..]), children[..c], vrf)
    {
      assert children[..c + 1][..c] == children[..c];
      NameMember(data, children[c], vrf);
    }
    assert children[..|children|] == children;
  }

  method AdjustVrfs(data: array<Device>)
    modifies data
    ensures data[..] == Adjusted(old(data[..]))
  {
    for i := 0 to data.Length
      invariant data[..] == AdjustUpTo(old(data[..]), i)
    {
      assert data[i] == data[..][i];
      if !data[i].isVrf {
        continue;
      }
      NameMembers(data, data[i].children, data[i].name);
      assert data[i] == data[..][i];
      RerouteVrf(data, i);
    }
  }

  // ---- what it comes to, device by device --------------------------------------------------------

  predicate IsFirst(s: seq<Device>, k: nat)
    requires k < |s|
  {
    forall j :: 0 <= j < k ==> s[j].name != s[k].name
  }

  lemma {:induction false} NamedAllAt(s: seq<Device>, children: seq<string>, vrf: string, k: nat)
    requires k < |s|
    ensures NamedAll(s, children, vrf)[k] ==
              if s[k].name in children && IsFirst(s, k) then s[k].(vrf := vrf) else s[k]
  {
    if children != [] {
      var n := |children| - 1;
      var t := NamedAll(s, children[..n], vrf);
      forall j | 0 <= j < |s| ensures t[j].name == s[j].name {
        NamedAllAt(s, children[..n], vrf, j);
      }
      NamedAllAt(s, children[..n], vrf, k);
      var f := FirstNamed(t, children[n]);
      assert k == f <==> s[k].name == children[n] && IsFirst(s, k);
      assert s[k].name in children <==> s[k].name in children[..n] || s[k].name == children[n];
    }
  }

  /** Device k after the first n were looked at: named by its last VRF, rerouted if it is one of them. */
  function DeviceAfter(s: seq<Device>, n: nat, k: nat): Device
    requires n <= |s| && k < |s|
  {
    var d := if k < n && s[k].isVrf then Rerouted(s[k]) else s[k];
    var v := VrfOf(s, n, s[k].name);
    if v.Some? && v.value < |s| && IsFirst(s, k) then d.(vrf := s[v.value].name) else d
  }

  lemma {:induction false} AdjustedAt(s: seq<Device>, n: nat, k: nat)
    requires n <= |s| && k < |s|
    ensures AdjustUpTo(s, n)[k] == DeviceAfter(s, n, k)
    decreases n
  {
    if n > 0 {
      var t := AdjustUpTo(s, n - 1);
      forall j | 0 <= j < |s| ensures t[j] == DeviceAfter(s, n - 1, j) {
        AdjustedAt(s, n - 1, j);
      }
      StepAt(s, n - 1, t, k);
    }
  }

  lemma StepAt(s: seq<Device>, i: nat, t: seq<Device>, k: nat)
    requires i < |s| && |t| == |s| && k < |s|
    requires forall j :: 0 <= j < |s| ==> t[j] == DeviceAfter(s, i, j)
    ensures AdjustStep(t, i)[k] == DeviceAfter(s, i + 1, k)
  {
    assert t[i] == DeviceAfter(s, i, i) && t[k] == DeviceAfter(s, i, k);
    VrfOfIsVrf(s, i, s[k].name);
    assert IsFirst(t, k) == IsFirst(s, k) by {
      assert forall j :: 0 <= j < |s| ==> t[j].name == s[j].name;
    }
    if s[i].isVrf {
      NamedAllAt(t, t[i].children, t[i].name, k);
    }
  }

  // ---- meaning preserved -------------------------------------------------------------------------

  predicate DistinctNames(s: seq<Device>) {
    forall i, j :: 0 <= i < j < |s| ==> s[i].name != s[j].name
  }

  lemma {:induction false} SameVrfs(s: seq<Device>, t: seq<Device>, n: nat, name: string)
    requires n <= |s| == |t|
    requires forall j :: 0 <= j < |s| ==> t[j].isVrf == s[j].isVrf && t[j].children == s[j].children
    ensures VrfOf(t, n, name) == VrfOf(s, n, name)
  {
    if n > 0 {
      SameVrfs(s, t, n - 1, name);
    }
  }

  lemma AdjustedKeepsVrfs(s: seq<Device>, name: string)
    ensures VrfOf(Adjusted(s), |s|, name) == VrfOf(s, |s|, name)
  {
    forall j | 0 <= j < |s|
      ensures Adjusted(s)[j].isVrf == s[j].isVrf && Adjusted(s)[j].children == s[j].children
    {
      AdjustedAt(s, |s|, j);
    }
    SameVrfs(s, Adjusted(s), |s|, name);
  }

  lemma AdjustedKeepsTable(s: seq<Device>, k: nat)
    requires k < |s|
    ensures DeviceTable(Adjusted(s), k) == DeviceTable(s, k)
  {
    AdjustedAt(s, |s|, k);
    AdjustedKeepsVrfs(s, s[k].name);
    VrfOfIsVrf(s, |s|, s[k].name);
    var v := VrfOf(s, |s|, s[k].name);
    if v.Some? {
      AdjustedAt(s, |s|, v.value);
    }
  }

  /** Rewriting again changes nothing. */
  lemma AdjustIsIdempotent(s: seq<Device>)
    ensures Adjusted(Adjusted(s)) == Adjusted(s)
  {
    var t := Adjusted(s);
    forall k | 0 <= k < |s| ensures Adjusted(t)[k] == t[k] {
      AdjustedAt(s, |s|, k);
      AdjustedAt(t, |t|, k);
      AdjustedKeepsVrfs(s, s[k].name);
      VrfOfIsVrf(s, |s|, s[k].name);
      assert IsFirst(t, k) == IsFirst(s, k) by {
        forall j | 0 <= j < |s| ensures t[j].name == s[j].name { AdjustedAt(s, |s|, j); }
      }
      var v := VrfOf(s, |s|, s[k].name);
      if v.Some? {
        AdjustedAt(s, |s|, v.value);
      }
    }
  }

  /** With distinct names each member carries the name of the VRF that Validate resolves it to. */
  lemma SameVrfAsValidate(s: seq<Device>, k: nat)
    requires DistinctNames(s) && k < |s|
    ensures var v := VrfOf(s, |s|, s[k].name);
            Adjusted(s)[k].vrf == if v.Some? && v.value < |s| then s[v.value].name else s[k].vrf
  {
    AdjustedAt(s, |s|, k);
  }

  /** The explicit table of a route, if any, is the one a VRF would give it. */
  predicate OwnTable(d: Device, route: Route) {
    d.isVrf && route.table.Some? ==> route.table.value == d.table.Or(MAIN_TABLE)
  }

  /** Exactly the routes of a VRF with an explicit other table change their effective table. */
  lemma EffectiveTableKeptIff(s: seq<Device>, k: nat, j: nat)
    requires k < |s| && j < |s[k].routes|
    ensures |Adjusted(s)[k].routes| == |s[k].routes|
    ensures EffectiveTable(Adjusted(s), k, Adjusted(s)[k].routes[j]) == EffectiveTable(s, k, s[k].routes[j])
            <==> OwnTable(s[k], s[k].routes[j])
  {
    AdjustedAt(s, |s|, k);
    AdjustedKeepsTable(s, k);
  }

  predicate OwnTables(s: seq<Device>) {
    forall k, j :: 0 <= k < |s| && 0 <= j < |s[k].routes| ==> OwnTable(s[k], s[k].routes[j])
  }

  lemma DeviceKeysKept(s: seq<Device>, k: nat)
    requires OwnTables(s) && k < |s|
    ensures RouteKeys(Adjusted(s)[k].routes, DeviceTable(Adjusted(s), k)) == RouteKeys(s[k].routes, DeviceTable(s, k))
  {
    AdjustedAt(s, |s|, k);
    forall j | 0 <= j < |s[k].routes|
      ensures KeyOf(Adjusted(s)[k].routes[j], DeviceTable(Adjusted(s), k)) == KeyOf(s[k].routes[j], DeviceTable(s, k))
    {
      EffectiveTableKeptIff(s, k, j);
    }
  }

  lemma {:induction false} KeysKept(s: seq<Device>, n: nat)
    requires OwnTables(s) && n <= |s|
    ensures Keys(Adjusted(s), n) == Keys(s, n)
  {
    if n > 0 {
      KeysKept(s, n - 1);
      DeviceKeysKept(s, n - 1);
    }
  }

  lemma AdjustedDeviceIsValid(s: seq<Device>, k: nat)
    requires k < |s|
    ensures RoutesValid(Adjusted(s)[k].routes) == RoutesValid(s[k].routes)
    ensures Adjusted(s)[k].rules == s[k].rules && Adjusted(s)[k].isVrf == s[k].isVrf
    ensures GivesGateway(Adjusted(s)[k]) == GivesGateway(s[k])
  {
    AdjustedAt(s, |s|, k);
    var a, b := Adjusted(s)[k].routes, s[k].routes;
    assert |a| == |b| && forall j :: 0 <= j < |a| ==> a[j].to == b[j].to;
  }

  /** The rewrite turns accepted configurations into accepted ones, and no others. */
  lemma AdjustKeepsVerdict(s: seq<Device>)
    requires OwnTables(s)
    ensures Acceptable(Adjusted(s)) <==> Acceptable(s)
  {
    KeysKept(s, |s|);
    forall k | 0 <= k < |s|
      ensures RoutesValid(Adjusted(s)[k].routes) == RoutesValid(s[k].routes)
      ensures RulesValid(Adjusted(s)[k].rules, Adjusted(s)[k].isVrf) == RulesValid(s[k].rules, s[k].isVrf)
      ensures GivesGateway(Adjusted(s)[k]) == GivesGateway(s[k])
    {
      AdjustedDeviceIsValid(s, k);
    }
  }

  // ---- the rendered units ------------------------------------------------------------------------

  /** The table of the VRF netdev of that name. */
  function NetdevTable(s: seq<Device>, name: string): Option<int> {
    var i := FirstNamed(s, name);
    if i < |s| && s[i].isVrf then s[i].table else None
  }

  /** Table= if there is one; else the table of the unit's VRF=, which only Ethernet units have. */
  function RenderedTable(s: seq<Device>, k: nat, route: Route): int
    requires k < |s|
  {
    route.table.Or(if !s[k].isVrf && s[k].vrf != "" then NetdevTable(s, s[k].vrf).Or(MAIN_TABLE) else MAIN_TABLE)
  }

  /** Freshly built data: no member named yet; VRFs have a name and a table. */
  predicate Fresh(s: seq<Device>) {
    forall k :: 0 <= k < |s| ==> s[k].vrf == "" && (s[k].isVrf ==> s[k].name != "" && s[k].table.Some?)
  }

  lemma NetdevFound(s: seq<Device>, v: nat)
    requires DistinctNames(s) && v < |s| && s[v].isVrf
    ensures NetdevTable(Adjusted(s), s[v].name) == s[v].table
  {
    var t := Adjusted(s);
    forall j | 0 <= j < |s| ensures t[j].name == s[j].name && t[j].isVrf == s[j].isVrf && t[j].table == s[j].table {
      AdjustedAt(s, |s|, j);
    }
    var i := FirstNamed(t, s[v].name);
    assert t[v].name == s[v].name;
    assert i == v;
  }

  /** What networkd will do with a route is what Validate took it to mean. */
  lemma RenderedIsEffective(s: seq<Device>, k: nat, j: nat)
    requires DistinctNames(s) && Fresh(s) && OwnTables(s) && k < |s| && j < |s[k].routes|
    ensures |Adjusted(s)[k].routes| == |s[k].routes|
    ensures RenderedTable(Adjusted(s), k, Adjusted(s)[k].routes[j]) == EffectiveTable(s, k, s[k].routes[j])
  {
    AdjustedAt(s, |s|, k);
    SameVrfAsValidate(s, k);
    VrfOfIsVrf(s, |s|, s[k].name);
    var v := VrfOf(s, |s|, s[k].name);
    if v.Some? {
      NetdevFound(s, v.value);
    }
  }

  /** A VRF route with another table: accepted as given, in collision once rewritten. */
  lemma OtherTableCollides(s: seq<Device>, to: Prefix)
    requires to == Prefix.Prefix("0.0.0.0/0")
    requires s == [Device("blue", true, [], Some(100), "", [Route(to, None, None), Route(to, Some(5), None)], [], false, false)]
    ensures Acceptable(s) && DistinctNames(s) && Fresh(s) && !Acceptable(Adjusted(s))
  {
    assert Keys(s, 1) == [] + [RouteKey(100, to, 0), RouteKey(5, to, 0)];
    assert s[0].routes[0].to.IsDefault();
    assert GivesGateway(s[0]);
    AdjustedAt(s, 1, 0);
    var t := Adjusted(s);
    assert Keys(t, 1) == [] + [RouteKey(100, to, 0), RouteKey(100, to, 0)];
    assert Keys(t, 1)[0] == Keys(t, 1)[1];
  }
}
