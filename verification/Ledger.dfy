/**
 * status.nodeLocations: which node each machine was placed on, kept per role in a slice that is
 * edited in place.
 */
module Ledger {
  import opened Base

  /** Zone "" stands for a nil zone. */
  datatype NodeLocation = NodeLocation(machine: string, node: string, zone: string)

  // ---- the ledger as a sequence ------------------------------------------------------------------

  /** Index of the machine's first entry, or the length. */
  function Find(s: seq<NodeLocation>, name: string): (i: nat)
    ensures i <= |s|
    ensures i < |s| ==> s[i].machine == name
    ensures forall j :: 0 <= j < i ==> s[j].machine != name
  {
    if s == [] || s[0].machine == name then 0 else 1 + Find(s[1..], name)
  }

  /** GetNode */
  function NodeOf(s: seq<NodeLocation>, name: string): string {
    if Find(s, name) < |s| then s[Find(s, name)].node else ""
  }

  /** HasMachine is derived from GetNode: an entry with an empty node does not count. */
  predicate HasMachine(s: seq<NodeLocation>, name: string) {
    NodeOf(s, name) != ""
  }

  function Added(s: seq<NodeLocation>, loc: NodeLocation): seq<NodeLocation> {
    if HasMachine(s, loc.machine) then s else s + [loc]
  }

  function Removed(s: seq<NodeLocation>, name: string): seq<NodeLocation> {
    if HasMachine(s, name) then Without(s, Find(s, name)) else s
  }

  /** An existing entry takes the node, and takes the zone only if it has none. */
  function Updated(s: seq<NodeLocation>, name: string, node: string, zone: string): seq<NodeLocation> {
    if HasMachine(s, name) then
      var i := Find(s, name);
      s[i := NodeLocation(name, node, if s[i].zone == "" then zone else s[i].zone)]
    else s + [NodeLocation(name, node, zone)]
  }

  predicate UniqueNames(s: seq<NodeLocation>) {
    forall i, j :: 0 <= i < j < |s| ==> s[i].machine != s[j].machine
  }

  /** One entry per machine, each with a node. */
  predicate WellKept(s: seq<NodeLocation>) {
    UniqueNames(s) && forall i :: 0 <= i < |s| ==> s[i].node != ""
  }

  // ---- it refines a map --------------------------------------------------------------------------

  datatype Placement = Placement(node: string, zone: string)

  /** With unique names the only entry of a machine is the one Find returns. */
  lemma OnlyEntry(s: seq<NodeLocation>, i: nat, name: string)
    requires UniqueNames(s) && i < |s| && s[i].machine == name
    ensures Find(s, name) == i
  {
  }

  /** What the ledger answers for one name. */
  function Lookup(s: seq<NodeLocation>, name: string): Option<Placement> {
    if Find(s, name) < |s| then Some(Placement(s[Find(s, name)].node, s[Find(s, name)].zone)) else None
  }

  /** The ledger and the map answer alike. */
  ghost predicate Agrees(s: seq<NodeLocation>, m: map<string, Placement>) {
    && WellKept(s)
    && forall name :: Lookup(s, name) == if name in m then Some(m[name]) else None
  }

  lemma LookupAfterAppend(s: seq<NodeLocation>, loc: NodeLocation, name: string)
    requires Find(s, loc.machine) == |s|
    ensures Lookup(s + [loc], name) ==
              if name == loc.machine then Some(Placement(loc.node, loc.zone)) else Lookup(s, name)
  {
    var f, f' := Find(s, name), Find(s + [loc], name);
    assert forall i :: 0 <= i < |s| ==> (s + [loc])[i] == s[i];
    if f < |s| {
      assert f' == f;
    } else if name == loc.machine {
      assert (s + [loc])[|s|] == loc;
      assert f' == |s|;
    } else {
      assert (s + [loc])[|s|] == loc;
      assert f' == |s| + 1;
    }
  }

  /** The sequence without one position, the rest in order. */
  function Without(s: seq<NodeLocation>, cut: nat): (r: seq<NodeLocation>)
    requires cut < |s|
    ensures |r| == |s| - 1
    ensures forall i :: 0 <= i < |r| ==> r[i] == s[if i < cut then i else i + 1]
  {
    s[..cut] + s[cut + 1..]
  }

  lemma LookupAfterCut(s: seq<NodeLocation>, cut: nat, name: string)
    requires WellKept(s) && cut < |s|
    ensures Lookup(Without(s, cut), name) == if name == s[cut].machine then None else Lookup(s, name)
  {
    var s', f := Without(s, cut), Find(s, name);
    if f < |s| && f != cut {
      assert s'[if f < cut then f else f - 1] == s[f];
    }
    var f' := Find(s', name);
    if f' < |s'| {
      OnlyEntry(s, if f' < cut then f' else f' + 1, name);
    }
  }

  lemma LookupAfterEdit(s: seq<NodeLocation>, k: nat, loc: NodeLocation, name: string)
    requires WellKept(s) && k < |s| && loc.machine == s[k].machine && loc.node != ""
    ensures WellKept(s[k := loc])
    ensures Lookup(s[k := loc], name) ==
              if name == loc.machine then Some(Placement(loc.node, loc.zone)) else Lookup(s, name)
  {
    var s', f := s[k := loc], Find(s, name);
    assert forall i :: 0 <= i < |s'| ==> s'[i] == if i == k then loc else s[i];
    if name == loc.machine {
      OnlyEntry(s', k, name);
    } else if f < |s| {
      OnlyEntry(s', f, name);
    }
  }

  /** Names stay unique exactly if the machine has no entry yet, or one with a node. */
  lemma AddKeepsNamesUniqueIff(s: seq<NodeLocation>, loc: NodeLocation)
    requires UniqueNames(s)
    ensures UniqueNames(Added(s, loc)) <==> (Find(s, loc.machine) == |s| || s[Find(s, loc.machine)].node != "")
  {
    var f := Find(s, loc.machine);
    var s' := Added(s, loc);
    if f < |s| && s[f].node == "" {
      assert s'[f].machine == s'[|s|].machine;
    }
  }

  // ---- whole histories ---------------------------------------------------------------------------

  datatype Op = Add(loc: NodeLocation) | Remove(name: string) | Update(name: string, node: string, zone: string)

  /** Nodes are never empty: MinLength=1 in the CRD. */
  predicate ValidOp(op: Op) {
    (op.Add? ==> op.loc.node != "") && (op.Update? ==> op.node != "")
  }

  function Apply(s: seq<NodeLocation>, op: Op): seq<NodeLocation> {
    match op
    case Add(loc) => Added(s, loc)
    case Remove(name) => Removed(s, name)
    case Update(name, node, zone) => Updated(s, name, node, zone)
  }

  function ApplyMap(m: map<string, Placement>, op: Op): map<string, Placement> {
    match op
    case Add(loc) => if loc.machine in m then m else m[loc.machine := Placement(loc.node, loc.zone)]
    case Remove(name) => m - {name}
    case Update(name, node, zone) =>
      m[name := Placement(node, if name in m && m[name].zone != "" then m[name].zone else zone)]
  }

  function ApplyAll(s: seq<NodeLocation>, ops: seq<Op>): seq<NodeLocation>
    decreases |ops|
  {
    if ops == [] then s else ApplyAll(Apply(s, ops[0]), ops[1..])
  }

  function ApplyAllMap(m: map<string, Placement>, ops: seq<Op>): map<string, Placement>
    decreases |ops|
  {
    if ops == [] then m else ApplyAllMap(ApplyMap(m, ops[0]), ops[1..])
  }

  lemma AddAgrees(s: seq<NodeLocation>, loc: NodeLocation, m: map<string, Placement>)
    requires Agrees(s, m) && loc.node != ""
    ensures Agrees(Added(s, loc), ApplyMap(m, Add(loc)))
  {
    assert Lookup(s, loc.machine) == if loc.machine in m then Some(m[loc.machine]) else None;
    if !HasMachine(s, loc.machine) {
      forall name { LookupAfterAppend(s, loc, name); }
    }
  }

  lemma CutKeeps(s: seq<NodeLocation>, cut: nat)
    requires WellKept(s) && cut < |s|
    ensures WellKept(Without(s, cut))
  {
  }

  lemma RemoveAgrees(s: seq<NodeLocation>, gone: string, m: map<string, Placement>)
    requires Agrees(s, m)
    ensures Agrees(Removed(s, gone), ApplyMap(m, Remove(gone)))
  {
    assert Lookup(s, gone) == if gone in m then Some(m[gone]) else None;
    if HasMachine(s, gone) {
      var cut := Find(s, gone);
      CutKeeps(s, cut);
      forall name ensures Lookup(Without(s, cut), name) == if name in m - {gone} then Some(m[name]) else None {
        LookupAfterCut(s, cut, name);
      }
    } else {
      assert m - {gone} == m;
    }
  }

  lemma UpdateAgrees(s: seq<NodeLocation>, moved: string, node: string, zone: string, m: map<string, Placement>)
    requires Agrees(s, m) && node != ""
    ensures Agrees(Updated(s, moved, node, zone), ApplyMap(m, Update(moved, node, zone)))
  {
    assert Lookup(s, moved) == if moved in m then Some(m[moved]) else None;
    if HasMachine(s, moved) {
      var i := Find(s, moved);
      var loc := NodeLocation(moved, node, if s[i].zone == "" then zone else s[i].zone);
      var s', m' := s[i := loc], m[moved := Placement(node, loc.zone)];
      LookupAfterEdit(s, i, loc, moved);
      forall name ensures Lookup(s', name) == if name in m' then Some(m'[name]) else None {
        LookupAfterEdit(s, i, loc, name);
      }
    } else {
      AddAgrees(s, NodeLocation(moved, node, zone), m);
    }
  }

  /** Every history of the ledger keeps one entry per machine and is a history of the map. */
  lemma {:induction false} LedgerRefinesMap(s: seq<NodeLocation>, m: map<string, Placement>, ops: seq<Op>)
    requires Agrees(s, m)
    requires forall k :: 0 <= k < |ops| ==> ValidOp(ops[k])
    ensures Agrees(ApplyAll(s, ops), ApplyAllMap(m, ops))
    decreases |ops|
  {
    if ops != [] {
      assert ValidOp(ops[0]);
      match ops[0] {
        case Add(loc) => AddAgrees(s, loc, m);
        case Remove(name) => RemoveAgrees(s, name, m);
        case Update(name, node, zone) => UpdateAgrees(s, name, node, zone, m);
      }
      LedgerRefinesMap(Apply(s, ops[0]), ApplyMap(m, ops[0]), ops[1..]);
    }
  }

  // ---- the remove loop ----------------------------------------------------------------------------

  /** The cells after append(s[:i], s[i+1:]...) on a slice of length len. */
  function Shifted(cells: seq<NodeLocation>, len: nat, i: nat): (r: seq<NodeLocation>)
    requires i < len <= |cells|
  {
    seq(|cells|, j requires 0 <= j < |cells| => if i <= j < len - 1 then cells[j + 1] else cells[j])
  }

  lemma ShiftedIsWithout(shifted: seq<NodeLocation>, cells: seq<NodeLocation>, len: nat, i: nat)
    requires i < len <= |cells| && shifted == Shifted(cells, len, i)
    ensures shifted[..len - 1] == Without(cells[..len], i)
  {
  }

  lemma ShiftedPrefix(cells: seq<NodeLocation>, n: nat, len: nat, i: nat)
    requires i < len <= n <= |cells|
    ensures Shifted(cells, len, i)[..n] == Shifted(cells[..n], len, i)
  {
  }

  /** The loop of RemoveNodeLocation over |cells| cells; None is a slice-bounds panic. */
  function RemoveLoop(cells: seq<NodeLocation>, len: nat, i: nat, name: string): Option<seq<NodeLocation>>
    requires len <= |cells| && i <= |cells|
    decreases |cells| - i
  {
    if i == |cells| then Some(cells[..len])
    else if cells[i].machine != name then RemoveLoop(cells, len, i + 1, name)
    else if i + 1 > len then None
    else RemoveLoop(Shifted(cells, len, i), len - 1, i + 1, name)
  }

  /** Once something was cut, meeting the name in the last cell, which no shift moves, is out of bounds. */
  lemma {:induction false} LastCellPanics(cells: seq<NodeLocation>, len: nat, i: nat, name: string)
    requires len < |cells| && i < |cells| && cells[|cells| - 1].machine == name
    ensures RemoveLoop(cells, len, i, name).None?
    decreases |cells| - i
  {
    if cells[i].machine == name {
      if i < len {
        LastCellPanics(Shifted(cells, len, i), len - 1, i + 1, name);
      }
    } else {
      LastCellPanics(cells, len, i + 1, name);
    }
  }

  lemma {:induction false} RepeatedLastNamePanics(s: seq<NodeLocation>, i: nat, j: nat, name: string)
    requires i <= j < |s| - 1 && s[j].machine == name && s[|s| - 1].machine == name
    ensures RemoveLoop(s, |s|, i, name).None?
    decreases j - i
  {
    if s[i].machine == name {
      LastCellPanics(Shifted(s, |s|, i), |s| - 1, i + 1, name);
    } else {
      RepeatedLastNamePanics(s, i + 1, j, name);
    }
  }

  /** What is left: of consecutive entries of the name every other one goes, since the loop skips the one that moves up. */
  function Thinned(s: seq<NodeLocation>, name: string): seq<NodeLocation> {
    if s == [] then []
    else if s[0].machine != name then [s[0]] + Thinned(s[1..], name)
    else if |s| == 1 then []
    else [s[1]] + Thinned(s[2..], name)
  }

  /** The cells past the end of the slice are copies of the last one, which is not of the name. */
  predicate StaleTail(cells: seq<NodeLocation>, len: nat, name: string) {
    && 0 < len <= |cells| && cells[|cells| - 1].machine != name
    && forall j :: len - 1 <= j < |cells| ==> cells[j] == cells[|cells| - 1]
  }

  lemma {:induction false} StaleLoop(cells: seq<NodeLocation>, len: nat, i: nat, name: string)
    requires StaleTail(cells, len, name) && i <= |cells|
    ensures RemoveLoop(cells, len, i, name) ==
              if i <= len then Some(cells[..i] + Thinned(cells[i..len], name)) else Some(cells[..len])
    decreases |cells| - i
  {
    if i == |cells| {
      assert i == len ==> cells[..i] + [] == cells[..len];
    } else if cells[i].machine == name {
      CutStep(cells, len, i, name);
      StaleLoop(Shifted(cells, len, i), len - 1, i + 1, name);
    } else {
      StaleLoop(cells, len, i + 1, name);
      if i < len {
        assert cells[i..len][1..] == cells[i + 1..len];
        assert cells[..i] + ([cells[i]] + Thinned(cells[i + 1..len], name)) == cells[..i + 1] + Thinned(cells[i + 1..len], name);
      } else if i == len {
        assert cells[..i] + [] == cells[..len];
      }
    }
  }

  lemma CutStep(cells: seq<NodeLocation>, len: nat, i: nat, name: string)
    requires StaleTail(cells, len, name) && i < |cells| && cells[i].machine == name
    ensures i + 1 < len && StaleTail(Shifted(cells, len, i), len - 1, name)
    ensures var t := Shifted(cells, len, i);
            t[..i + 1] + Thinned(t[i + 1..len - 1], name) == cells[..i] + Thinned(cells[i..len], name)
  {
    var t := Shifted(cells, len, i);
    assert t[..i + 1] == cells[..i] + [cells[i + 1]];
    assert t[i + 1..len - 1] == cells[i + 2..len];
    assert cells[i..len][2..] == cells[i + 2..len] && cells[i..len][1] == cells[i + 1];
  }

  /** A last entry of the name that is the only one is cut at the last turn. */
  lemma {:induction false} OnlyLastLoop(s: seq<NodeLocation>, i: nat, name: string)
    requires i < |s| && s[|s| - 1].machine == name
    requires forall j :: 0 <= j < |s| - 1 ==> s[j].machine != name
    ensures RemoveLoop(s, |s|, i, name) == Some(s[..|s| - 1]) && Thinned(s[i..], name) == s[i..|s| - 1]
    decreases |s| - i
  {
    if i == |s| - 1 {
      var t := Shifted(s, |s|, i);
      assert RemoveLoop(s, |s|, i, name) == RemoveLoop(t, |s| - 1, |s|, name) == Some(t[..|s| - 1]);
      assert t[..|s| - 1] == s[..|s| - 1];
      assert s[i..] == [s[i]];
    } else {
      OnlyLastLoop(s, i + 1, name);
      assert s[i..][1..] == s[i + 1..];
      assert s[i..|s| - 1] == [s[i]] + s[i + 1..|s| - 1];
    }
  }

  /** The last entry has the name, and so has an earlier one. */
  predicate RepeatsLast(s: seq<NodeLocation>, name: string) {
    s != [] && s[|s| - 1].machine == name && exists j :: 0 <= j < |s| - 1 && s[j].machine == name
  }

  /** The remove loop runs out of bounds exactly if the last entry repeats an earlier one's name; else it thins. */
  lemma RemoveLoopIs(s: seq<NodeLocation>, name: string)
    ensures RemoveLoop(s, |s|, 0, name) == if RepeatsLast(s, name) then None else Some(Thinned(s, name))
  {
    if s == [] {
    } else if RepeatsLast(s, name) {
      var j :| 0 <= j < |s| - 1 && s[j].machine == name;
      RepeatedLastNamePanics(s, 0, j, name);
    } else if s[|s| - 1].machine == name {
      OnlyLastLoop(s, 0, name);
      assert s[0..] == s;
    } else {
      StaleLoop(s, |s|, 0, name);
      assert s[0..|s|] == s && s[..0] + Thinned(s, name) == Thinned(s, name);
    }
  }

  lemma {:induction false} ThinnedOnce(s: seq<NodeLocation>, name: string, f: nat)
    requires f < |s| && s[f].machine == name
    requires forall j :: 0 <= j < |s| && j != f ==> s[j].machine != name
    ensures Thinned(s, name) == Without(s, f)
    decreases f
  {
    if f == 0 {
      if |s| > 1 {
        ThinnedAbsent(s[2..], name);
        assert Without(s, 0) == [s[1]] + s[2..];
      }
    } else {
      ThinnedOnce(s[1..], name, f - 1);
      assert Without(s, f) == [s[0]] + Without(s[1..], f - 1);
    }
  }

  lemma {:induction false} ThinnedAbsent(s: seq<NodeLocation>, name: string)
    requires forall j :: 0 <= j < |s| ==> s[j].machine != name
    ensures Thinned(s, name) == s
  {
    if s != [] {
      ThinnedAbsent(s[1..], name);
      assert s == [s[0]] + s[1..];
    }
  }

  /** With unique names the loop deletes exactly the machine's entry, the rest in order. */
  lemma UniqueLoop(s: seq<NodeLocation>, name: string)
    requires UniqueNames(s)
    ensures RemoveLoop(s, |s|, 0, name).Some?
    ensures HasMachine(s, name) ==> RemoveLoop(s, |s|, 0, name) == Some(Removed(s, name))
  {
    RemoveLoopIs(s, name);
    if HasMachine(s, name) {
      ThinnedOnce(s, name, Find(s, name));
    }
  }

  // ---- the slice edited in place -----------------------------------------------------------------

  /** A Go slice: a backing array and a length within it. */
  class LocationSlice {
    var data: array<NodeLocation>
    var len: nat

    constructor ()
      ensures Valid() && fresh(data) && View() == []
    {
      data := new NodeLocation[0];
      len := 0;
    }

    ghost predicate Valid()
      reads this
    {
      len <= data.Length
    }

    ghost function View(): seq<NodeLocation>
      requires Valid()
      reads this, data
    {
      data[..len]
    }

    method GetNode(name: string) returns (node: string)
      requires Valid()
      ensures node == NodeOf(View(), name)
    {
      for i := 0 to len
        invariant forall j :: 0 <= j < i ==> data[j].machine != name
      {
        if data[i].machine == name {
          assert View()[i].machine == name && forall j :: 0 <= j < i ==> View()[j].machine != name;
          return data[i].node;
        }
      }
      return "";
    }

    /** append: in place while there is room, else into a larger array. */
    method Append(loc: NodeLocation)
      requires Valid()
      modifies this, data
      ensures Valid() && (data == old(data) || fresh(data))
      ensures View() == old(View()) + [loc]
    {
      if len == data.Length {
        var bigger := new NodeLocation[2 * len + 1](_ => loc);
        for i := 0 to len
          invariant data == old(data) && len == old(len) && data[..] == old(data[..])
          invariant bigger[..i] == old(data[..i])
        {
          bigger[i] := data[i];
        }
        data := bigger;
      }
      data[len] := loc;
      len := len + 1;
    }

    method Add(loc: NodeLocation)
      requires Valid()
      modifies this, data
      ensures Valid() && (data == old(data) || fresh(data))
      ensures View() == Added(old(View()), loc)
    {
      var node := GetNode(loc.machine);
      if node == "" {
        Append(loc);
      }
    }

    /** append(s[:i], s[i+1:]...): moves the tail down over entry i; the last cell keeps its old value. */
    method CutOut(i: nat)
      requires Valid() && i < len
      modifies this`len, data
      ensures Valid() && len == old(len) - 1
      ensures View() == Without(old(View()), i)
      ensures data[..] == Shifted(old(data[..]), old(len), i)
    {
      for k := i to len - 1
        invariant len == old(len)
        invariant forall j :: i <= j < k ==> data[j] == old(data[j + 1])
        invariant forall j :: (0 <= j < i || k <= j < data.Length) ==> data[j] == old(data[j])
      {
        data[k] := data[k + 1];
      }
      assert data[..] == Shifted(old(data[..]), len, i);
      ShiftedIsWithout(data[..], old(data[..]), len, i);
      len := len - 1;
    }

    /**
     * The loop ranges over the slice as it was, while its body shortens the slice and shifts the cells
     * under it. It runs unless RemoveLoop says that it panics.
     */
    method Remove(name: string)
      requires Valid() && (HasMachine(View(), name) ==> RemoveLoop(View(), |View()|, 0, name).Some?)
      modifies this`len, data
      ensures Valid()
      ensures View() == if HasMachine(old(View()), name) then RemoveLoop(old(View()), |old(View())|, 0, name).value
                        else old(View())
      ensures UniqueNames(old(View())) ==> View() == Removed(old(View()), name)
    {
      var node := GetNode(name);
      if node == "" {
        return;
      }
      ghost var s := View();
      var n := len;
      for i := 0 to n
        invariant len <= n <= data.Length
        invariant RemoveLoop(data[..n], len, i, name) == RemoveLoop(s, n, 0, name)
      {
        if data[i].machine == name {
          ghost var cells := data[..];
          assert data[..n] == cells[..n] && cells[..n][i] == data[i];
          ShiftedPrefix(cells, n, len, i);
          CutOut(i);
          assert data[..n] == data[..][..n];
        }
      }
      assert data[..n][..len] == View();
      if UniqueNames(s) {
        UniqueLoop(s, name);
      }
    }

    method Update(name: string, node: string, zone: string) returns (updated: bool)
      requires Valid()
      modifies this, data
      ensures Valid() && (data == old(data) || fresh(data))
      ensures View() == Updated(old(View()), name, node, zone)
      ensures updated <==> View() != old(View())
    {
      var present := GetNode(name);
      if present == "" {
        Append(NodeLocation(name, node, zone));
        return true;
      }
      ghost var s := View();
      for i := 0 to len
        invariant View() == s
        invariant forall j :: 0 <= j < i ==> s[j].machine != name
      {
        var loc := data[i];
        if loc.machine == name {
          assert s[i] == loc && Find(s, name) == i;
          updated := false;
          if loc.node != node {
            data[i] := data[i].(node := node);
            updated := true;
          }
          if loc.zone == "" && zone != "" {
            data[i] := data[i].(zone := zone);
            updated := true;
          }
          assert View() == s[i := data[i]];
          assert updated ==> View()[i] != s[i];
          return;
        }
      }
      assert false;
    }
  }

  // ---- one slice per role ------------------------------------------------------------------------

  class NodeLocations {
    const controlPlane: LocationSlice
    const workers: LocationSlice

    constructor ()
      ensures Valid() && Role(true).View() == [] && Role(false).View() == []
      ensures fresh(controlPlane) && fresh(workers) && fresh(controlPlane.data) && fresh(workers.data)
    {
      controlPlane := new LocationSlice();
      workers := new LocationSlice();
    }

    function Role(isControlPlane: bool): LocationSlice {
      if isControlPlane then controlPlane else workers
    }

    ghost predicate Valid()
      reads controlPlane, workers
    {
      && controlPlane != workers && controlPlane.data != workers.data
      && controlPlane.Valid() && workers.Valid()
    }

    /** The role's slice takes the edit; the other role's slice is left alone. */
    method AddNodeLocation(loc: NodeLocation, isControlPlane: bool)
      requires Valid()
      modifies Role(isControlPlane), Role(isControlPlane).data
      ensures Valid() && Role(isControlPlane).View() == Added(old(Role(isControlPlane).View()), loc)
      ensures Role(!isControlPlane).View() == old(Role(!isControlPlane).View())
    {
      Role(isControlPlane).Add(loc);
    }

    method RemoveNodeLocation(name: string, isControlPlane: bool)
      requires Valid()
      requires var s := Role(isControlPlane).View(); HasMachine(s, name) ==> RemoveLoop(s, |s|, 0, name).Some?
      modifies Role(isControlPlane), Role(isControlPlane).data
      ensures Valid()
      ensures var s := old(Role(isControlPlane).View());
              && Role(isControlPlane).View() == (if HasMachine(s, name) then RemoveLoop(s, |s|, 0, name).value else s)
              && (UniqueNames(s) ==> Role(isControlPlane).View() == Removed(s, name))
      ensures Role(!isControlPlane).View() == old(Role(!isControlPlane).View())
    {
      Role(isControlPlane).Remove(name);
    }

    method UpdateNodeLocation(name: string, node: string, zone: string, isControlPlane: bool) returns (updated: bool)
      requires Valid()
      modifies Role(isControlPlane), Role(isControlPlane).data
      ensures Valid() && Role(isControlPlane).View() == Updated(old(Role(isControlPlane).View()), name, node, zone)
      ensures Role(!isControlPlane).View() == old(Role(!isControlPlane).View())
      ensures updated <==> Role(isControlPlane).View() != old(Role(isControlPlane).View())
    {
      updated := Role(isControlPlane).Update(name, node, zone);
    }
  }
}
