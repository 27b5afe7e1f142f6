/** Finding the VM template by its tags. */
module Templates {
  import opened Base
  import opened Strings

  /** UniqueSubset also stands for every policy the switch does not name. */
  datatype Policy = Exact | UniqueSubset | BestSubset

  datatype VM = VM(node: string, vmid: int, template: bool, tags: string)

  const MAX_INT: int := 0x7fff_ffff_ffff_ffff

  // ---- the specification set ---------------------------------------------------------------------

  function TagOf(piece: string): string { ToLower(TrimSpace(piece)) }

  /** The tags of a VM: a semicolon separated list, trimmed and lowercased. */
  function TagSet(tags: string): set<string> {
    var pieces := Split(tags, ';');
    set i | 0 <= i < |pieces| :: TagOf(pieces[i])
  }

  function LowerAll(tags: seq<string>): seq<string> {
    seq(|tags|, i requires 0 <= i < |tags| => ToLower(tags[i]))
  }

  function Wanted(tags: seq<string>): set<string> { SetOf(LowerAll(tags)) }

  predicate Eligible(vm: VM, wanted: set<string>) {
    vm.template && vm.tags != "" && wanted <= TagSet(vm.tags)
  }

  /** Equal tags, a superset, or a superset of the smallest size there is. */
  predicate Matches(vm: VM, wanted: set<string>, policy: Policy, among: seq<VM>) {
    && Eligible(vm, wanted)
    && (policy.Exact? ==> TagSet(vm.tags) == wanted)
    && (policy.BestSubset? ==>
          forall i :: 0 <= i < |among| && Eligible(among[i], wanted) ==> |TagSet(vm.tags)| <= |TagSet(among[i].tags)|)
  }

  function Select(vms: seq<VM>, wanted: set<string>, policy: Policy, among: seq<VM>): (r: seq<VM>)
    ensures |r| <= |vms|
  {
    if vms == [] then []
    else
      var last := vms[|vms| - 1];
      Select(vms[..|vms| - 1], wanted, policy, among) + if Matches(last, wanted, policy, among) then [last] else []
  }

  function Matching(vms: seq<VM>, wanted: set<string>, policy: Policy): seq<VM> {
    Select(vms, wanted, policy, vms)
  }

  // ---- how the set grows with the listing --------------------------------------------------------

  lemma {:induction false} SelectSame(vms: seq<VM>, wanted: set<string>, policy: Policy, a: seq<VM>, b: seq<VM>)
    requires forall i :: 0 <= i < |vms| ==> Matches(vms[i], wanted, policy, a) == Matches(vms[i], wanted, policy, b)
    ensures Select(vms, wanted, policy, a) == Select(vms, wanted, policy, b)
  {
    if vms != [] {
      SelectSame(vms[..|vms| - 1], wanted, policy, a, b);
    }
  }

  lemma {:induction false} SelectNone(vms: seq<VM>, wanted: set<string>, policy: Policy, among: seq<VM>)
    requires forall i :: 0 <= i < |vms| ==> !Matches(vms[i], wanted, policy, among)
    ensures Select(vms, wanted, policy, among) == []
  {
    if vms != [] {
      SelectNone(vms[..|vms| - 1], wanted, policy, among);
    }
  }

  function Distance(vm: VM, wanted: set<string>): int { |TagSet(vm.tags)| - |wanted| }

  /** best is the least distance of the eligible VMs, or the largest int if there is none. */
  predicate Least(vms: seq<VM>, wanted: set<string>, best: int) {
    && (forall i :: 0 <= i < |vms| && Eligible(vms[i], wanted) ==> Distance(vms[i], wanted) >= best)
    && (best == MAX_INT || exists i :: 0 <= i < |vms| && Eligible(vms[i], wanted) && Distance(vms[i], wanted) == best)
  }

  lemma LastSelected(vms: seq<VM>, vm: VM, wanted: set<string>, policy: Policy)
    ensures Matching(vms + [vm], wanted, policy) ==
              Select(vms, wanted, policy, vms + [vm])
              + if Matches(vm, wanted, policy, vms + [vm]) then [vm] else []
  {
    assert (vms + [vm])[..|vms|] == vms;
  }

  /** A VM that is skipped, or that ties, leaves the earlier matches as they were. */
  lemma EarlierStay(vms: seq<VM>, vm: VM, wanted: set<string>, policy: Policy, best: int)
    requires policy.BestSubset? ==> Least(vms, wanted, best)
    requires !Eligible(vm, wanted) || !policy.BestSubset? || best <= Distance(vm, wanted) <= MAX_INT
    requires forall i :: 0 <= i < |vms| ==> Distance(vms[i], wanted) <= MAX_INT
    ensures Select(vms, wanted, policy, vms + [vm]) == Matching(vms, wanted, policy)
  {
    forall i | 0 <= i < |vms|
      ensures Matches(vms[i], wanted, policy, vms + [vm]) == Matches(vms[i], wanted, policy, vms)
    {
      assert forall j :: 0 <= j < |vms| ==> (vms + [vm])[j] == vms[j];
    }
    SelectSame(vms, wanted, policy, vms + [vm], vms);
  }

  /** A strictly better VM invalidates all earlier matches. */
  lemma EarlierGo(vms: seq<VM>, vm: VM, wanted: set<string>, best: int)
    requires Least(vms, wanted, best) && Eligible(vm, wanted) && Distance(vm, wanted) < best
    ensures Select(vms, wanted, BestSubset, vms + [vm]) == []
  {
    assert (vms + [vm])[|vms|] == vm;
    SelectNone(vms, wanted, BestSubset, vms + [vm]);
  }

  /** A superset of the same size is the same set. */
  lemma SameSize(wanted: set<string>, tags: set<string>)
    requires wanted <= tags
    ensures |wanted| <= |tags| && (|wanted| == |tags| <==> wanted == tags)
  {
    var extra := tags - wanted;
    assert tags == wanted + extra;
    assert |tags| == |wanted| + |extra|;
  }

  // ---- the request, normalised in place ----------------------------------------------------------

  function Compacted(tags: seq<string>): seq<string> { Compact(Sort(LowerAll(tags))) }

  lemma CompactedIsWanted(tags: seq<string>)
    ensures SetOf(Compacted(tags)) == Wanted(tags)
    ensures |Compacted(tags)| == |Wanted(tags)| <= |tags|
  {
    SortSorts(LowerAll(tags));
    CompactKeeps(Sort(LowerAll(tags)));
    DistinctSize(Compacted(tags));
  }

  /** The caller's slice afterwards: compacted tags, then cleared cells up to the old length. */
  function Normalized(tags: seq<string>): seq<string> {
    Compacted(tags) + seq(Max(0, |tags| - |Compacted(tags)|), _ => "")
  }

  method NormalizeTags(tags: array<string>) returns (compacted: seq<string>)
    modifies tags
    ensures compacted == Compacted(old(tags[..])) && tags[..] == Normalized(old(tags[..]))
  {
    LowerInPlace(tags);
    compacted := Compact(Sort(tags[..]));
    CompactedIsWanted(old(tags[..]));
    WriteBack(tags, compacted);
  }

  method LowerInPlace(tags: array<string>)
    modifies tags
    ensures tags[..] == LowerAll(old(tags[..]))
  {
    for i := 0 to tags.Length
      invariant forall j :: 0 <= j < tags.Length ==> tags[j] == if j < i then ToLower(old(tags[j])) else old(tags[j])
    {
      tags[i] := ToLower(tags[i]);
    }
  }

  /** The sorted, compacted tags replace the old ones; the rest of the slice is cleared. */
  method WriteBack(tags: array<string>, compacted: seq<string>)
    requires |compacted| <= tags.Length
    modifies tags
    ensures tags[..] == compacted + seq(Max(0, tags.Length - |compacted|), _ => "")
  {
    for i := 0 to tags.Length
      invariant forall j :: 0 <= j < i ==> tags[j] == if j < |compacted| then compacted[j] else ""
    {
      tags[i] := if i < |compacted| then compacted[i] else "";
    }
  }

  /** A tag as Proxmox lists it counts whatever its capitals and the blanks around it. */
  lemma TagIs(before: string, text: string, after: string, i: nat)
    requires Blank(before) && Blank(after)
    requires text != "" && !IsSpace(text[0]) && !IsSpace(text[|text| - 1]) && i < |text|
    ensures var tag := TagOf(before + text + after);
            |tag| == |text| && tag[i] == if 'A' <= text[i] <= 'Z' then (text[i] as int + 32) as char else text[i]
  {
    TrimIs(before, text, after);
    LowerIs(text);
  }

  lemma {:induction false} LowerTwice(s: string)
    ensures ToLower(ToLower(s)) == ToLower(s)
  {
    if s != "" {
      LowerTwice(s[1..]);
      assert ToLower(s)[1..] == ToLower(s[1..]);
    }
  }

  lemma RepeatedTagShrinks(s: seq<string>, i: nat, j: nat)
    requires i < j < |s| && s[i] == s[j]
    ensures |SetOf(s)| < |s|
  {
    var rest := s[..j] + s[j + 1..];
    assert SetOf(s) == SetOf(rest) by {
      assert rest[i] == s[j];
      forall x | x in s ensures x in rest {
        var k :| 0 <= k < |s| && s[k] == x;
        if k != j { assert rest[if k < j then k else k - 1] == x; }
      }
    }
    SetNoLarger(rest);
  }

  lemma {:induction false} SetNoLarger(s: seq<string>)
    ensures |SetOf(s)| <= |s|
  {
    if s != [] {
      SetNoLarger(s[..|s| - 1]);
      assert SetOf(s) == SetOf(s[..|s| - 1]) + {s[|s| - 1]};
    }
  }

  /**
   * A second lookup through the same slice asks for the same tags exactly if lowercasing made no
   * two of them equal, or one of them was empty.
   */
  lemma RepeatAsksTheSame(tags: seq<string>)
    ensures Wanted(Normalized(tags)) == Wanted(tags) <==> Distinct(LowerAll(tags)) || "" in LowerAll(tags)
  {
    CompactedIsWanted(tags);
    WantedAgain(tags);
    if Distinct(LowerAll(tags)) {
      DistinctSize(LowerAll(tags));
    } else {
      var i, j :| 0 <= i < j < |tags| && LowerAll(tags)[i] == LowerAll(tags)[j];
      RepeatedTagShrinks(LowerAll(tags), i, j);
    }
  }

  lemma WantedAgain(tags: seq<string>)
    ensures Wanted(Normalized(tags)) == Wanted(tags) + if |Compacted(tags)| < |tags| then {""} else {}
  {
    CompactedIsWanted(tags);
    var c, n := Compacted(tags), Normalized(tags);
    forall i | 0 <= i < |n| ensures LowerAll(n)[i] == n[i] {
      if i < |c| {
        assert c[i] in SetOf(c);
        var k :| 0 <= k < |tags| && c[i] == LowerAll(tags)[k];
        LowerTwice(tags[k]);
      } else {
        assert n[i] == "";
      }
    }
    assert LowerAll(n) == n;
    forall x ensures x in n <==> x in c || (|c| < |tags| && x == "") {
      if x in c {
        var k :| 0 <= k < |c| && c[k] == x;
        assert n[k] == x;
      }
      if |c| < |tags| {
        assert n[|c|] == "";
      }
    }
  }

  // ---- the loop ----------------------------------------------------------------------------------

  method TagMap(tags: string) returns (m: set<string>)
    ensures m == TagSet(tags)
  {
    m := {};
    var pieces := Split(tags, ';');
    for i := 0 to |pieces|
      invariant m == set j | 0 <= j < i :: TagOf(pieces[j])
    {
      m := m + {TagOf(pieces[i])};
    }
  }

  method HasAll(m: set<string>, tags: seq<string>) returns (all: bool)
    ensures all <==> SetOf(tags) <= m
  {
    for i := 0 to |tags|
      invariant forall j :: 0 <= j < i ==> tags[j] in m
    {
      if tags[i] !in m {
        assert tags[i] in SetOf(tags);
        return false;
      }
    }
    return true;
  }

  /** One turn of the loop; took says whether the VM was counted. */
  method Consider(vm: VM, compacted: seq<string>, policy: Policy, matches: nat, best: int)
    returns (took: bool, matches': nat, best': int)
    ensures !took ==> matches' == matches && best' == best
    ensures took ==> Eligible(vm, SetOf(compacted)) && matches' == (if best' < best then 1 else matches + 1)
    ensures best' != best ==> policy.BestSubset?
    ensures var d := |TagSet(vm.tags)| - |compacted|;
            && (took <==> Eligible(vm, SetOf(compacted)) && (policy.Exact? ==> d == 0) && (policy.BestSubset? ==> d <= best))
            && (took && policy.BestSubset? ==> best' == d)
  {
    took, matches', best' := false, matches, best;
    if !vm.template || |vm.tags| == 0 {
      return;
    }
    var m := TagMap(vm.tags);
    var all := HasAll(m, compacted);
    if !all {
      return;
    }
    var distance := |m| - |compacted|;
    match policy {
      case Exact =>
        if distance != 0 {
          return;
        }
      case BestSubset =>
        if distance > best {
          return;
        }
        if distance < best {
          best', matches' := distance, 0;
        }
      case UniqueSubset =>
    }
    took, matches' := true, matches' + 1;
  }

  lemma ConsiderGrows(vms: seq<VM>, vm: VM, wanted: set<string>, policy: Policy, best: int)
    requires policy.BestSubset? ==> Least(vms, wanted, best)
    requires Distance(vm, wanted) <= MAX_INT && forall i :: 0 <= i < |vms| ==> Distance(vms[i], wanted) <= MAX_INT
    ensures var d := Distance(vm, wanted); var before := Matching(vms, wanted, policy);
            Matching(vms + [vm], wanted, policy) ==
              if !Eligible(vm, wanted) || (policy.Exact? && d != 0) || (policy.BestSubset? && d > best) then before
              else if policy.BestSubset? && d < best then [vm]
              else before + [vm]
  {
    LastSelected(vms, vm, wanted, policy);
    assert forall i :: 0 <= i <= |vms| ==> (vms + [vm])[i] == if i < |vms| then vms[i] else vm;
    if Eligible(vm, wanted) {
      SameSize(wanted, TagSet(vm.tags));
    }
    if Eligible(vm, wanted) && policy.BestSubset? && Distance(vm, wanted) < best {
      EarlierGo(vms, vm, wanted, best);
    } else {
      EarlierStay(vms, vm, wanted, policy, best);
    }
  }

  lemma LeastGrows(vms: seq<VM>, vm: VM, wanted: set<string>, best: int)
    requires Least(vms, wanted, best)
    ensures Least(vms + [vm], wanted,
                  if Eligible(vm, wanted) && Distance(vm, wanted) <= best then Distance(vm, wanted) else best)
  {
    var all := vms + [vm];
    assert all[|vms|] == vm && forall i :: 0 <= i < |vms| ==> all[i] == vms[i];
  }

  /** What the loop's variables say about the VMs seen so far. */
  predicate Seen(vms: seq<VM>, wanted: set<string>, policy: Policy, matches: nat, best: int, r: Option<VM>) {
    && (forall i :: 0 <= i < |vms| ==> Distance(vms[i], wanted) <= MAX_INT)
    && (policy.BestSubset? ==> Least(vms, wanted, best))
    && matches == |Matching(vms, wanted, policy)|
    && (matches > 0 ==> r == Some(Matching(vms, wanted, policy)[matches - 1]))
  }

  lemma NothingSeen(wanted: set<string>, policy: Policy)
    ensures Seen([], wanted, policy, 0, MAX_INT, None)
  {
  }

  lemma SeenDecides(vms: seq<VM>, wanted: set<string>, policy: Policy, matches: nat, best: int, r: Option<VM>)
    requires Seen(vms, wanted, policy, matches, best, r)
    ensures var found := Matching(vms, wanted, policy);
            matches == |found| && (matches == 1 ==> r == Some(found[0]))
  {
  }

  lemma SeenGrows(vms: seq<VM>, vm: VM, wanted: set<string>, policy: Policy, matches: nat, best: int, r: Option<VM>,
                  took: bool, matches': nat, best': int)
    requires Seen(vms, wanted, policy, matches, best, r) && Distance(vm, wanted) <= MAX_INT
    requires took <==> Eligible(vm, wanted) && (policy.Exact? ==> Distance(vm, wanted) == 0)
                       && (policy.BestSubset? ==> Distance(vm, wanted) <= best)
    requires best' == if took && policy.BestSubset? then Distance(vm, wanted) else best
    requires matches' == if !took then matches else if best' < best then 1 else matches + 1
    ensures Seen(vms + [vm], wanted, policy, matches', best', if took then Some(vm) else r)
  {
    var before, after := Matching(vms, wanted, policy), Matching(vms + [vm], wanted, policy);
    ConsiderGrows(vms, vm, wanted, policy, best);
    assert after == if !took then before else if best' < best then [vm] else before + [vm];
    if policy.BestSubset? {
      LeastGrows(vms, vm, wanted, best);
    }
    assert forall i :: 0 <= i <= |vms| ==> (vms + [vm])[i] == if i < |vms| then vms[i] else vm;
  }

  method Turn(ghost vms: seq<VM>, vm: VM, compacted: seq<string>, policy: Policy, matches: nat, best: int, r: Option<VM>)
    returns (matches': nat, best': int, r': Option<VM>)
    requires |SetOf(compacted)| == |compacted| && |TagSet(vm.tags)| <= MAX_INT
    requires Seen(vms, SetOf(compacted), policy, matches, best, r)
    ensures Seen(vms + [vm], SetOf(compacted), policy, matches', best', r')
  {
    var took;
    took, matches', best' := Consider(vm, compacted, policy, matches, best);
    r' := if took then Some(vm) else r;
    SeenGrows(vms, vm, SetOf(compacted), policy, matches, best, r, took, matches', best');
  }

  /** The loop over the listing; None is any number of matches other than one. */
  method SearchTemplates(compacted: seq<string>, policy: Policy, vms: seq<VM>) returns (r: Option<VM>)
    requires |SetOf(compacted)| == |compacted|
    requires forall i :: 0 <= i < |vms| ==> |TagSet(vms[i].tags)| <= MAX_INT
    ensures var found := Matching(vms, SetOf(compacted), policy);
            r == if |found| == 1 then Some(found[0]) else None
  {
    var matches, best := 0, MAX_INT;
    r := None;
    ghost var seen, wanted := [], SetOf(compacted);
    NothingSeen(wanted, policy);
    for i := 0 to |vms|
      invariant seen == vms[..i] && Seen(seen, wanted, policy, matches, best, r)
    {
      matches, best, r := Turn(seen, vms[i], compacted, policy, matches, best, r);
      seen := seen + [vms[i]];
    }
    assert seen == vms;
    SeenDecides(vms, wanted, policy, matches, best, r);
    if matches != 1 {
      r := None;
    }
  }

  method FindVMTemplateByTags(tags: array<string>, policy: Policy, vms: seq<VM>) returns (r: Option<VM>)
    requires forall i :: 0 <= i < |vms| ==> |TagSet(vms[i].tags)| <= MAX_INT
    modifies tags
    ensures tags[..] == Normalized(old(tags[..]))
    ensures var found := Matching(vms, Wanted(old(tags[..])), policy);
            r == if |found| == 1 then Some(found[0]) else None
  {
    CompactedIsWanted(tags[..]);
    var compacted := NormalizeTags(tags);
    r := SearchTemplates(compacted, policy, vms);
  }

  // ---- the listing order does not matter ---------------------------------------------------------

  lemma {:induction false} SelectCounts(vms: seq<VM>, wanted: set<string>, policy: Policy, among: seq<VM>, vm: VM)
    ensures multiset(Select(vms, wanted, policy, among))[vm] ==
              if Matches(vm, wanted, policy, among) then multiset(vms)[vm] else 0
  {
    if vms != [] {
      var n := |vms| - 1;
      SelectCounts(vms[..n], wanted, policy, among, vm);
      AppendCounts(vms[..n], vms[n], vm);
      AppendCounts(Select(vms[..n], wanted, policy, among), vms[n], vm);
      assert vms == vms[..n] + [vms[n]];
    }
  }

  lemma AppendCounts(vms: seq<VM>, last: VM, vm: VM)
    ensures multiset(vms + [last])[vm] == multiset(vms)[vm] + if last == vm then 1 else 0
    ensures vms + [] == vms
  {
  }

  lemma MatchesIgnoresOrder(vm: VM, wanted: set<string>, policy: Policy, a: seq<VM>, b: seq<VM>)
    requires multiset(a) == multiset(b)
    ensures Matches(vm, wanted, policy, a) ==> Matches(vm, wanted, policy, b)
  {
    forall i | 0 <= i < |b| ensures b[i] in a {
      assert b[i] in multiset(b);
    }
  }

  /** The same template is found whatever the order in which Proxmox lists the VMs. */
  lemma ListingOrderIsIrrelevant(a: seq<VM>, b: seq<VM>, wanted: set<string>, policy: Policy)
    requires multiset(a) == multiset(b)
    ensures multiset(Matching(a, wanted, policy)) == multiset(Matching(b, wanted, policy))
    ensures |Matching(a, wanted, policy)| == |Matching(b, wanted, policy)|
    ensures |Matching(a, wanted, policy)| == 1 ==> Matching(a, wanted, policy) == Matching(b, wanted, policy)
  {
    var ma, mb := Matching(a, wanted, policy), Matching(b, wanted, policy);
    forall vm ensures multiset(ma)[vm] == multiset(mb)[vm] {
      SelectCounts(a, wanted, policy, a, vm);
      SelectCounts(b, wanted, policy, b, vm);
      MatchesIgnoresOrder(vm, wanted, policy, a, b);
      MatchesIgnoresOrder(vm, wanted, policy, b, a);
    }
    SameSizeAndHead(ma, mb);
  }

  lemma SameSizeAndHead(a: seq<VM>, b: seq<VM>)
    requires forall vm :: multiset(a)[vm] == multiset(b)[vm]
    ensures multiset(a) == multiset(b) && |a| == |b| && (|a| == 1 ==> a == b)
  {
    assert multiset(a) == multiset(b);
    assert |multiset(a)| == |a| && |multiset(b)| == |b|;
    if |a| == 1 {
      assert a[0] in multiset(b);
    }
  }
}
