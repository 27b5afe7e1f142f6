/** The search for a free VM id in a configured range. */
module Vmids {
  import opened Machines

  datatype Search = Found(id: int) | CheckFailed | Exhausted

  /** Some machine holds the id, or Proxmox says it is taken. */
  predicate Skipped(used: seq<int>, check: int -> CheckId, id: int) {
    id in used || check(id).IdTaken?
  }

  /** id is the first of the range that is neither held nor taken. */
  ghost predicate FirstLeft(start: int, end: int, used: seq<int>, check: int -> CheckId, id: int) {
    start <= id <= end && !Skipped(used, check, id) && forall j :: start <= j < id ==> Skipped(used, check, j)
  }

  lemma OnlyFirstLeft(start: int, end: int, used: seq<int>, check: int -> CheckId, a: int, b: int)
    requires FirstLeft(start, end, used, check, a) && FirstLeft(start, end, used, check, b)
    ensures a == b
  {
  }

  method NextFreeVMID(start: int, end: int, used: seq<int>, check: int -> CheckId) returns (r: Search)
    ensures forall id :: r == Search.Found(id) <==> FirstLeft(start, end, used, check, id) && check(id).IdFree?
    ensures r == CheckFailed <==> exists id :: FirstLeft(start, end, used, check, id) && check(id).CheckError?
    ensures r == Exhausted <==> forall id :: start <= id <= end ==> Skipped(used, check, id)
  {
    var i := start;
    while i <= end
      invariant forall j :: start <= j < i && j <= end ==> Skipped(used, check, j)
    {
      if i in used {
        i := i + 1;
        continue;
      }
      match check(i) {
        case IdFree =>
          forall id | FirstLeft(start, end, used, check, id) ensures id == i {
            OnlyFirstLeft(start, end, used, check, id, i);
          }
          return Search.Found(i);
        case CheckError =>
          assert FirstLeft(start, end, used, check, i);
          return CheckFailed;
        case IdTaken =>
      }
      i := i + 1;
    }
    r := Exhausted;
  }
}
