/** The IPAM claim loop: when it errs, when it asks to be called again, and when addresses are published. */
module Claims {
  import opened Machines
  import opened Stages

  /** The loop cannot go past the claim. */
  predicate Breaks(c: Claim) {
    c.ClaimUnresolvable? || c == ClaimMissing(false)
  }

  /** The claims before the first that breaks the loop. */
  function Handled(claims: seq<Claim>): seq<Claim> {
    if claims == [] || Breaks(claims[0]) then [] else [claims[0]] + Handled(claims[1..])
  }

  lemma {:induction false} HandledIs(claims: seq<Claim>)
    ensures Handled(claims) <= claims && (forall c :: c in Handled(claims) ==> !Breaks(c))
    ensures Handled(claims) == claims || Breaks(claims[|Handled(claims)|])
  {
    if claims != [] && !Breaks(claims[0]) {
      HandledIs(claims[1..]);
      var rest := Handled(claims[1..]);
      assert claims == [claims[0]] + claims[1..];
      assert forall i :: 0 <= i < |rest| ==> rest[i] == claims[i + 1];
    }
  }

  /**
   * The loop errs exactly if some claim breaks it, and asks for a requeue exactly if it errs or a claim it handled is
   * not resolved; only a conflict it handled writes the reason.
   */
  lemma {:induction false} LoopIs(conflict: bool, requeue: bool, claims: seq<Claim>)
    ensures var c := HandleClaims(conflict, requeue, claims);
            && (c.err <==> exists i :: 0 <= i < |claims| && Breaks(claims[i]))
            && (c.requeue <==> c.err || requeue || exists i :: 0 <= i < |Handled(claims)| && Handled(claims)[i] != ClaimResolved)
            && (c.conflict <==> conflict || exists i :: 0 <= i < |Handled(claims)| && Handled(claims)[i] == ClaimConflict)
    decreases |claims|
  {
    if claims != [] && !Breaks(claims[0]) {
      var first, rest := claims[0], claims[1..];
      LoopIs(conflict || first == ClaimConflict, requeue || first != ClaimResolved, rest);
      assert forall i :: 0 <= i < |rest| ==> rest[i] == claims[i + 1];
      assert Handled(claims)[0] == first;
      assert forall i :: 0 <= i < |Handled(rest)| ==> Handled(rest)[i] == Handled(claims)[i + 1];
    }
  }

  lemma {:induction false} TagsAccepted(s: Scope, heads: seq<PoolHead>)
    ensures TagLoop(s, heads).verdict ==
              if forall i :: 0 <= i < |heads| && heads[i].NeedsTag() ==> heads[i].tag.TaskRef? then Continue else Failed
    ensures TagLoop(s, heads).s.m.reason == s.m.reason
    decreases |heads|
  {
    if heads != [] {
      var rest := heads[1..];
      assert forall i :: 0 <= i < |rest| ==> rest[i] == heads[i + 1];
      if !heads[0].NeedsTag() {
        TagsAccepted(s, rest);
      } else if heads[0].tag.TaskRef? {
        TagsAccepted(Scope(s.m.(taskRef := heads[0].tag), Log(s.log, Tagged(s.m.vmid, heads[0].tag.id))), rest);
      }
    }
  }

  /** Every claim of the machine is resolved. */
  predicate AllResolved(net: NetObs) {
    !net.poolsErr && forall i :: 0 <= i < |net.claims| ==> net.claims[i] == ClaimResolved
  }

  /**
   * Addresses are published exactly if the machine has no network of its own, or all its claims are resolved and
   * Proxmox takes every tag that is due. A single conflict, or a claim still pending, keeps them back and leaves
   * the machine as it is.
   */
  lemma {:induction false} PublishedIff(s: Scope, o: Obs)
    requires s.m.reason.WaitingForStaticIPAllocation?
    ensures var t := IPStage(s, o);
            && (t.s.m.reason.WaitingForBootstrapDataReconciliation? <==>
                  o.net.present ==>
                    AllResolved(o.net)
                    && forall i :: 0 <= i < |o.net.heads| && o.net.heads[i].NeedsTag() ==> o.net.heads[i].tag.TaskRef?)
            && (o.net.present && !AllResolved(o.net) ==> t.s == s && !t.verdict.Continue?)
  {
    if o.net.present {
      LoopIs(false, false, o.net.claims);
      HandledIs(o.net.claims);
      var c := HandleDevices(o.net);
      assert c.err || c.requeue <==> !AllResolved(o.net);
      TagsAccepted(s, o.net.heads);
    }
  }
}
