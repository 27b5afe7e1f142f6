/** Adopting, tracking and releasing the credentials secrets of a cluster. */
module Credentials {
  import opened Base
  import opened Strings
  import opened Zones
  import opened SecretKeys

  /** ours: this cluster is an owner; others: how many other owners there are. */
  datatype Secret = Secret(ours: bool, others: nat, finalizer: bool)

  type Secrets = map<SecretKey, Secret>

  /** An API write succeeds, or fails with or without having taken effect. */
  datatype Outcome = Done | FailedBefore | FailedAfter

  // ---- one secret --------------------------------------------------------------------------------

  function AdoptSecret(s: Secret, sameNamespace: bool): Secret {
    s.(ours := s.ours || sameNamespace, finalizer := true)
  }

  function Owners(s: Secret): nat { s.others + if s.ours then 1 else 0 }

  /** Other owners keep the secret protected; the last one takes the finalizer, but not the ownerRef, off. */
  function ReleaseSecret(s: Secret, sameNamespace: bool): Secret {
    if Owners(s) > 1 then s.(ours := false)
    else if s.ours && s.finalizer then s.(finalizer := false)
    else if !sameNamespace && s.finalizer then s.(finalizer := false)
    else s
  }

  /** The finalizer stays on exactly a secret that has another owner, or that is local and not ours. */
  lemma ReleaseKeepsFinalizerIff(s: Secret, sameNamespace: bool)
    ensures ReleaseSecret(s, sameNamespace).finalizer <==>
            s.finalizer && (Owners(s) > 1 || (sameNamespace && !s.ours))
  {
  }

  function Adopt(secrets: Secrets, namespace: string, key: SecretKey, o: Outcome): Secrets {
    if key in secrets && o != FailedBefore then
      secrets[key := AdoptSecret(secrets[key], key.namespace == namespace)]
    else secrets
  }

  function Release(secrets: Secrets, namespace: string, key: SecretKey, o: Outcome): Secrets {
    if key in secrets && o != FailedBefore then
      secrets[key := ReleaseSecret(secrets[key], key.namespace == namespace)]
    else secrets
  }

  /** A missing secret cannot be adopted, but counts as released. */
  predicate AdoptFails(secrets: Secrets, key: SecretKey, o: Outcome) { key !in secrets || o != Done }

  predicate ReleaseFails(secrets: Secrets, key: SecretKey, o: Outcome) { key in secrets && o != Done }

  // ---- the reconciles ----------------------------------------------------------------------------

  datatype Released = Released(secrets: Secrets, tracked: set<SecretKey>)

  /** The first loop: stale keys are released, and stay tracked where that fails. */
  function ReleaseStale(secrets: Secrets, namespace: string, managed: seq<SecretKey>, current: set<SecretKey>,
                        outcome: SecretKey -> Outcome): Released
  {
    if managed == [] then Released(secrets, current)
    else
      var n := |managed| - 1;
      var r := ReleaseStale(secrets, namespace, managed[..n], current, outcome);
      var key := managed[n];
      if key in r.tracked then r
      else Released(Release(r.secrets, namespace, key, outcome(key)),
                    if ReleaseFails(r.secrets, key, outcome(key)) then r.tracked + {key} else r.tracked)
  }

  datatype Adopted = Adopted(secrets: Secrets, failed: bool)

  /** The second loop: it stops at a cluster secret that cannot be adopted. */
  function AdoptAll(secrets: Secrets, namespace: string, keys: seq<SecretKey>, clusterKey: Option<SecretKey>,
                    outcome: SecretKey -> Outcome): Adopted
  {
    if keys == [] then Adopted(secrets, false)
    else
      var n := |keys| - 1;
      var r := AdoptAll(secrets, namespace, keys[..n], clusterKey, outcome);
      if r.failed then r
      else Adopted(Adopt(r.secrets, namespace, keys[n], outcome(keys[n])),
                   AdoptFails(r.secrets, keys[n], outcome(keys[n])) && clusterKey == Some(keys[n]))
  }

  function ReleaseAll(secrets: Secrets, namespace: string, keys: seq<SecretKey>, outcome: SecretKey -> Outcome): Secrets {
    if keys == [] then secrets
    else
      var n := |keys| - 1;
      Release(ReleaseAll(secrets, namespace, keys[..n], outcome), namespace, keys[n], outcome(keys[n]))
  }

  predicate SomeReleaseFails(secrets: Secrets, keys: seq<SecretKey>, outcome: SecretKey -> Outcome) {
    exists i :: 0 <= i < |keys| && ReleaseFails(secrets, keys[i], outcome(keys[i]))
  }

  /** The tracked keys that are not referenced, in order. */
  function Unseen(managed: seq<SecretKey>, seen: set<SecretKey>): seq<SecretKey> {
    if managed == [] then []
    else
      var n := |managed| - 1;
      Unseen(managed[..n], seen) + if managed[n] in seen then [] else [managed[n]]
  }

  function NormalTracked(secrets: Secrets, spec: Spec, managed: seq<SecretKey>, release: SecretKey -> Outcome): set<SecretKey> {
    ReleaseStale(secrets, spec.namespace, managed, SetOf(spec.Current()), release).tracked
  }

  function NormalSecrets(secrets: Secrets, spec: Spec, managed: seq<SecretKey>,
                         release: SecretKey -> Outcome, adopt: SecretKey -> Outcome): Adopted
  {
    AdoptAll(ReleaseStale(secrets, spec.namespace, managed, SetOf(spec.Current()), release).secrets,
             spec.namespace, spec.Current(), spec.ClusterKey(), adopt)
  }

  function DeleteKeys(spec: Spec, managed: seq<SecretKey>): seq<SecretKey> {
    spec.Current() + Unseen(managed, SetOf(spec.Current()))
  }

  /** The parts of the ProxmoxCluster that name secrets. */
  datatype Spec = Spec(namespace: string, clusterRef: SecretRef, zones: seq<ZoneConfig>)
  {
    function Current(): seq<SecretKey> { KeysOf(namespace, Refs(clusterRef, zones)) }

    function ClusterKey(): Option<SecretKey> {
      if Refers(clusterRef) then Some(KeyOf(namespace, clusterRef)) else None
    }
  }

  /** The cluster's managed-credentials annotation, and the secrets as the API server holds them. */
  class ClusterReconciler {
    var annotation: string
    var secrets: Secrets

    method ReleaseCredentialsSecret(namespace: string, key: SecretKey, o: Outcome) returns (failed: bool)
      modifies this`secrets
      ensures secrets == Release(old(secrets), namespace, key, o) && failed == ReleaseFails(old(secrets), key, o)
    {
      if key !in secrets {
        return false;
      }
      var secret := secrets[key];
      if Owners(secret) > 1 {
        secret := secret.(ours := false);
      } else if secret.ours && secret.finalizer {
        secret := secret.(finalizer := false);
      } else if key.namespace != namespace && secret.finalizer {
        secret := secret.(finalizer := false);
      }
      if o != FailedBefore {
        secrets := secrets[key := secret];
      }
      return o != Done;
    }

    method AdoptCredentialsSecret(namespace: string, key: SecretKey, o: Outcome) returns (failed: bool)
      modifies this`secrets
      ensures secrets == Adopt(old(secrets), namespace, key, o) && failed == AdoptFails(old(secrets), key, o)
    {
      if key !in secrets {
        return true;
      }
      var secret := secrets[key];
      if key.namespace == namespace {
        secret := secret.(ours := true);
      }
      if !secret.finalizer {
        secret := secret.(finalizer := true);
      }
      if o != FailedBefore {
        secrets := secrets[key := secret];
      }
      return o != Done;
    }

    method ReleaseStaleSecrets(namespace: string, managed: seq<SecretKey>, current: set<SecretKey>, outcome: SecretKey -> Outcome)
      returns (tracked: set<SecretKey>)
      modifies this`secrets
      ensures Released(secrets, tracked) == ReleaseStale(old(secrets), namespace, managed, current, outcome)
    {
      tracked := current;
      for i := 0 to |managed|
        invariant Released(secrets, tracked) == ReleaseStale(old(secrets), namespace, managed[..i], current, outcome)
      {
        assert managed[..i + 1][..i] == managed[..i];
        if managed[i] in tracked {
          continue;
        }
        var failed := ReleaseCredentialsSecret(namespace, managed[i], outcome(managed[i]));
        if failed {
          tracked := tracked + {managed[i]};
        }
      }
      assert managed[..|managed|] == managed;
    }

    method AdoptSecrets(spec: Spec, keys: seq<SecretKey>, outcome: SecretKey -> Outcome) returns (failed: bool)
      modifies this`secrets
      ensures Adopted(secrets, failed) == AdoptAll(old(secrets), spec.namespace, keys, spec.ClusterKey(), outcome)
    {
      failed := false;
      var clusterKey := spec.ClusterKey();
      var i := 0;
      while i < |keys| && !failed
        invariant i <= |keys|
        invariant Adopted(secrets, failed) == AdoptAll(old(secrets), spec.namespace, keys[..i], clusterKey, outcome)
      {
        assert keys[..i + 1][..i] == keys[..i];
        var error := AdoptCredentialsSecret(spec.namespace, keys[i], outcome(keys[i]));
        failed := error && clusterKey == Some(keys[i]);
        i := i + 1;
      }
      AdoptStops(old(secrets), spec.namespace, keys, clusterKey, outcome, i);
    }

    /** What is tracked afterwards is written even when the cluster's own secret fails. */
    method ReconcileNormal(spec: Spec, release: SecretKey -> Outcome, adopt: SecretKey -> Outcome) returns (failed: bool)
      modifies this
      ensures Adopted(secrets, failed) == NormalSecrets(old(secrets), spec, Managed(old(annotation)), release, adopt)
      ensures var tracked := NormalTracked(old(secrets), spec, Managed(old(annotation)), release);
              (forall key :: key in tracked ==> ValidKey(key)) <==> SetOf(Managed(annotation)) == tracked
    {
      var current := CredentialsSecretKeys(spec.namespace, spec.clusterRef, spec.zones);
      var managed := ManagedSecretKeys(annotation);
      var tracked := ReleaseStaleSecrets(spec.namespace, managed, SetOf(current), release);
      failed := AdoptSecrets(spec, current, adopt);
      annotation := SetManagedSecretKeys(tracked);
    }

    /** Everything referenced or tracked is attempted before an error is reported. */
    method ReconcileDelete(spec: Spec, outcome: SecretKey -> Outcome) returns (failed: bool)
      modifies this`secrets
      ensures var keys := DeleteKeys(spec, Managed(annotation));
              && secrets == ReleaseAll(old(secrets), spec.namespace, keys, outcome)
              && failed == SomeReleaseFails(old(secrets), keys, outcome)
    {
      var keys := CredentialsSecretKeys(spec.namespace, spec.clusterRef, spec.zones);
      var seen := SetOf(keys);
      var managed := ManagedSecretKeys(annotation);
      for i := 0 to |managed|
        invariant keys == spec.Current() + Unseen(managed[..i], seen) && secrets == old(secrets)
      {
        assert managed[..i + 1][..i] == managed[..i];
        if managed[i] !in seen {
          keys := keys + [managed[i]];
        }
      }
      assert managed[..|managed|] == managed;
      failed := ReleaseAllSecrets(spec.namespace, keys, outcome);
    }

    method ReleaseAllSecrets(namespace: string, keys: seq<SecretKey>, outcome: SecretKey -> Outcome)
      returns (failed: bool)
      modifies this`secrets
      ensures secrets == ReleaseAll(old(secrets), namespace, keys, outcome)
      ensures failed == SomeReleaseFails(old(secrets), keys, outcome)
    {
      failed := false;
      for i := 0 to |keys|
        invariant secrets == ReleaseAll(old(secrets), namespace, keys[..i], outcome)
        invariant secrets.Keys == old(secrets).Keys
        invariant failed <==> exists j :: 0 <= j < i && ReleaseFails(old(secrets), keys[j], outcome(keys[j]))
      {
        assert keys[..i + 1][..i] == keys[..i];
        var error := ReleaseCredentialsSecret(namespace, keys[i], outcome(keys[i]));
        failed := failed || error;
      }
      assert keys[..|keys|] == keys;
    }
  }

  lemma {:induction false} AdoptStops(secrets: Secrets, namespace: string, keys: seq<SecretKey>,
                                      clusterKey: Option<SecretKey>, outcome: SecretKey -> Outcome, i: nat)
    requires i <= |keys| && (i == |keys| || AdoptAll(secrets, namespace, keys[..i], clusterKey, outcome).failed)
    ensures AdoptAll(secrets, namespace, keys, clusterKey, outcome) ==
            AdoptAll(secrets, namespace, keys[..i], clusterKey, outcome)
  {
    if i == |keys| {
      assert keys[..i] == keys;
    } else {
      var n := |keys| - 1;
      assert keys[..n][..i] == keys[..i];
      AdoptStops(secrets, namespace, keys[..n], clusterKey, outcome, i);
    }
  }

  // ---- what every reconcile keeps ----------------------------------------------------------------

  /** This cluster is the only owner, and owns what it has put its finalizer on in its own namespace. */
  predicate Sound(secrets: Secrets, namespace: string) {
    forall key :: key in secrets ==>
      secrets[key].others == 0 && (secrets[key].finalizer && key.namespace == namespace ==> secrets[key].ours)
  }

  predicate Bears(secrets: Secrets, key: SecretKey) { key in secrets && secrets[key].finalizer }

  /** Every secret bearing the finalizer is tracked. */
  ghost predicate Tracked(secrets: Secrets, tracked: set<SecretKey>) {
    forall key :: Bears(secrets, key) ==> key in tracked
  }

  lemma ReleaseTakesOff(secrets: Secrets, namespace: string, key: SecretKey, o: Outcome)
    requires Sound(secrets, namespace)
    ensures var after := Release(secrets, namespace, key, o);
            && Sound(after, namespace) && after.Keys == secrets.Keys
            && (forall k :: Bears(after, k) ==> Bears(secrets, k))
            && (Bears(after, key) ==> ReleaseFails(secrets, key, o))
  {
  }

  lemma AdoptPutsOn(secrets: Secrets, namespace: string, key: SecretKey, o: Outcome)
    requires Sound(secrets, namespace)
    ensures var after := Adopt(secrets, namespace, key, o);
            && Sound(after, namespace) && after.Keys == secrets.Keys
            && (forall k :: Bears(after, k) ==> Bears(secrets, k) || k == key)
            && (!AdoptFails(secrets, key, o) ==> Bears(after, key))
  {
  }

  lemma {:induction false} ReleaseStaleKeeps(secrets: Secrets, namespace: string, managed: seq<SecretKey>,
                                             current: set<SecretKey>, outcome: SecretKey -> Outcome)
    requires Sound(secrets, namespace)
    ensures var r := ReleaseStale(secrets, namespace, managed, current, outcome);
            && Sound(r.secrets, namespace) && r.secrets.Keys == secrets.Keys
            && current <= r.tracked <= current + SetOf(managed)
            && (forall key :: Bears(r.secrets, key) ==> Bears(secrets, key) && (key in managed ==> key in r.tracked))
  {
    if managed != [] {
      var n := |managed| - 1;
      ReleaseStaleKeeps(secrets, namespace, managed[..n], current, outcome);
      var r := ReleaseStale(secrets, namespace, managed[..n], current, outcome);
      assert managed == managed[..n] + [managed[n]];
      SetOfAppend(managed[..n], managed[n]);
      ReleaseTakesOff(r.secrets, namespace, managed[n], outcome(managed[n]));
    }
  }

  lemma {:induction false} AdoptAllKeeps(secrets: Secrets, namespace: string, keys: seq<SecretKey>,
                                         clusterKey: Option<SecretKey>, outcome: SecretKey -> Outcome)
    requires Sound(secrets, namespace)
    ensures var r := AdoptAll(secrets, namespace, keys, clusterKey, outcome);
            && Sound(r.secrets, namespace) && r.secrets.Keys == secrets.Keys
            && (forall key :: Bears(r.secrets, key) ==> Bears(secrets, key) || key in keys)
  {
    if keys != [] {
      var n := |keys| - 1;
      AdoptAllKeeps(secrets, namespace, keys[..n], clusterKey, outcome);
      var r := AdoptAll(secrets, namespace, keys[..n], clusterKey, outcome);
      assert keys == keys[..n] + [keys[n]];
      AdoptPutsOn(r.secrets, namespace, keys[n], outcome(keys[n]));
    }
  }

  /** Whatever fails, and even when the cluster's own secret ends the reconcile early. */
  lemma NormalKeepsTracking(secrets: Secrets, spec: Spec, managed: seq<SecretKey>,
                            release: SecretKey -> Outcome, adopt: SecretKey -> Outcome)
    requires Sound(secrets, spec.namespace) && Tracked(secrets, SetOf(managed))
    ensures var after := NormalSecrets(secrets, spec, managed, release, adopt).secrets;
            Sound(after, spec.namespace) && Tracked(after, NormalTracked(secrets, spec, managed, release))
  {
    var current := spec.Current();
    ReleaseStaleKeeps(secrets, spec.namespace, managed, SetOf(current), release);
    var r := ReleaseStale(secrets, spec.namespace, managed, SetOf(current), release);
    AdoptAllKeeps(r.secrets, spec.namespace, current, spec.ClusterKey(), adopt);
    forall key | Bears(AdoptAll(r.secrets, spec.namespace, current, spec.ClusterKey(), adopt).secrets, key)
      ensures key in r.tracked
    {
      if key in current {
        assert key in SetOf(current);
      } else {
        assert key in SetOf(managed);
      }
    }
  }

  lemma {:induction false} StillTracked(secrets: Secrets, namespace: string, managed: seq<SecretKey>,
                                        current: set<SecretKey>, outcome: SecretKey -> Outcome, key: SecretKey)
    requires key in ReleaseStale(secrets, namespace, managed, current, outcome).tracked
    ensures key in current || outcome(key) != Done
  {
    if managed != [] {
      var n := |managed| - 1;
      if key in ReleaseStale(secrets, namespace, managed[..n], current, outcome).tracked {
        StillTracked(secrets, namespace, managed[..n], current, outcome, key);
      }
    }
  }

  /** Adoption fails exactly at the cluster's own secret; short of that every adopted secret bears the finalizer. */
  lemma {:induction false} AdoptAllBears(secrets: Secrets, namespace: string, keys: seq<SecretKey>,
                                         clusterKey: Option<SecretKey>, outcome: SecretKey -> Outcome)
    ensures var r := AdoptAll(secrets, namespace, keys, clusterKey, outcome);
            && r.secrets.Keys == secrets.Keys
            && (r.failed <==> clusterKey.Some? && clusterKey.value in keys
                              && (clusterKey.value !in secrets || outcome(clusterKey.value) != Done))
            && (!r.failed ==> forall key :: key in keys && key in secrets && outcome(key) == Done ==> Bears(r.secrets, key))
            && (forall key :: Bears(secrets, key) ==> Bears(r.secrets, key))
  {
    if keys != [] {
      var n := |keys| - 1;
      AdoptAllBears(secrets, namespace, keys[..n], clusterKey, outcome);
      assert keys == keys[..n] + [keys[n]];
    }
  }

  /**
   * Unless the cluster's own secret is missing or fails, a reconcile leaves the finalizer on every secret it refers
   * to and could adopt, and off every tracked one it no longer refers to and could release.
   */
  lemma NormalSettles(secrets: Secrets, spec: Spec, managed: seq<SecretKey>,
                      release: SecretKey -> Outcome, adopt: SecretKey -> Outcome)
    requires Sound(secrets, spec.namespace)
    ensures var r := NormalSecrets(secrets, spec, managed, release, adopt);
            var own := spec.ClusterKey();
            && (r.failed <==> own.Some? && own.value in spec.Current() && (own.value !in secrets || adopt(own.value) != Done))
            && (!r.failed ==> forall key :: key in spec.Current() && key in secrets && adopt(key) == Done ==> Bears(r.secrets, key))
            && (forall key :: key in managed && key !in spec.Current() && release(key) == Done ==> !Bears(r.secrets, key))
  {
    var current := spec.Current();
    var r := ReleaseStale(secrets, spec.namespace, managed, SetOf(current), release);
    ReleaseStaleKeeps(secrets, spec.namespace, managed, SetOf(current), release);
    AdoptAllBears(r.secrets, spec.namespace, current, spec.ClusterKey(), adopt);
    AdoptAllKeeps(r.secrets, spec.namespace, current, spec.ClusterKey(), adopt);
    forall key | key in managed && key !in current && release(key) == Done ensures !Bears(r.secrets, key) {
      if key in r.tracked {
        StillTracked(secrets, spec.namespace, managed, SetOf(current), release, key);
      }
    }
  }

  lemma {:induction false} ReleaseAllTakesOff(secrets: Secrets, namespace: string, keys: seq<SecretKey>,
                                              outcome: SecretKey -> Outcome)
    requires Sound(secrets, namespace)
    ensures var after := ReleaseAll(secrets, namespace, keys, outcome);
            && Sound(after, namespace) && after.Keys == secrets.Keys
            && (forall key :: Bears(after, key) ==> Bears(secrets, key) && (key in keys ==> outcome(key) != Done))
  {
    if keys != [] {
      var n := |keys| - 1;
      ReleaseAllTakesOff(secrets, namespace, keys[..n], outcome);
      assert keys == keys[..n] + [keys[n]];
      ReleaseTakesOff(ReleaseAll(secrets, namespace, keys[..n], outcome), namespace, keys[n], outcome(keys[n]));
    }
  }

  lemma {:induction false} UnseenAre(managed: seq<SecretKey>, seen: set<SecretKey>, key: SecretKey)
    ensures key in Unseen(managed, seen) <==> key in managed && key !in seen
  {
    if managed != [] {
      var n := |managed| - 1;
      UnseenAre(managed[..n], seen, key);
      assert managed == managed[..n] + [managed[n]];
    }
  }

  /** A deletion without error leaves no secret bearing the finalizer; one with errors loses track of none. */
  lemma DeleteReleasesAll(secrets: Secrets, spec: Spec, managed: seq<SecretKey>, outcome: SecretKey -> Outcome)
    requires Sound(secrets, spec.namespace) && Tracked(secrets, SetOf(managed))
    ensures var keys := DeleteKeys(spec, managed); var after := ReleaseAll(secrets, spec.namespace, keys, outcome);
            && Sound(after, spec.namespace) && Tracked(after, SetOf(managed))
            && (!SomeReleaseFails(secrets, keys, outcome) ==> forall key :: !Bears(after, key))
  {
    var keys := DeleteKeys(spec, managed);
    ReleaseAllTakesOff(secrets, spec.namespace, keys, outcome);
    var after := ReleaseAll(secrets, spec.namespace, keys, outcome);
    forall key | Bears(after, key) ensures SomeReleaseFails(secrets, keys, outcome) {
      assert key in SetOf(managed);
      UnseenAre(managed, SetOf(spec.Current()), key);
      assert key in keys;
      var i :| 0 <= i < |keys| && keys[i] == key;
      assert ReleaseFails(secrets, keys[i], outcome(keys[i]));
    }
  }

  // ---- runs --------------------------------------------------------------------------------------

  datatype World = World(secrets: Secrets, annotation: string)

  /** Reconciles under any spec and any API outcomes; users create and remove secrets in between. */
  datatype Event =
    | Normal(spec: Spec, release: SecretKey -> Outcome, adopt: SecretKey -> Outcome)
    | Delete(spec: Spec, outcome: SecretKey -> Outcome)
    | Create(key: SecretKey)
    | Vanish(key: SecretKey)

  ghost predicate Moves(namespace: string, w: World, e: Event, w': World) {
    match e
    case Normal(spec, release, adopt) =>
      var managed := Managed(w.annotation);
      var tracked := NormalTracked(w.secrets, spec, managed, release);
      && spec.namespace == namespace && AllValid(spec.Current())
      && w'.secrets == NormalSecrets(w.secrets, spec, managed, release, adopt).secrets
      && ((forall key :: key in tracked ==> ValidKey(key)) <==> SetOf(Managed(w'.annotation)) == tracked)
    case Delete(spec, outcome) =>
      && spec.namespace == namespace
      && w' == w.(secrets := ReleaseAll(w.secrets, namespace, DeleteKeys(spec, Managed(w.annotation)), outcome))
    case Create(key) => key !in w.secrets && w' == w.(secrets := w.secrets[key := Secret(false, 0, false)])
    case Vanish(key) => w' == w.(secrets := w.secrets - {key})
  }

  ghost predicate Safe(namespace: string, w: World) {
    Sound(w.secrets, namespace) && Tracked(w.secrets, SetOf(Managed(w.annotation)))
  }

  lemma MoveIsSafe(namespace: string, w: World, e: Event, w': World)
    requires Safe(namespace, w) && Moves(namespace, w, e, w')
    ensures Safe(namespace, w')
  {
    match e {
      case Normal(spec, release, adopt) =>
        var managed := Managed(w.annotation);
        NormalKeepsTracking(w.secrets, spec, managed, release, adopt);
        TrackedIsValid(w.secrets, spec, w.annotation, release);
      case Delete(spec, outcome) => DeleteReleasesAll(w.secrets, spec, Managed(w.annotation), outcome);
      case Create(key) =>
        forall k | Bears(w'.secrets, k) ensures k in SetOf(Managed(w'.annotation)) { assert Bears(w.secrets, k); }
      case Vanish(key) =>
        forall k | Bears(w'.secrets, k) ensures k in SetOf(Managed(w'.annotation)) { assert Bears(w.secrets, k); }
    }
  }

  lemma TrackedIsValid(secrets: Secrets, spec: Spec, annotation: string, release: SecretKey -> Outcome)
    requires Sound(secrets, spec.namespace) && AllValid(spec.Current())
    ensures forall key :: key in NormalTracked(secrets, spec, Managed(annotation), release) ==> ValidKey(key)
  {
    ReleaseStaleKeeps(secrets, spec.namespace, Managed(annotation), SetOf(spec.Current()), release);
    forall key | key in NormalTracked(secrets, spec, Managed(annotation), release) ensures ValidKey(key) {
      if key in spec.Current() {
        var i :| 0 <= i < |spec.Current()| && spec.Current()[i] == key;
      } else {
        assert key in SetOf(Managed(annotation));
        ManagedIsValid(annotation, key);
      }
    }
  }

  /** Over any run no finalizer is ever left on a secret the cluster has lost track of. */
  lemma {:induction false} NoFinalizerIsForgotten(namespace: string, ws: seq<World>, es: seq<Event>, n: nat)
    requires |ws| == |es| + 1 && n < |ws| && Safe(namespace, ws[0])
    requires forall i :: 0 <= i < |es| ==> Moves(namespace, ws[i], es[i], ws[i + 1])
    ensures Safe(namespace, ws[n])
    decreases n
  {
    if n > 0 {
      NoFinalizerIsForgotten(namespace, ws, es, n - 1);
      MoveIsSafe(namespace, ws[n - 1], es[n - 1], ws[n]);
    }
  }
}
