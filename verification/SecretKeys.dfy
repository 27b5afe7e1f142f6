/** The managed-credentials annotation: a set of secret keys as one string. */
module SecretKeys {
  import opened Base
  import opened Strings
  import opened Zones

  predicate ValidKey(key: SecretKey) {
    && key.namespace != "" && ',' !in key.namespace && '/' !in key.namespace
    && key.name != "" && ',' !in key.name
  }

  function ItemOf(key: SecretKey): string { key.namespace + ['/'] + key.name }

  /** strings.Cut at the first slash; items without two parts are dropped. */
  function KeyOfItem(item: string): Option<SecretKey> {
    var i := IndexOf(item, '/');
    if i == |item| || i == 0 || i + 1 == |item| then None else Some(SecretKey(item[..i], item[i + 1..]))
  }

  function KeysOfItems(items: seq<string>): seq<SecretKey> {
    if items == [] then []
    else
      var last := KeyOfItem(items[|items| - 1]);
      KeysOfItems(items[..|items| - 1]) + if last.Some? then [last.value] else []
  }

  /** The keys an annotation tracks. */
  function Managed(annotation: string): seq<SecretKey> {
    if annotation == "" then [] else KeysOfItems(Split(annotation, ','))
  }

  method ManagedSecretKeys(annotation: string) returns (keys: seq<SecretKey>)
    ensures keys == Managed(annotation)
  {
    keys := [];
    if annotation == "" {
      return;
    }
    var items := Split(annotation, ',');
    for i := 0 to |items|
      invariant keys == KeysOfItems(items[..i])
    {
      assert items[..i + 1][..i] == items[..i];
      var key := KeyOfItem(items[i]);
      if key.None? {
        continue;
      }
      keys := keys + [key.value];
    }
    assert items[..|items|] == items;
  }

  // ---- decoding undoes encoding ------------------------------------------------------------------

  lemma ItemRoundTrip(key: SecretKey)
    requires ValidKey(key)
    ensures KeyOfItem(ItemOf(key)) == Some(key) && ',' !in ItemOf(key) && ItemOf(key) != ""
  {
    var item := ItemOf(key);
    assert item[|key.namespace|] == '/' && forall j :: 0 <= j < |key.namespace| ==> item[j] == key.namespace[j];
    assert IndexOf(item, '/') == |key.namespace|;
    assert item[..|key.namespace|] == key.namespace && item[|key.namespace| + 1..] == key.name;
  }

  lemma {:induction false} KeysOfItemsAre(items: seq<string>)
    ensures forall key :: key in KeysOfItems(items) <==> exists i :: 0 <= i < |items| && KeyOfItem(items[i]) == Some(key)
  {
    if items != [] {
      var n := |items| - 1;
      KeysOfItemsAre(items[..n]);
      forall key ensures key in KeysOfItems(items) <==> exists i :: 0 <= i < |items| && KeyOfItem(items[i]) == Some(key) {
        if key in KeysOfItems(items[..n]) {
          var i :| 0 <= i < n && KeyOfItem(items[..n][i]) == Some(key);
          assert KeyOfItem(items[i]) == Some(key);
        }
        if exists i :: 0 <= i < |items| && KeyOfItem(items[i]) == Some(key) {
          var i :| 0 <= i < |items| && KeyOfItem(items[i]) == Some(key);
          assert i < n ==> KeyOfItem(items[..n][i]) == Some(key);
        }
      }
    }
  }

  function Items(order: seq<SecretKey>): seq<string> {
    seq(|order|, i requires 0 <= i < |order| => ItemOf(order[i]))
  }

  /** The annotation value written for keys met in some order; "" is the deleted annotation. */
  function Encoded(order: seq<SecretKey>): string { Join(Sort(Items(order)), ',') }

  predicate AllValid(order: seq<SecretKey>) { forall i :: 0 <= i < |order| ==> ValidKey(order[i]) }

  lemma SortedItem(order: seq<SecretKey>, i: nat) returns (j: nat)
    requires i < |Sort(Items(order))|
    ensures j < |order| && Sort(Items(order))[i] == ItemOf(order[j])
  {
    SortSorts(Items(order));
    assert Sort(Items(order))[i] in Items(order);
    j :| 0 <= j < |order| && Items(order)[j] == Sort(Items(order))[i];
  }

  lemma JoinEmpty(parts: seq<string>, sep: char)
    requires parts != [] && parts[0] != ""
    ensures Join(parts, sep) != ""
  {
  }

  lemma EncodedSplits(order: seq<SecretKey>)
    requires AllValid(order) && order != []
    ensures Encoded(order) != "" && Split(Encoded(order), ',') == Sort(Items(order))
  {
    SortSorts(Items(order));
    var sorted := Sort(Items(order));
    forall i | 0 <= i < |sorted| ensures ',' !in sorted[i] && sorted[i] != "" {
      var j := SortedItem(order, i);
      ItemRoundTrip(order[j]);
    }
    JoinEmpty(sorted, ',');
    SplitJoin(sorted, ',');
  }

  lemma DecodedIff(order: seq<SecretKey>, key: SecretKey)
    requires AllValid(order)
    ensures key in order <==> exists i :: 0 <= i < |Sort(Items(order))| && KeyOfItem(Sort(Items(order))[i]) == Some(key)
  {
    SortSorts(Items(order));
    var sorted := Sort(Items(order));
    if key in order {
      var j :| 0 <= j < |order| && order[j] == key;
      assert Items(order)[j] in sorted;
      ItemRoundTrip(key);
    }
    forall i | 0 <= i < |sorted| && KeyOfItem(sorted[i]) == Some(key) ensures key in order {
      var j := SortedItem(order, i);
      ItemRoundTrip(order[j]);
    }
  }

  lemma RoundTrip(order: seq<SecretKey>)
    requires AllValid(order)
    ensures SetOf(Managed(Encoded(order))) == SetOf(order)
  {
    if order != [] {
      EncodedSplits(order);
      KeysOfItemsAre(Sort(Items(order)));
      forall key ensures key in Managed(Encoded(order)) <==> key in order {
        DecodedIff(order, key);
      }
    }
  }

  /** Only valid keys are ever decoded. */
  lemma ManagedIsValid(annotation: string, key: SecretKey)
    requires key in Managed(annotation)
    ensures ValidKey(key)
  {
    var items := Split(annotation, ',');
    SplitHasNoSeparator(annotation, ',');
    KeysOfItemsAre(items);
    var i :| 0 <= i < |items| && KeyOfItem(items[i]) == Some(key);
  }

  /** The codec round-trips a set of keys exactly if all of them are valid. */
  lemma CodecRoundTripsIff(order: seq<SecretKey>)
    ensures SetOf(Managed(Encoded(order))) == SetOf(order) <==> AllValid(order)
  {
    if AllValid(order) {
      RoundTrip(order);
    }
    if SetOf(Managed(Encoded(order))) == SetOf(order) {
      forall i | 0 <= i < |order| ensures ValidKey(order[i]) {
        assert order[i] in SetOf(order);
        ManagedIsValid(Encoded(order), order[i]);
      }
    }
  }

  /** setManagedSecretKeys: the map is met in an arbitrary order. */
  method SetManagedSecretKeys(keys: set<SecretKey>) returns (annotation: string)
    ensures (forall key :: key in keys ==> ValidKey(key)) <==> SetOf(Managed(annotation)) == keys
  {
    var order: seq<SecretKey>, items, rest := [], [], keys;
    while rest != {}
      invariant rest <= keys && SetOf(order) == keys - rest && items == Items(order)
      decreases |rest|
    {
      var key :| key in rest;
      SetOfAppend(order, key);
      order, items, rest := order + [key], items + [ItemOf(key)], rest - {key};
    }
    annotation := Join(Sort(items), ',');
    CodecRoundTripsIff(order);
    assert SetOf(order) == keys;
    assert AllValid(order) <==> forall key :: key in SetOf(order) ==> ValidKey(key);
  }

  // ---- the keys a cluster refers to --------------------------------------------------------------

  predicate Refers(ref: SecretRef) { ref.SecretRef? && ref.name != "" }

  /** Each key once, in order of first reference. */
  function KeysOf(namespace: string, refs: seq<SecretRef>): (keys: seq<SecretKey>)
    ensures Distinct(keys)
    ensures forall key :: key in keys <==> exists i :: 0 <= i < |refs| && Refers(refs[i]) && KeyOf(namespace, refs[i]) == key
  {
    if refs == [] then []
    else
      var n := |refs| - 1;
      var before := KeysOf(namespace, refs[..n]);
      assert forall i :: 0 <= i < n ==> refs[..n][i] == refs[i];
      if Refers(refs[n]) && KeyOf(namespace, refs[n]) !in before then before + [KeyOf(namespace, refs[n])] else before
  }

  /** The cluster-level reference, then those of the zones. */
  function Refs(clusterRef: SecretRef, zones: seq<ZoneConfig>): seq<SecretRef> {
    if zones == [] then [clusterRef] else Refs(clusterRef, zones[..|zones| - 1]) + [zones[|zones| - 1].credentials]
  }

  method CredentialsSecretKeys(namespace: string, clusterRef: SecretRef, zones: seq<ZoneConfig>)
    returns (keys: seq<SecretKey>)
    ensures keys == KeysOf(namespace, Refs(clusterRef, zones))
  {
    ghost var refs := [clusterRef];
    keys := AddKey([], namespace, clusterRef, []);
    for i := 0 to |zones|
      invariant refs == Refs(clusterRef, zones[..i]) && keys == KeysOf(namespace, refs)
    {
      keys := AddKey(keys, namespace, zones[i].credentials, refs);
      refs := refs + [zones[i].credentials];
      assert zones[..i + 1][..i] == zones[..i];
    }
    assert zones[..|zones|] == zones;
  }

  method AddKey(keys: seq<SecretKey>, namespace: string, ref: SecretRef, ghost refs: seq<SecretRef>)
    returns (keys': seq<SecretKey>)
    requires keys == KeysOf(namespace, refs)
    ensures keys' == KeysOf(namespace, refs + [ref])
  {
    assert (refs + [ref])[..|refs|] == refs;
    if ref.NoRef? || ref.name == "" {
      return keys;
    }
    var key := KeyOf(namespace, ref);
    if key in keys {
      return keys;
    }
    return keys + [key];
  }
}
