/** When a manifest is accepted and what is stored then, told by its five lists and the store, without the plan. */
module ManifestApplies {
  import opened Common
  import opened Registry

  /** The lists hold objects of their kind, as the manifest's schema demands. */
  predicate WellTyped(m: Manifest) {
    && PlainOnes(m.entities, EntityKind) && PlainOnes(m.batchSources, BatchSourceKind)
    && PlainOnes(m.streamSources, StreamSourceKind)
    && (forall o | o in m.views :: o.key.kind == ViewKind && o.spec.ViewSpec?)
    && (forall o | o in m.services :: o.key.kind == ServiceKind && o.spec.ServiceSpec?)
  }

  predicate PlainOnes(objects: seq<Object>, kind: Kind) {
    forall o | o in objects :: o.key == Key(kind, o.key.name, "") && o.spec.PlainSpec?
  }

  predicate InManifest(m: Manifest, o: Object) {
    o in m.entities || o in m.batchSources || o in m.streamSources || o in m.views || o in m.services
  }

  /** No list gives one key twice, unless that key is stored already. */
  predicate NoNewKeyTwice(store: Store, objects: seq<Object>) {
    forall i, j | 0 <= i < j < |objects| && objects[i].key == objects[j].key :: objects[i].key in store
  }

  predicate NamedBy(store: Store, objects: seq<Object>, kind: Kind, name: string) {
    Key(kind, name, "") in store || exists o :: o in objects && o.key == Key(kind, name, "")
  }

  /** The view the reference names is stored or in the manifest, and has the feature. */
  predicate RefKnown(store: Store, m: Manifest, ref: FeatureRef) {
    var key := Key(ViewKind, ref.view, ref.version);
    || (key in store && store[key].ViewSpec? && ref.feature in store[key].features)
    || (exists o :: o in m.views && o.key == key && o.spec.ViewSpec? && ref.feature in o.spec.features)
  }

  predicate ViewKnown(store: Store, m: Manifest, spec: Spec)
    requires spec.ViewSpec?
  {
    && NamedBy(store, m.entities, EntityKind, spec.entity)
    && NamedBy(store, m.batchSources, BatchSourceKind, spec.batch)
    && (spec.stream.Some? && spec.stream.value != "" ==>
          NamedBy(store, m.streamSources, StreamSourceKind, spec.stream.value))
  }

  /**
   * A manifest goes through: nothing stored changes, no list creates a key twice, and every reference leads to
   * something that is stored or in the manifest, wherever in its list it stands.
   */
  ghost predicate GoesThrough(store: Store, m: Manifest) {
    && (forall o | InManifest(m, o) && o.key in store :: store[o.key] == o.spec)
    && NoNewKeyTwice(store, m.entities) && NoNewKeyTwice(store, m.batchSources)
    && NoNewKeyTwice(store, m.streamSources) && NoNewKeyTwice(store, m.views) && NoNewKeyTwice(store, m.services)
    && (forall o | o in m.views :: o.spec.ViewSpec? && ViewKnown(store, m, o.spec))
    && (forall o | o in m.services :: o.spec.ServiceSpec? && forall ref | ref in o.spec.refs :: RefKnown(store, m, ref))
  }

  // ---- the lists in one sequence -----------------------------------------------------------------------------

  /** Where an object of the sequence comes from: a list, and a place in it. */
  lemma Places(m: Manifest, k: nat)
    requires k < |Objects(m)|
    ensures var a := |m.entities|; var b := a + |m.batchSources|; var c := b + |m.streamSources|;
            var d := c + |m.views|;
            Objects(m)[k] == if k < a then m.entities[k] else if k < b then m.batchSources[k - a]
                             else if k < c then m.streamSources[k - b] else if k < d then m.views[k - c]
                             else m.services[k - d]
    ensures InManifest(m, Objects(m)[k])
  {}

  lemma PlacesOf(m: Manifest, o: Object)
    ensures InManifest(m, o) <==> o in Objects(m)
  {}

  /** Nothing stored changes and no new key comes twice. */
  ghost predicate Consistent(store: Store, objects: seq<Object>) {
    && (forall k | 0 <= k < |objects| && objects[k].key in store :: store[objects[k].key] == objects[k].spec)
    && NoNewKeyTwice(store, objects)
  }

  /** What was stored and every object of the sequence, as given. */
  ghost predicate Offers(available: Store, store: Store, objects: seq<Object>) {
    && Includes(available, store)
    && (forall o | o in objects :: o.key in available && available[o.key] == o.spec)
    && (forall key | key in available :: key in store || exists o :: o in objects && o.key == key)
  }

  lemma OffersMore(available: Store, store: Store, objects: seq<Object>, last: Object)
    requires Offers(available, store, objects) && (last.key in store ==> store[last.key] == last.spec)
    requires forall o | o in objects && o.key == last.key :: o.spec == last.spec
    ensures Offers(available[last.key := last.spec], store, objects + [last])
  {
    var next := available[last.key := last.spec];
    forall key | key in next ensures key in store || exists o :: o in objects + [last] && o.key == key {
      if key == last.key {
        assert last in objects + [last];
      } else if key !in store {
        var o :| o in objects && o.key == key;
        assert o in objects + [last];
      }
    }
  }

  /** While nothing is rejected, what is available is exactly what is stored and what has been planned. */
  lemma {:induction false} AvailableExactly(store: Store, objects: seq<Object>)
    requires Consistent(store, objects) && NoneRejected(PlanOf(store, objects))
    ensures Offers(AvailableAfter(store, objects), store, objects)
  {
    if objects != [] {
      var n := |objects| - 1;
      PrefixPlan(store, objects, n);
      AvailableExactly(store, objects[..n]);
      PlanAt(store, objects, n);
      SameSpec(store, objects, n);
      OffersMore(AvailableAfter(store, objects[..n]), store, objects[..n], objects[n]);
      assert objects == objects[..n] + [objects[n]];
    }
  }

  lemma SameSpec(store: Store, objects: seq<Object>, n: nat)
    requires Consistent(store, objects) && n < |objects|
    ensures forall o | o in objects[..n] && o.key == objects[n].key :: o.spec == objects[n].spec
  {
    forall o | o in objects[..n] && o.key == objects[n].key ensures o.spec == objects[n].spec {
      var j :| 0 <= j < n && objects[j] == o;
    }
  }

  lemma PrefixPlan(store: Store, objects: seq<Object>, n: nat)
    requires n <= |objects| && Consistent(store, objects) && NoneRejected(PlanOf(store, objects))
    ensures Consistent(store, objects[..n]) && NoneRejected(PlanOf(store, objects[..n]))
  {
    forall k | 0 <= k < n ensures PlanOf(store, objects[..n])[k].status != Rejected {
      PlanAt(store, objects, k);
      PlanAt(store, objects[..n], k);
      assert objects[..n][..k] == objects[..k];
    }
  }

  lemma {:induction false} NoneRejectedMore(store: Store, objects: seq<Object>, n: nat)
    requires n < |objects| && NoneRejected(PlanOf(store, objects[..n]))
    requires ItemOf(store, AvailableAfter(store, objects[..n]), objects[n]).status != Rejected
    ensures NoneRejected(PlanOf(store, objects[..n + 1]))
  {
    PlanStep(store, objects, n);
  }

  // ---- from the lists to the plan ------------------------------------------------------------------------------

  lemma SequenceConsistent(store: Store, m: Manifest)
    requires WellTyped(m) && GoesThrough(store, m)
    ensures Consistent(store, Objects(m))
  {
    var objects := Objects(m);
    forall k | 0 <= k < |objects| ensures InManifest(m, objects[k]) { Places(m, k); }
    forall i, j | 0 <= i < j < |objects| && objects[i].key == objects[j].key ensures objects[i].key in store {
      Places(m, i);
      Places(m, j);
    }
  }

  /** What the k-th object refers to has been available before its turn. */
  lemma ResolvedByThen(store: Store, m: Manifest, k: nat)
    requires WellTyped(m) && Closed(store) && GoesThrough(store, m) && k < |Objects(m)|
    requires NoneRejected(PlanOf(store, Objects(m)[..k])) && Consistent(store, Objects(m)[..k])
    ensures Resolves(AvailableAfter(store, Objects(m)[..k]), Objects(m)[k].spec)
  {
    var objects := Objects(m);
    var available, o := AvailableAfter(store, objects[..k]), objects[k];
    AvailableExactly(store, objects[..k]);
    Places(m, k);
    var views := |m.entities| + |m.batchSources| + |m.streamSources|;
    if o.spec.ViewSpec? {
      assert o in m.views;
      forall e | e in m.entities || e in m.batchSources || e in m.streamSources ensures e.key in available {
        var i := EarlierPlain(m, k, e);
      }
    } else if o.spec.ServiceSpec? {
      assert o in m.services;
      forall ref | ref in o.spec.refs ensures RefResolves(available, ref) {
        ServiceResolves(store, m, k, ref);
      }
    }
  }

  lemma EarlierPlain(m: Manifest, k: nat, e: Object) returns (i: nat)
    requires |m.entities| + |m.batchSources| + |m.streamSources| <= k < |Objects(m)|
    requires e in m.entities || e in m.batchSources || e in m.streamSources
    ensures i < k && Objects(m)[..k][i] == e
  {
    if e in m.entities {
      i :| 0 <= i < |m.entities| && m.entities[i] == e;
    } else if e in m.batchSources {
      var j :| 0 <= j < |m.batchSources| && m.batchSources[j] == e;
      i := |m.entities| + j;
    } else {
      var j :| 0 <= j < |m.streamSources| && m.streamSources[j] == e;
      i := |m.entities| + |m.batchSources| + j;
    }
    Places(m, i);
  }

  lemma ServiceResolves(store: Store, m: Manifest, k: nat, ref: FeatureRef)
    requires WellTyped(m) && RefKnown(store, m, ref) && k < |Objects(m)| && Objects(m)[k] in m.services
    requires NoneRejected(PlanOf(store, Objects(m)[..k])) && Consistent(store, Objects(m)[..k])
    ensures RefResolves(AvailableAfter(store, Objects(m)[..k]), ref)
  {
    AvailableExactly(store, Objects(m)[..k]);
    if o :| o in m.views && o.key == ViewKey(ref) && o.spec.ViewSpec? && ref.feature in o.spec.features {
      EarlierView(m, k, o);
    }
  }

  lemma EarlierView(m: Manifest, k: nat, o: Object)
    requires WellTyped(m) && k < |Objects(m)| && Objects(m)[k] in m.services && o in m.views
    ensures o in Objects(m)[..k]
  {
    var views := |m.entities| + |m.batchSources| + |m.streamSources|;
    var j :| 0 <= j < |m.views| && m.views[j] == o;
    Places(m, k);
    Places(m, views + j);
    assert Objects(m)[..k][views + j] == o;
  }

  lemma {:induction false} NothingRejected(store: Store, m: Manifest, k: nat)
    requires WellTyped(m) && Closed(store) && GoesThrough(store, m) && k <= |Objects(m)|
    ensures NoneRejected(PlanOf(store, Objects(m)[..k])) && Consistent(store, Objects(m)[..k])
  {
    var objects := Objects(m);
    SequenceConsistent(store, m);
    if k > 0 {
      NothingRejected(store, m, k - 1);
      NextAdmitted(store, m, k - 1);
      NoneRejectedMore(store, objects, k - 1);
      PrefixConsistent(store, objects, k);
    } else {
      PrefixConsistent(store, objects, 0);
    }
  }

  lemma NextAdmitted(store: Store, m: Manifest, k: nat)
    requires WellTyped(m) && Closed(store) && GoesThrough(store, m) && k < |Objects(m)|
    requires NoneRejected(PlanOf(store, Objects(m)[..k])) && Consistent(store, Objects(m)[..k])
    ensures ItemOf(store, AvailableAfter(store, Objects(m)[..k]), Objects(m)[k]).status != Rejected
  {
    ResolvedByThen(store, m, k);
    Places(m, k);
    AdmittedExactly(store, AvailableAfter(store, Objects(m)[..k]), Objects(m)[k]);
  }

  lemma PrefixConsistent(store: Store, objects: seq<Object>, n: nat)
    requires n <= |objects| && Consistent(store, objects)
    ensures Consistent(store, objects[..n])
  {}

  /** New keys that come once are created once. */
  lemma {:induction false} CreatedOnce(store: Store, objects: seq<Object>)
    requires Consistent(store, objects)
    ensures DistinctKeys(ToCreate(store, objects))
  {
    if objects != [] {
      var n := |objects| - 1;
      var init := objects[..n];
      CreatedOnce(store, init);
      var items := PlanOf(store, objects);
      assert items[..n] == PlanOf(store, init);
      CreatedAreNew(store, init);
      PlanAt(store, objects, n);
      forall o | o in ToCreate(store, init) ensures items[n].status == Created ==> o.key != objects[n].key {
        var j :| 0 <= j < n && init[j] == o;
        assert objects[j] == o;
      }
    }
  }

  // ---- and back ------------------------------------------------------------------------------------------------

  /** What an accepted sequence leaves: what was stored, and every object of the sequence. */
  lemma StoredExactly(store: Store, objects: seq<Object>)
    requires Accepts(store, objects)
    ensures Includes(Applied(store, objects), store)
    ensures forall o | o in objects ::
              o.key in Applied(store, objects) && Applied(store, objects)[o.key] == o.spec
    ensures forall key | key in Applied(store, objects) ::
              key in store || exists o :: o in objects && o.key == key
  {
    ApplyOnlyAdds(store, objects);
    CreatedAreNew(store, objects);
    AddAllIncludes(store, ToCreate(store, objects));
    forall o | o in objects ensures o.key in Applied(store, objects) && Applied(store, objects)[o.key] == o.spec {
      var k :| 0 <= k < |objects| && objects[k] == o;
      AcceptedIsStored(store, objects, k);
    }
  }

  lemma AcceptedOnce(store: Store, objects: seq<Object>)
    requires Accepts(store, objects)
    ensures Consistent(store, objects)
  {
    forall k | 0 <= k < |objects| && objects[k].key in store ensures store[objects[k].key] == objects[k].spec {
      PlanAt(store, objects, k);
      AdmittedExactly(store, AvailableAfter(store, objects[..k]), objects[k]);
    }
    forall i, j | 0 <= i < j < |objects| && objects[i].key == objects[j].key ensures objects[i].key in store {
      if objects[i].key !in store { RepeatedKeyIsRefused(store, objects, i, j); }
    }
  }

  /** A list of the manifest, as a stretch of the sequence. */
  lemma StretchOnce(store: Store, objects: seq<Object>, before: seq<Object>, list: seq<Object>, after: seq<Object>)
    requires objects == before + list + after && NoNewKeyTwice(store, objects)
    ensures NoNewKeyTwice(store, list)
  {
    forall i, j | 0 <= i < j < |list| && list[i].key == list[j].key ensures list[i].key in store {
      assert objects[|before| + i] == list[i] && objects[|before| + j] == list[j];
    }
  }

  lemma ListsOnce(store: Store, m: Manifest)
    requires NoNewKeyTwice(store, Objects(m))
    ensures NoNewKeyTwice(store, m.entities) && NoNewKeyTwice(store, m.batchSources)
    ensures NoNewKeyTwice(store, m.streamSources) && NoNewKeyTwice(store, m.views) && NoNewKeyTwice(store, m.services)
  {
    var all := Objects(m);
    StretchOnce(store, all, [], m.entities, m.batchSources + m.streamSources + m.views + m.services);
    StretchOnce(store, all, m.entities, m.batchSources, m.streamSources + m.views + m.services);
    StretchOnce(store, all, m.entities + m.batchSources, m.streamSources, m.views + m.services);
    StretchOnce(store, all, m.entities + m.batchSources + m.streamSources, m.views, m.services);
    StretchOnce(store, all, m.entities + m.batchSources + m.streamSources + m.views, m.services, []);
  }

  /** A name that is stored after an accepted manifest was stored before it or is in the list of its kind. */
  lemma NamedAfter(store: Store, m: Manifest, kind: Kind, list: seq<Object>, name: string)
    requires WellTyped(m) && Accepts(store, Objects(m)) && HasName(Applied(store, Objects(m)), kind, name)
    requires forall o | InManifest(m, o) && o.key.kind == kind :: o in list
    ensures NamedBy(store, list, kind, name)
  {
    StoredExactly(store, Objects(m));
    var key := Key(kind, name, "");
    if key !in store {
      var o :| o in Objects(m) && o.key == key;
      PlacesOf(m, o);
    }
  }

  lemma RefAfter(store: Store, m: Manifest, ref: FeatureRef)
    requires WellTyped(m) && Accepts(store, Objects(m)) && RefResolves(Applied(store, Objects(m)), ref)
    ensures RefKnown(store, m, ref)
  {
    StoredExactly(store, Objects(m));
    var key := ViewKey(ref);
    if key !in store {
      var o :| o in Objects(m) && o.key == key;
      PlacesOf(m, o);
    }
  }

  lemma ReferencesKnown(store: Store, m: Manifest, o: Object)
    requires WellTyped(m) && Accepts(store, Objects(m)) && InManifest(m, o)
    ensures o in m.views ==> ViewKnown(store, m, o.spec)
    ensures o in m.services ==> forall ref | ref in o.spec.refs :: RefKnown(store, m, ref)
  {
    PlacesOf(m, o);
    var k :| 0 <= k < |Objects(m)| && Objects(m)[k] == o;
    AcceptedResolves(store, Objects(m), k);
    if o in m.views {
      NamedAfter(store, m, EntityKind, m.entities, o.spec.entity);
      NamedAfter(store, m, BatchSourceKind, m.batchSources, o.spec.batch);
      if o.spec.stream.Some? && o.spec.stream.value != "" {
        NamedAfter(store, m, StreamSourceKind, m.streamSources, o.spec.stream.value);
      }
    }
    if o in m.services {
      forall ref | ref in o.spec.refs ensures RefKnown(store, m, ref) { RefAfter(store, m, ref); }
    }
  }

  lemma GoingThroughIsAccepted(store: Store, m: Manifest)
    requires Closed(store) && WellTyped(m) && GoesThrough(store, m)
    ensures Accepts(store, Objects(m))
  {
    SequenceConsistent(store, m);
    NothingRejected(store, m, |Objects(m)|);
    assert Objects(m)[..|Objects(m)|] == Objects(m);
    CreatedOnce(store, Objects(m));
  }

  lemma AcceptedGoesThrough(store: Store, m: Manifest)
    requires WellTyped(m) && Accepts(store, Objects(m))
    ensures GoesThrough(store, m)
  {
    AcceptedOnce(store, Objects(m));
    ListsOnce(store, m);
    forall o | InManifest(m, o)
      ensures o.key in store ==> store[o.key] == o.spec
      ensures o in m.views ==> ViewKnown(store, m, o.spec)
      ensures o in m.services ==> forall ref | ref in o.spec.refs :: RefKnown(store, m, ref)
    {
      PlacesOf(m, o);
      ReferencesKnown(store, m, o);
    }
  }

  /**
   * Apply, exactly and without the plan: in a closed registry a manifest is accepted if and only if it goes through,
   * and what is stored then is what was stored before and every object of every list, as given; otherwise the store
   * is as it was.
   */
  lemma AppliesExactly(store: Store, m: Manifest)
    requires Closed(store) && WellTyped(m)
    ensures var next := Applied(store, Objects(m));
            && (Accepts(store, Objects(m)) <==> GoesThrough(store, m))
            && (!GoesThrough(store, m) ==> next == store)
            && (GoesThrough(store, m) ==>
                  && (forall key | key in store :: key in next && next[key] == store[key])
                  && (forall o | InManifest(m, o) :: o.key in next && next[o.key] == o.spec)
                  && (forall key | key in next :: key in store || exists o :: InManifest(m, o) && o.key == key))
  {
    if GoesThrough(store, m) { GoingThroughIsAccepted(store, m); }
    if Accepts(store, Objects(m)) {
      AcceptedGoesThrough(store, m);
      StoredExactly(store, Objects(m));
      forall o ensures InManifest(m, o) <==> o in Objects(m) { PlacesOf(m, o); }
    }
  }
}
