/** Requests for features: how the registry resolves them, how a query groups them, and what columns that gives. */
module FeatureRequests {
  import opened Common
  import opened Registry

  datatype ResolveError = UnknownService | NoFeatures | UnknownView | UnknownFeature | AmbiguousOutput

  /** The features asked for: those of the service when one is named, and the listed ones otherwise. */
  function Requested(store: Store, features: seq<FeatureRef>, service: Option<string>): Option<seq<FeatureRef>> {
    if service.None? || service.value == "" then Some(features)
    else
      var key := Key(ServiceKind, service.value, "");
      if key in store && store[key].ServiceSpec? then Some(store[key].refs) else None
  }

  function OutputName(ref: FeatureRef): string {
    ref.view + "__" + ref.feature
  }

  predicate DistinctOutputs(refs: seq<FeatureRef>) {
    forall i, j | 0 <= i < j < |refs| :: OutputName(refs[i]) != OutputName(refs[j])
  }

  /**
   * `resolve_features`: it answers the requested features unchanged, exactly when there are any, every one of
   * them exists, and no two have the same output name.
   */
  method Resolve(store: Store, features: seq<FeatureRef>, service: Option<string>)
    returns (r: Result<seq<FeatureRef>, ResolveError>)
    ensures r.Ok? <==>
              var refs := Requested(store, features, service);
              && refs.Some? && refs.value != [] && DistinctOutputs(refs.value)
              && forall i | 0 <= i < |refs.value| :: RefResolves(store, refs.value[i])
    ensures r.Ok? ==> Requested(store, features, service) == Some(r.value)
  {
    var refs := features;
    if service.Some? && service.value != "" {
      var key := Key(ServiceKind, service.value, "");
      if key !in store || !store[key].ServiceSpec? {
        return Err(UnknownService);
      }
      refs := store[key].refs;
    }
    if refs == [] {
      return Err(NoFeatures);
    }
    var outputs: set<string> := {};
    for k := 0 to |refs|
      invariant forall i | 0 <= i < k :: RefResolves(store, refs[i])
      invariant forall i, j | 0 <= i < j < k :: OutputName(refs[i]) != OutputName(refs[j])
      invariant forall name :: name in outputs <==> exists i :: 0 <= i < k && OutputName(refs[i]) == name
    {
      var ref := refs[k];
      if ViewKey(ref) !in store || !store[ViewKey(ref)].ViewSpec? {
        return Err(UnknownView);
      }
      if ref.feature !in store[ViewKey(ref)].features {
        return Err(UnknownFeature);
      }
      if OutputName(ref) in outputs {
        return Err(AmbiguousOutput);
      }
      outputs := outputs + {OutputName(ref)};
    }
    r := Ok(refs);
  }

  // ---- grouping --------------------------------------------------------------------------------------

  /** The features requested of one view, in request order. */
  function FeaturesOf(refs: seq<FeatureRef>, key: Key): seq<string> {
    if refs == [] then []
    else
      var last := refs[|refs| - 1];
      FeaturesOf(refs[..|refs| - 1], key) + if ViewKey(last) == key then [last.feature] else []
  }

  /** The views requested, each where it is first named. */
  function ViewsOf(refs: seq<FeatureRef>): seq<Key> {
    if refs == [] then []
    else
      var init, last := ViewsOf(refs[..|refs| - 1]), refs[|refs| - 1];
      if ViewKey(last) in init then init else init + [ViewKey(last)]
  }

  /** The grouping at the head of a query: the dictionary and the order in which it will be walked. */
  method GroupByView(refs: seq<FeatureRef>) returns (order: seq<Key>, groups: map<Key, seq<string>>)
    ensures order == ViewsOf(refs) && (forall key :: key in groups <==> key in order)
    ensures forall key | key in groups :: groups[key] == FeaturesOf(refs, key)
  {
    order, groups := [], map[];
    for k := 0 to |refs|
      invariant order == ViewsOf(refs[..k]) && (forall key :: key in groups <==> key in order)
      invariant forall key :: FeaturesOf(refs[..k], key) == if key in groups then groups[key] else []
    {
      var key := ViewKey(refs[k]);
      assert refs[..k + 1][..k] == refs[..k];
      if key !in groups {
        order := order + [key];
        groups := groups[key := []];
      }
      groups := groups[key := groups[key] + [refs[k].feature]];
    }
    assert refs[..|refs|] == refs;
  }

  lemma {:induction false} FeaturesAre(refs: seq<FeatureRef>, key: Key)
    ensures forall name ::
              name in FeaturesOf(refs, key)
              <==> exists i :: 0 <= i < |refs| && ViewKey(refs[i]) == key && refs[i].feature == name
    ensures DistinctOutputs(refs) ==>
              forall i, j | 0 <= i < j < |FeaturesOf(refs, key)| :: FeaturesOf(refs, key)[i] != FeaturesOf(refs, key)[j]
  {
    if refs != [] {
      var init, last := refs[..|refs| - 1], refs[|refs| - 1];
      FeaturesAre(init, key);
      var before, after := FeaturesOf(init, key), FeaturesOf(refs, key);
      forall name
        ensures name in after
                <==> exists i :: 0 <= i < |refs| && ViewKey(refs[i]) == key && refs[i].feature == name
      {
        if name in before {
          var i :| 0 <= i < |init| && ViewKey(init[i]) == key && init[i].feature == name;
          assert refs[i] == init[i];
        }
        if i :| 0 <= i < |refs| && ViewKey(refs[i]) == key && refs[i].feature == name {
          if i < |init| { assert init[i] == refs[i]; }
        }
      }
      if DistinctOutputs(refs) && ViewKey(last) == key {
        forall i | 0 <= i < |init| && ViewKey(init[i]) == key ensures init[i].feature != last.feature {
          assert OutputName(refs[i]) != OutputName(refs[|init|]);
        }
        assert last.feature !in before && after == before + [last.feature];
        assert DistinctOutputs(init);
      }
    }
  }

  lemma {:induction false} ViewsAre(refs: seq<FeatureRef>)
    ensures forall key :: key in ViewsOf(refs) <==> exists i :: 0 <= i < |refs| && ViewKey(refs[i]) == key
    ensures forall i, j | 0 <= i < j < |ViewsOf(refs)| :: ViewsOf(refs)[i] != ViewsOf(refs)[j]
  {
    if refs != [] {
      var init, last := refs[..|refs| - 1], refs[|refs| - 1];
      ViewsAre(init);
      forall key ensures key in ViewsOf(refs) <==> exists i :: 0 <= i < |refs| && ViewKey(refs[i]) == key {
        if key in ViewsOf(init) {
          var i :| 0 <= i < |init| && ViewKey(init[i]) == key;
          assert refs[i] == init[i];
        }
        if i :| 0 <= i < |refs| && ViewKey(refs[i]) == key {
          if i < |init| { assert init[i] == refs[i]; }
        }
      }
    }
  }

  /** Grouping loses no requested feature, invents none and, for a resolved request, repeats none. */
  lemma GroupingIsFaithful(refs: seq<FeatureRef>, ref: FeatureRef)
    requires DistinctOutputs(refs)
    ensures ref in refs <==> ViewKey(ref) in ViewsOf(refs) && ref.feature in FeaturesOf(refs, ViewKey(ref))
    ensures forall i, j | 0 <= i < j < |ViewsOf(refs)| :: ViewsOf(refs)[i] != ViewsOf(refs)[j]
    ensures forall i, j | 0 <= i < j < |FeaturesOf(refs, ViewKey(ref))| ::
              FeaturesOf(refs, ViewKey(ref))[i] != FeaturesOf(refs, ViewKey(ref))[j]
  {
    FeaturesAre(refs, ViewKey(ref));
    ViewsAre(refs);
  }

  // ---- column names ------------------------------------------------------------------------------------

  function StatusName(key: Key): string {
    key.name + "__status"
  }

  /** The status columns of the requested views and the columns of the requested features. */
  function Columns(refs: seq<FeatureRef>): seq<string> {
    seq(|ViewsOf(refs)|, i requires 0 <= i < |ViewsOf(refs)| => StatusName(ViewsOf(refs)[i]))
    + seq(|refs|, i requires 0 <= i < |refs| => OutputName(refs[i]))
  }

  predicate AllDistinct(names: seq<string>) {
    forall i, j | 0 <= i < j < |names| :: names[i] != names[j]
  }

  /**
   * Resolving looks at output names only, so a resolved request can still have two columns of one name: they
   * are distinct exactly when it names no view in two versions and no feature whose column is a status column.
   */
  lemma ColumnsDistinctExactly(refs: seq<FeatureRef>)
    requires DistinctOutputs(refs)
    ensures AllDistinct(Columns(refs)) <==>
              && (forall a, b | a in refs && b in refs && a.view == b.view :: a.version == b.version)
              && (forall a, b | a in refs && b in refs :: OutputName(a) != b.view + "__status")
  {
    var views, columns := ViewsOf(refs), Columns(refs);
    ViewsAre(refs);
    if AllDistinct(columns) {
      forall a, b | a in refs && b in refs
        ensures a.view == b.view ==> a.version == b.version
        ensures OutputName(a) != b.view + "__status"
      {
        NamesClash(refs, a, b);
      }
    } else {
      var i, j :| 0 <= i < j < |columns| && columns[i] == columns[j];
      if j < |views| {
        SamePrefix(views[i].name, views[j].name, "__status");
        var a := NamedBy(refs, views[i]);
        var b := NamedBy(refs, views[j]);
        assert a.view == b.view && a.version != b.version;
      } else {
        assert i < |views|;
        var a := refs[j - |views|];
        var b := NamedBy(refs, views[i]);
        assert a in refs && OutputName(a) == b.view + "__status";
      }
    }
  }

  lemma NamedBy(refs: seq<FeatureRef>, key: Key) returns (ref: FeatureRef)
    requires key in ViewsOf(refs)
    ensures ref in refs && ViewKey(ref) == key && key.name == ref.view && key.version == ref.version
  {
    ViewsAre(refs);
    var i :| 0 <= i < |refs| && ViewKey(refs[i]) == key;
    ref := refs[i];
  }

  lemma Named(refs: seq<FeatureRef>, ref: FeatureRef)
    requires ref in refs
    ensures ViewKey(ref) in ViewsOf(refs)
  {
    ViewsAre(refs);
  }

  lemma SamePrefix(a: string, b: string, suffix: string)
    requires a + suffix == b + suffix
    ensures a == b
  {
    assert |a| == |b|;
    assert (a + suffix)[..|a|] == a && (b + suffix)[..|b|] == b;
  }

  lemma NamesClash(refs: seq<FeatureRef>, a: FeatureRef, b: FeatureRef)
    requires a in refs && b in refs && AllDistinct(Columns(refs))
    ensures a.view == b.view ==> a.version == b.version
    ensures OutputName(a) != b.view + "__status"
  {
    var views, columns := ViewsOf(refs), Columns(refs);
    Named(refs, a);
    Named(refs, b);
    var i :| 0 <= i < |views| && views[i] == ViewKey(a);
    var j :| 0 <= j < |views| && views[j] == ViewKey(b);
    assert columns[i] == StatusName(views[i]) && columns[j] == StatusName(views[j]);
    var k :| 0 <= k < |refs| && refs[k] == a;
    assert columns[|views| + k] == OutputName(a);
  }

  /** An instance: feature `b__status` of view `a` next to view `a__b`. */
  lemma StatusColumnClashes()
    ensures var refs := [FeatureRef("a", "1.0.0", "b__status"), FeatureRef("a__b", "1.0.0", "c")];
            DistinctOutputs(refs) && !AllDistinct(Columns(refs))
  {
    var refs := [FeatureRef("a", "1.0.0", "b__status"), FeatureRef("a__b", "1.0.0", "c")];
    assert OutputName(refs[0]) == "a__b__status" && OutputName(refs[1]) == "a__b__c";
    assert OutputName(refs[0])[6] != OutputName(refs[1])[6];
    assert refs[0] in refs && refs[1] in refs && OutputName(refs[0]) == refs[1].view + "__status";
    ColumnsDistinctExactly(refs);
  }
}
