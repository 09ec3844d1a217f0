/**
 * The feature registry: a preflight plan over a manifest, and the apply that follows it. Stored objects are
 * immutable, and an object may refer to what is stored or to what an earlier object of its manifest provides.
 */
module Registry {
  import opened Common

  datatype Kind = EntityKind | BatchSourceKind | StreamSourceKind | ViewKind | ServiceKind

  /** The identity of an object; only views have a version. */
  datatype Key = Key(kind: Kind, name: string, version: string)

  datatype FeatureRef = FeatureRef(view: string, version: string, feature: string)

  /** An object's specification. Two specifications have the same fingerprint when they are equal. */
  datatype Spec =
    | PlainSpec(text: string)
    | ViewSpec(entity: string, batch: string, stream: Option<string>, features: seq<string>, text: string)
    | ServiceSpec(refs: seq<FeatureRef>, text: string)

  datatype Object = Object(key: Key, spec: Spec)

  type Store = map<Key, Spec>

  datatype Manifest = Manifest(
    entities: seq<Object>, batchSources: seq<Object>, streamSources: seq<Object>, views: seq<Object>,
    services: seq<Object>)

  /** `_manifest_objects`: kind by kind, in an order in which references point backwards. */
  function Objects(m: Manifest): seq<Object> {
    m.entities + m.batchSources + m.streamSources + m.views + m.services
  }

  datatype Issue =
    | ImmutableConflict
    | MissingEntity(name: string) | MissingBatchSource(name: string) | MissingStreamSource(name: string)
    | MissingView(index: nat) | MissingFeature(index: nat)

  datatype Status = Created | Unchanged | Rejected

  datatype Item = Item(status: Status, issues: seq<Issue>)

  // ---- one object ----------------------------------------------------------------------------------

  predicate HasName(available: Store, kind: Kind, name: string) {
    Key(kind, name, "") in available
  }

  function ViewKey(ref: FeatureRef): Key {
    Key(ViewKind, ref.view, ref.version)
  }

  /** An empty stream source name counts as none. */
  predicate NamesStream(spec: Spec)
    requires spec.ViewSpec?
  {
    spec.stream.Some? && spec.stream.value != ""
  }

  predicate RefResolves(available: Store, ref: FeatureRef) {
    ViewKey(ref) in available && available[ViewKey(ref)].ViewSpec? && ref.feature in available[ViewKey(ref)].features
  }

  /** Everything the object refers to is available. */
  predicate Resolves(available: Store, spec: Spec) {
    match spec
    case PlainSpec(_) => true
    case ViewSpec(entity, batch, stream, _, _) =>
      && HasName(available, EntityKind, entity) && HasName(available, BatchSourceKind, batch)
      && (NamesStream(spec) ==> HasName(available, StreamSourceKind, stream.value))
    case ServiceSpec(refs, _) => forall ref | ref in refs :: RefResolves(available, ref)
  }

  function If(condition: bool, issue: Issue): seq<Issue> {
    if condition then [issue] else []
  }

  function RefIssues(available: Store, refs: seq<FeatureRef>, n: nat): seq<Issue>
    requires n <= |refs|
  {
    if n == 0 then []
    else
      var ref := refs[n - 1];
      RefIssues(available, refs, n - 1)
      + (if ViewKey(ref) !in available || !available[ViewKey(ref)].ViewSpec? then [MissingView(n - 1)]
         else If(ref.feature !in available[ViewKey(ref)].features, MissingFeature(n - 1)))
  }

  function IssuesOf(store: Store, available: Store, o: Object): seq<Issue> {
    If(o.key in store && store[o.key] != o.spec, ImmutableConflict)
    + match o.spec
      case PlainSpec(_) => []
      case ViewSpec(entity, batch, stream, _, _) =>
        If(!HasName(available, EntityKind, entity), MissingEntity(entity))
        + If(!HasName(available, BatchSourceKind, batch), MissingBatchSource(batch))
        + (if NamesStream(o.spec)
           then If(!HasName(available, StreamSourceKind, stream.value), MissingStreamSource(stream.value))
           else [])
      case ServiceSpec(refs, _) => RefIssues(available, refs, |refs|)
  }

  function ItemOf(store: Store, available: Store, o: Object): Item {
    var issues := IssuesOf(store, available, o);
    Item(if issues != [] then Rejected else if o.key in store then Unchanged else Created, issues)
  }

  lemma {:induction false} RefIssuesEmpty(available: Store, refs: seq<FeatureRef>, n: nat)
    requires n <= |refs|
    ensures RefIssues(available, refs, n) == [] <==> forall k | 0 <= k < n :: RefResolves(available, refs[k])
  {
    if n > 0 { RefIssuesEmpty(available, refs, n - 1); }
  }

  /** An object is admitted exactly when it changes no stored object and refers only to available ones. */
  lemma AdmittedExactly(store: Store, available: Store, o: Object)
    ensures ItemOf(store, available, o).status != Rejected <==>
              (o.key in store ==> store[o.key] == o.spec) && Resolves(available, o.spec)
  {
    if o.spec.ServiceSpec? {
      RefIssuesEmpty(available, o.spec.refs, |o.spec.refs|);
    }
  }

  // ---- the plan ------------------------------------------------------------------------------------

  function Grown(store: Store, available: Store, o: Object): Store {
    if ItemOf(store, available, o).status == Rejected then available else available[o.key := o.spec]
  }

  /** What is available once the objects have been planned. */
  function AvailableAfter(store: Store, objects: seq<Object>): Store {
    if objects == [] then store
    else Grown(store, AvailableAfter(store, objects[..|objects| - 1]), objects[|objects| - 1])
  }

  function PlanOf(store: Store, objects: seq<Object>): (items: seq<Item>)
    ensures |items| == |objects|
  {
    if objects == [] then []
    else
      PlanOf(store, objects[..|objects| - 1])
      + [ItemOf(store, AvailableAfter(store, objects[..|objects| - 1]), objects[|objects| - 1])]
  }

  lemma PlanStep(store: Store, objects: seq<Object>, k: nat)
    requires k < |objects|
    ensures AvailableAfter(store, objects[..k + 1]) == Grown(store, AvailableAfter(store, objects[..k]), objects[k])
    ensures PlanOf(store, objects[..k + 1])
            == PlanOf(store, objects[..k]) + [ItemOf(store, AvailableAfter(store, objects[..k]), objects[k])]
  {
    assert objects[..k + 1][..k] == objects[..k];
  }

  lemma {:induction false} PlanAt(store: Store, objects: seq<Object>, k: nat)
    requires k < |objects|
    ensures PlanOf(store, objects)[k] == ItemOf(store, AvailableAfter(store, objects[..k]), objects[k])
  {
    if k < |objects| - 1 {
      PlanAt(store, objects[..|objects| - 1], k);
      assert objects[..|objects| - 1][..k] == objects[..k];
    }
  }

  // ---- apply ---------------------------------------------------------------------------------------

  /** The objects whose items say they are created, in order. */
  function Chosen(objects: seq<Object>, items: seq<Item>): seq<Object>
    requires |items| == |objects|
  {
    if objects == [] then []
    else
      var n := |objects| - 1;
      Chosen(objects[..n], items[..n]) + if items[n].status == Created then [objects[n]] else []
  }

  /** The objects the plan would create. */
  function ToCreate(store: Store, objects: seq<Object>): seq<Object> {
    Chosen(objects, PlanOf(store, objects))
  }

  function AddAll(store: Store, objects: seq<Object>): Store {
    if objects == [] then store
    else AddAll(store, objects[..|objects| - 1])[objects[|objects| - 1].key := objects[|objects| - 1].spec]
  }

  predicate DistinctKeys(objects: seq<Object>) {
    forall i, j | 0 <= i < j < |objects| :: objects[i].key != objects[j].key
  }

  predicate NoneRejected(items: seq<Item>) {
    forall i | 0 <= i < |items| :: items[i].status != Rejected
  }

  /** Apply goes through: nothing is rejected, and no key is created twice. */
  predicate Accepts(store: Store, objects: seq<Object>) {
    NoneRejected(PlanOf(store, objects)) && DistinctKeys(ToCreate(store, objects))
  }

  function Applied(store: Store, objects: seq<Object>): Store {
    if Accepts(store, objects) then AddAll(store, ToCreate(store, objects)) else store
  }

  datatype ApplyError = Conflict(key: Key) | NotFound(issue: Issue) | IntegrityError

  /** The first issue of the item that is no immutable conflict. */
  function FirstMissing(issues: seq<Issue>): Option<Issue> {
    if issues == [] then None
    else if issues[0] != ImmutableConflict then Some(issues[0])
    else FirstMissing(issues[1..])
  }

  /** The error apply raises for its rejected items: a missing reference if any item has one. */
  ghost predicate RaisedFor(objects: seq<Object>, items: seq<Item>, error: ApplyError)
    requires |items| == |objects|
  {
    match error
    case NotFound(issue) => exists k :: FirstMissingAt(items, k, issue)
    case Conflict(key) =>
      NoneMissing(items, |items|) && exists k :: FirstRejectedAt(items, k) && objects[k].key == key
    case IntegrityError => NoneRejected(items)
  }

  predicate NoneMissing(items: seq<Item>, n: nat)
    requires n <= |items|
  {
    forall j | 0 <= j < n :: FirstMissing(items[j].issues).None?
  }

  /** The first item with a missing reference is the k-th, and this is its first one. */
  ghost predicate FirstMissingAt(items: seq<Item>, k: int, issue: Issue) {
    0 <= k < |items| && FirstMissing(items[k].issues) == Some(issue) && NoneMissing(items, k)
  }

  ghost predicate FirstRejectedAt(items: seq<Item>, k: int) {
    0 <= k < |items| && items[k].status == Rejected && forall j | 0 <= j < k :: items[j].status != Rejected
  }

  class Registry {
    var store: Store

    constructor ()
      ensures store == map[]
    {
      store := map[];
    }

    /** `plan`, the loop that grows the available objects. */
    method Plan(m: Manifest) returns (items: seq<Item>)
      ensures items == PlanOf(store, Objects(m))
    {
      var objects, available := Objects(m), store;
      items := [];
      for k := 0 to |objects|
        invariant items == PlanOf(store, objects[..k]) && available == AvailableAfter(store, objects[..k])
      {
        PlanStep(store, objects, k);
        var item := ItemOf(store, available, objects[k]);
        items := items + [item];
        if item.status != Rejected {
          available := available[objects[k].key := objects[k].spec];
        }
      }
      assert objects[..|objects|] == objects;
    }

    method Blame(objects: seq<Object>, items: seq<Item>) returns (error: ApplyError)
      requires items == PlanOf(store, objects) && !NoneRejected(items)
      ensures RaisedFor(objects, items, error) && error != IntegrityError
    {
      for k := 0 to |items|
        invariant NoneMissing(items, k)
      {
        var missing := FirstMissing(items[k].issues);
        if missing.Some? {
          assert FirstMissingAt(items, k, missing.value);
          return NotFound(missing.value);
        }
      }
      for k := 0 to |items|
        invariant forall j | 0 <= j < k :: items[j].status != Rejected
      {
        if items[k].status == Rejected {
          assert FirstRejectedAt(items, k);
          return Conflict(objects[k].key);
        }
      }
      assert false;
      error := IntegrityError;
    }

    /** The objects the plan creates, in order. */
    method Creations(objects: seq<Object>, items: seq<Item>) returns (added: seq<Object>)
      requires items == PlanOf(store, objects)
      ensures added == ToCreate(store, objects)
    {
      added := [];
      for k := 0 to |objects|
        invariant added == Chosen(objects[..k], items[..k])
      {
        assert objects[..k + 1][..k] == objects[..k] && items[..k + 1][..k] == items[..k];
        if items[k].status == Created {
          added := added + [objects[k]];
        }
      }
      assert items[..|objects|] == items;
      assert objects[..|objects|] == objects;
    }

    /**
     * `apply`. It succeeds exactly when nothing is rejected and no key is created twice; otherwise it raises
     * and the store is untouched.
     */
    method Apply(m: Manifest) returns (r: Result<seq<Item>, ApplyError>)
      modifies this
      ensures r.Ok? <==> Accepts(old(store), Objects(m))
      ensures store == Applied(old(store), Objects(m))
      ensures r.Ok? ==> r.value == PlanOf(old(store), Objects(m))
      ensures r.Err? ==> RaisedFor(Objects(m), PlanOf(old(store), Objects(m)), r.error)
    {
      var objects := Objects(m);
      var items := Plan(m);
      if !NoneRejected(items) {
        var error := Blame(objects, items);
        return Err(error);
      }
      var added := Creations(objects, items);
      if !DistinctKeys(added) {
        return Err(IntegrityError);
      }
      store := AddAll(store, added);
      r := Ok(items);
    }
  }

  // ---- what applies keep -----------------------------------------------------------------------------

  predicate Includes(larger: Store, smaller: Store) {
    forall key | key in smaller :: key in larger && larger[key] == smaller[key]
  }

  lemma {:induction false} AddAllIncludes(store: Store, objects: seq<Object>)
    requires DistinctKeys(objects) && forall o | o in objects :: o.key !in store
    ensures Includes(AddAll(store, objects), store)
    ensures forall o | o in objects :: o.key in AddAll(store, objects) && AddAll(store, objects)[o.key] == o.spec
    ensures forall key | key in AddAll(store, objects) ::
              key in store || exists i :: 0 <= i < |objects| && objects[i] == Object(key, AddAll(store, objects)[key])
  {
    if objects != [] {
      var init, last := objects[..|objects| - 1], objects[|objects| - 1];
      AddAllIncludes(store, init);
      assert objects == init + [last];
      var all := AddAll(store, objects);
      forall key | key in all && key !in store
        ensures exists i :: 0 <= i < |objects| && objects[i] == Object(key, all[key])
      {
        if key == last.key {
          assert objects[|objects| - 1] == Object(key, all[key]);
        } else {
          var i :| 0 <= i < |init| && init[i] == Object(key, all[key]);
          assert objects[i] == init[i];
        }
      }
    }
  }

  lemma {:induction false} ChosenAre(objects: seq<Object>, items: seq<Item>)
    requires |items| == |objects|
    ensures forall o | o in Chosen(objects, items) ::
              exists k :: 0 <= k < |objects| && objects[k] == o && items[k].status == Created
    ensures forall k | 0 <= k < |objects| && items[k].status == Created :: objects[k] in Chosen(objects, items)
  {
    if objects != [] {
      var n := |objects| - 1;
      ChosenAre(objects[..n], items[..n]);
      forall o | o in Chosen(objects, items)
        ensures exists k :: 0 <= k < |objects| && objects[k] == o && items[k].status == Created
      {
        if o in Chosen(objects[..n], items[..n]) {
          var k :| 0 <= k < n && objects[..n][k] == o && items[..n][k].status == Created;
          assert objects[k] == o && items[k].status == Created;
        }
      }
      forall k | 0 <= k < |objects| && items[k].status == Created ensures objects[k] in Chosen(objects, items) {
        if k < n { assert objects[..n][k] == objects[k] && items[..n][k] == items[k]; }
      }
    }
  }

  lemma CreatedAreNew(store: Store, objects: seq<Object>)
    ensures forall o | o in ToCreate(store, objects) :: o in objects && o.key !in store
    ensures forall k | 0 <= k < |objects| :: PlanOf(store, objects)[k].status == Created ==>
              objects[k] in ToCreate(store, objects)
  {
    ChosenAre(objects, PlanOf(store, objects));
    forall o | o in ToCreate(store, objects) ensures o in objects && o.key !in store {
      var k :| 0 <= k < |objects| && objects[k] == o && PlanOf(store, objects)[k].status == Created;
      PlanAt(store, objects, k);
    }
  }

  /** Stored specifications never change: an apply only ever adds objects. */
  lemma ApplyOnlyAdds(store: Store, objects: seq<Object>)
    ensures Includes(Applied(store, objects), store)
  {
    if Accepts(store, objects) {
      CreatedAreNew(store, objects);
      AddAllIncludes(store, ToCreate(store, objects));
    }
  }

  /** After an accepted apply every object of the manifest is stored as given. */
  lemma AcceptedIsStored(store: Store, objects: seq<Object>, k: nat)
    requires Accepts(store, objects) && k < |objects|
    ensures objects[k].key in Applied(store, objects) && Applied(store, objects)[objects[k].key] == objects[k].spec
  {
    PlanAt(store, objects, k);
    AdmittedExactly(store, AvailableAfter(store, objects[..k]), objects[k]);
    CreatedAreNew(store, objects);
    AddAllIncludes(store, ToCreate(store, objects));
  }

  /** What was available at any point of an accepted plan is stored afterwards. */
  lemma {:induction false} AvailableIsStored(store: Store, objects: seq<Object>, k: nat)
    requires Accepts(store, objects) && k <= |objects|
    ensures Includes(Applied(store, objects), AvailableAfter(store, objects[..k]))
  {
    if k == 0 {
      ApplyOnlyAdds(store, objects);
    } else {
      AvailableIsStored(store, objects, k - 1);
      AcceptedIsStored(store, objects, k - 1);
      assert objects[..k][..k - 1] == objects[..k - 1];
    }
  }

  lemma ResolvesMore(larger: Store, smaller: Store, spec: Spec)
    requires Includes(larger, smaller) && Resolves(smaller, spec)
    ensures Resolves(larger, spec)
  {}

  /** Every stored view and service refers only to stored objects, and to features its views have. */
  ghost predicate Closed(store: Store) {
    forall key | key in store :: Resolves(store, store[key])
  }

  lemma AcceptedResolves(store: Store, objects: seq<Object>, k: nat)
    requires Accepts(store, objects) && k < |objects|
    ensures Resolves(Applied(store, objects), objects[k].spec)
  {
    PlanAt(store, objects, k);
    AdmittedExactly(store, AvailableAfter(store, objects[..k]), objects[k]);
    AvailableIsStored(store, objects, k);
    ResolvesMore(Applied(store, objects), AvailableAfter(store, objects[..k]), objects[k].spec);
  }

  /** Every apply keeps the registry closed. */
  lemma ApplyKeepsClosed(store: Store, objects: seq<Object>)
    requires Closed(store)
    ensures Closed(Applied(store, objects))
  {
    var next := Applied(store, objects);
    if Accepts(store, objects) {
      CreatedAreNew(store, objects);
      AddAllIncludes(store, ToCreate(store, objects));
      forall key | key in next ensures Resolves(next, next[key]) {
        if key in store {
          ResolvesMore(next, store, store[key]);
        } else {
          var i :| 0 <= i < |ToCreate(store, objects)| && ToCreate(store, objects)[i] == Object(key, next[key]);
          var k :| 0 <= k < |objects| && objects[k] == ToCreate(store, objects)[i];
          AcceptedResolves(store, objects, k);
        }
      }
    }
  }

  /** The store after a sequence of applies, whether they succeed or fail. */
  function AfterApplies(store: Store, manifests: seq<Manifest>): Store {
    if manifests == [] then store
    else Applied(AfterApplies(store, manifests[..|manifests| - 1]), Objects(manifests[|manifests| - 1]))
  }

  /** Over any sequence of applies: the registry is always closed, and nothing stored at any point ever changes. */
  lemma {:induction false} RegistryOverRuns(manifests: seq<Manifest>, k: nat)
    requires k <= |manifests|
    ensures Closed(AfterApplies(map[], manifests))
    ensures Includes(AfterApplies(map[], manifests), AfterApplies(map[], manifests[..k]))
  {
    if manifests == [] {
      assert manifests[..k] == manifests;
    } else {
      var init, last := manifests[..|manifests| - 1], Objects(manifests[|manifests| - 1]);
      RegistryOverRuns(init, if k < |manifests| then k else 0);
      ApplyKeepsClosed(AfterApplies(map[], init), last);
      ApplyOnlyAdds(AfterApplies(map[], init), last);
      if k < |manifests| {
        assert init[..k] == manifests[..k];
      } else {
        assert manifests[..k] == manifests;
      }
    }
  }

  // ---- idempotence -------------------------------------------------------------------------------------

  predicate AllUnchanged(items: seq<Item>) {
    forall i | 0 <= i < |items| :: items[i].status == Unchanged
  }

  predicate AllStored(store: Store, objects: seq<Object>) {
    forall k | 0 <= k < |objects| :: objects[k].key in store && store[objects[k].key] == objects[k].spec
  }

  lemma {:induction false} NothingGrows(store: Store, objects: seq<Object>)
    requires AllStored(store, objects)
    ensures AvailableAfter(store, objects) == store
  {
    if objects != [] {
      NothingGrows(store, objects[..|objects| - 1]);
      assert store[objects[|objects| - 1].key := objects[|objects| - 1].spec] == store;
    }
  }

  /** In a closed registry a manifest plans as entirely unchanged exactly when all its objects are stored as given. */
  lemma UnchangedExactly(store: Store, objects: seq<Object>)
    requires Closed(store)
    ensures AllUnchanged(PlanOf(store, objects)) <==> AllStored(store, objects)
  {
    if AllStored(store, objects) {
      forall k | 0 <= k < |objects| ensures PlanOf(store, objects)[k].status == Unchanged {
        PlanAt(store, objects, k);
        NothingGrows(store, objects[..k]);
        AdmittedExactly(store, store, objects[k]);
      }
    }
    if AllUnchanged(PlanOf(store, objects)) {
      forall k | 0 <= k < |objects| ensures objects[k].key in store && store[objects[k].key] == objects[k].spec {
        PlanAt(store, objects, k);
        AdmittedExactly(store, AvailableAfter(store, objects[..k]), objects[k]);
      }
    }
  }

  /** After a successful apply the same manifest plans as entirely unchanged, and applying it again does nothing. */
  lemma ApplyTwice(store: Store, objects: seq<Object>)
    requires Closed(store) && Accepts(store, objects)
    ensures var next := Applied(store, objects);
            AllUnchanged(PlanOf(next, objects)) && Accepts(next, objects) && Applied(next, objects) == next
  {
    var next := Applied(store, objects);
    ApplyKeepsClosed(store, objects);
    forall k | 0 <= k < |objects| ensures objects[k].key in next && next[objects[k].key] == objects[k].spec {
      AcceptedIsStored(store, objects, k);
    }
    UnchangedExactly(next, objects);
    NothingChosen(objects, PlanOf(next, objects));
  }

  lemma {:induction false} NothingChosen(objects: seq<Object>, items: seq<Item>)
    requires |items| == |objects| && AllUnchanged(items)
    ensures Chosen(objects, items) == []
  {
    if objects != [] { NothingChosen(objects[..|objects| - 1], items[..|objects| - 1]); }
  }

  /** A manifest that gives one new key twice is planned as two creations and then refused by the store as a whole. */
  lemma RepeatedKeyIsRefused(store: Store, objects: seq<Object>, i: nat, j: nat)
    requires i < j < |objects| && objects[i].key == objects[j].key && objects[i].key !in store
    requires NoneRejected(PlanOf(store, objects))
    ensures !Accepts(store, objects) && Applied(store, objects) == store
  {
    PlanAt(store, objects, i);
    PlanAt(store, objects, j);
    var a, b := ChosenTwice(objects, PlanOf(store, objects), i, j);
  }

  lemma {:induction false} ChosenTwice(objects: seq<Object>, items: seq<Item>, i: nat, j: nat) returns (a: nat, b: nat)
    requires |items| == |objects| && i < j < |objects| && items[i].status == Created && items[j].status == Created
    ensures a < b < |Chosen(objects, items)|
    ensures Chosen(objects, items)[a] == objects[i] && Chosen(objects, items)[b] == objects[j]
  {
    var n := |objects| - 1;
    if j < n {
      a, b := ChosenTwice(objects[..n], items[..n], i, j);
    } else {
      ChosenAre(objects[..n], items[..n]);
      assert objects[..n][i] in Chosen(objects[..n], items[..n]);
      a :| 0 <= a < |Chosen(objects[..n], items[..n])| && Chosen(objects[..n], items[..n])[a] == objects[i];
      b := |Chosen(objects[..n], items[..n])|;
    }
  }
}
