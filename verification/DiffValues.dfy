/** What a reported difference says: the values it names are the ones that stand at its path. */
module DiffValues {
  import opened Common
  import opened JsonPointer
  import opened Differences

  /** The value at a path: fields by name, items by their decimal index. */
  function At(value: Json, path: seq<string>): Option<Json>
    decreases |path|
  {
    if path == [] then Some(value)
    else if value.Obj? && path[0] in value.fields then At(value.fields[path[0]], path[1..])
    else if value.Arr? && 0 <= ValueOf(path[0]) < |value.items| && Decimal(ValueOf(path[0])) == path[0] then
      At(value.items[ValueOf(path[0])], path[1..])
    else None
  }

  /** What a difference claims of the two values. */
  predicate Holds(existing: Json, proposed: Json, d: Diff) {
    match d.change
    case Added(new') => At(existing, d.path) == None && At(proposed, d.path) == Some(new')
    case Removed(old') => At(existing, d.path) == Some(old') && At(proposed, d.path) == None
    case Changed(old', new') =>
      At(existing, d.path) == Some(old') && At(proposed, d.path) == Some(new') && !PyEqual(old', new')
  }

  lemma {:induction false} GatheredFrom(tokens: seq<string>, parts: seq<seq<Diff>>, d: Diff) returns (i: nat)
    requires |tokens| == |parts| && d in Gather(tokens, parts)
    ensures i < |tokens| && d.path != [] && d.path[0] == tokens[i] && Diff(d.path[1..], d.change) in parts[i]
  {
    var n := |tokens| - 1;
    if d in Gather(tokens[..n], parts[..n]) {
      i := GatheredFrom(tokens[..n], parts[..n], d);
    } else {
      i := n;
      var k :| 0 <= k < |Under(tokens[n], parts[n])| && Under(tokens[n], parts[n])[k] == d;
      assert d.path[1..] == parts[n][k].path;
    }
  }

  /**
   * Every reported difference is one: an added value stands at its path in the proposal and nothing does in the
   * existing specification, a removed one the other way round, and of a changed one both stand there and differ.
   */
  lemma {:induction false} ReportsHold(existing: Json, proposed: Json, d: Diff)
    requires d in Diffs(existing, proposed)
    ensures Holds(existing, proposed, d)
    decreases existing, 1
  {
    if existing.Obj? && proposed.Obj? {
      FieldReportsHold(existing, proposed, d);
    } else if existing.Arr? && proposed.Arr? {
      ItemReportsHold(existing, proposed, d);
    }
  }

  lemma {:induction false} FieldReportsHold(existing: Json, proposed: Json, d: Diff)
    requires existing.Obj? && proposed.Obj? && d in Diffs(existing, proposed)
    ensures Holds(existing, proposed, d)
    decreases existing, 0
  {
    var keys := FieldTokens(existing, proposed);
    var parts := FieldParts(existing, proposed, keys);
    var i := GatheredFrom(keys, parts, d);
    var k := keys[i];
    if k in existing.fields && k in proposed.fields {
      assert parts[i] == Diffs(existing.fields[k], proposed.fields[k]);
      ReportsHold(existing.fields[k], proposed.fields[k], Diff(d.path[1..], d.change));
      HoldsInField(existing, proposed, d);
    }
  }

  lemma {:induction false} ItemReportsHold(existing: Json, proposed: Json, d: Diff)
    requires existing.Arr? && proposed.Arr? && d in Diffs(existing, proposed)
    ensures Holds(existing, proposed, d)
    decreases existing, 0
  {
    var tokens, parts := IndexTokens(Longer(existing.items, proposed.items)), ItemParts(existing, proposed);
    var i := GatheredFrom(tokens, parts, d);
    DecimalRoundTrip(i);
    if i < |existing.items| && i < |proposed.items| {
      assert parts[i] == Diffs(existing.items[i], proposed.items[i]);
      ReportsHold(existing.items[i], proposed.items[i], Diff(d.path[1..], d.change));
      HoldsInItem(existing, proposed, d, i);
    }
  }

  lemma HoldsInField(existing: Json, proposed: Json, d: Diff)
    requires existing.Obj? && proposed.Obj? && d.path != []
    requires d.path[0] in existing.fields && d.path[0] in proposed.fields
    requires Holds(existing.fields[d.path[0]], proposed.fields[d.path[0]], Diff(d.path[1..], d.change))
    ensures Holds(existing, proposed, d)
  {}

  lemma HoldsInItem(existing: Json, proposed: Json, d: Diff, i: nat)
    requires existing.Arr? && proposed.Arr? && i < |existing.items| && i < |proposed.items|
    requires d.path != [] && d.path[0] == Decimal(i) && ValueOf(Decimal(i)) == i
    requires Holds(existing.items[i], proposed.items[i], Diff(d.path[1..], d.change))
    ensures Holds(existing, proposed, d)
  {}
}
