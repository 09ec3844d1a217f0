/**
 * The recursive difference between a stored specification and a proposed one. Trees are compared the way
 * the source compares them, under which `True`, `1` and `1.0` are one value; fingerprints tell them apart.
 */
module Differences {
  import opened Common
  import opened TextOrder
  import opened JsonPointer
  import opened Numbers
  import opened Orders

  datatype Json =
    | Null | Num(n: Number) | Str(s: string)
    | Arr(items: seq<Json>) | Obj(fields: map<string, Json>)

  /** Python's `==` on JSON values. */
  predicate PyEqual(a: Json, b: Json) {
    if a.Obj? && b.Obj? then
      a.fields.Keys == b.fields.Keys && forall k | k in a.fields && k in b.fields :: PyEqual(a.fields[k], b.fields[k])
    else if a.Arr? && b.Arr? then
      |a.items| == |b.items| && forall i | 0 <= i < |a.items| && i < |b.items| :: PyEqual(a.items[i], b.items[i])
    else if a.Num? && b.Num? then SameValue(a.n, b.n)
    else a == b
  }

  lemma {:induction false} PyEqualReflexive(a: Json)
    ensures PyEqual(a, a)
  {
    match a
    case Obj(fields) => forall k | k in fields ensures PyEqual(fields[k], fields[k]) { PyEqualReflexive(fields[k]); }
    case Arr(items) => forall i | 0 <= i < |items| ensures PyEqual(items[i], items[i]) { PyEqualReflexive(items[i]); }
    case _ =>
  }

  datatype Change = Added(proposed: Json) | Removed(existing: Json) | Changed(existing: Json, proposed: Json)

  // ---- keys in order -----------------------------------------------------------------------------

  lemma KeysHaveLeast(keys: set<string>)
    requires keys != {}
    ensures exists least :: IsLeast(keys, Less, least)
  {
    var least := LeastText(keys);
  }

  /** `sorted(keys)`. */
  ghost function Sorted(keys: set<string>): (sorted: seq<string>)
    ensures forall k :: k in sorted <==> k in keys
    ensures forall i, j | 0 <= i < j < |sorted| :: sorted[i] != sorted[j]
    decreases |keys|
  {
    if keys == {} then []
    else
      KeysHaveLeast(keys);
      var least :| IsLeast(keys, Less, least);
      [least] + Sorted(keys - {least})
  }

  // ---- the source's function ------------------------------------------------------------------------

  /** One reported difference: its pointer and what happened there. */
  datatype Report = Report(pointer: string, change: Change)

  function Flat<T>(parts: seq<seq<T>>): seq<T> {
    if parts == [] then [] else Flat(parts[..|parts| - 1]) + parts[|parts| - 1]
  }

  function Longer(a: seq<Json>, b: seq<Json>): nat {
    if |a| < |b| then |b| else |a|
  }

  function Child(path: string, token: string): string {
    path + "/" + Escape(token)
  }

  /** `_differences`: sorted keys, list positions, and otherwise a comparison of the two values. */
  ghost function Reports(existing: Json, proposed: Json, path: string): seq<Report>
    decreases existing, 1
  {
    if existing.Obj? && proposed.Obj? then Flat(FieldReports(existing, proposed, FieldTokens(existing, proposed), path))
    else if existing.Arr? && proposed.Arr? then Flat(ItemReports(existing, proposed, path))
    else if !PyEqual(existing, proposed) then
      [Report(if path == "" then "/" else path, Changed(existing, proposed))]
    else []
  }

  ghost function FieldReports(existing: Json, proposed: Json, keys: seq<string>, path: string): seq<seq<Report>>
    requires existing.Obj? && proposed.Obj? && forall k | k in keys :: k in existing.fields || k in proposed.fields
    decreases existing, 0
  {
    seq(|keys|, i requires 0 <= i < |keys| =>
      var k := keys[i];
      if k !in existing.fields then [Report(Child(path, k), Added(proposed.fields[k]))]
      else if k !in proposed.fields then [Report(Child(path, k), Removed(existing.fields[k]))]
      else Reports(existing.fields[k], proposed.fields[k], Child(path, k)))
  }

  ghost function ItemReports(existing: Json, proposed: Json, path: string): seq<seq<Report>>
    requires existing.Arr? && proposed.Arr?
    decreases existing, 0
  {
    seq(Longer(existing.items, proposed.items), i requires 0 <= i < Longer(existing.items, proposed.items) =>
      if i >= |existing.items| then [Report(Child(path, Decimal(i)), Added(proposed.items[i]))]
      else if i >= |proposed.items| then [Report(Child(path, Decimal(i)), Removed(existing.items[i]))]
      else Reports(existing.items[i], proposed.items[i], Child(path, Decimal(i))))
  }

  // ---- the same by tokens ---------------------------------------------------------------------------

  /** A difference at a path of tokens relative to the compared values. */
  datatype Diff = Diff(path: seq<string>, change: Change)

  /** The differences of a child, seen from its parent. */
  function Under(token: string, diffs: seq<Diff>): seq<Diff> {
    seq(|diffs|, i requires 0 <= i < |diffs| => Diff([token] + diffs[i].path, diffs[i].change))
  }

  function Gather(tokens: seq<string>, parts: seq<seq<Diff>>): seq<Diff>
    requires |tokens| == |parts|
  {
    if tokens == [] then []
    else
      var n := |tokens| - 1;
      Gather(tokens[..n], parts[..n]) + Under(tokens[n], parts[n])
  }

  ghost function FieldParts(existing: Json, proposed: Json, keys: seq<string>): seq<seq<Diff>>
    requires existing.Obj? && proposed.Obj? && forall k | k in keys :: k in existing.fields || k in proposed.fields
    decreases existing, 0
  {
    seq(|keys|, i requires 0 <= i < |keys| =>
      var k := keys[i];
      if k !in existing.fields then [Diff([], Added(proposed.fields[k]))]
      else if k !in proposed.fields then [Diff([], Removed(existing.fields[k]))]
      else Diffs(existing.fields[k], proposed.fields[k]))
  }

  ghost function ItemParts(existing: Json, proposed: Json): seq<seq<Diff>>
    requires existing.Arr? && proposed.Arr?
    decreases existing, 0
  {
    seq(Longer(existing.items, proposed.items), i requires 0 <= i < Longer(existing.items, proposed.items) =>
      if i >= |existing.items| then [Diff([], Added(proposed.items[i]))]
      else if i >= |proposed.items| then [Diff([], Removed(existing.items[i]))]
      else Diffs(existing.items[i], proposed.items[i]))
  }

  ghost function FieldTokens(existing: Json, proposed: Json): seq<string>
    requires existing.Obj? && proposed.Obj?
  {
    Sorted(existing.fields.Keys + proposed.fields.Keys)
  }

  function IndexTokens(n: nat): seq<string> {
    seq(n, i requires 0 <= i < n => Decimal(i))
  }

  ghost function Diffs(existing: Json, proposed: Json): seq<Diff>
    decreases existing, 1
  {
    if existing.Obj? && proposed.Obj? then
      Gather(FieldTokens(existing, proposed), FieldParts(existing, proposed, FieldTokens(existing, proposed)))
    else if existing.Arr? && proposed.Arr? then
      Gather(IndexTokens(Longer(existing.items, proposed.items)), ItemParts(existing, proposed))
    else if !PyEqual(existing, proposed) then [Diff([], Changed(existing, proposed))]
    else []
  }

  // ---- pointers are rendered token paths ---------------------------------------------------------------

  function Located(diffs: seq<Diff>, path: string): seq<Report> {
    seq(|diffs|, i requires 0 <= i < |diffs| => LocatedOne(diffs[i], path))
  }

  lemma ChildRender(path: string, token: string, rest: seq<string>)
    ensures path + Render([token] + rest) == Child(path, token) + Render(rest)
  {
    assert ([token] + rest)[1..] == rest;
    assert path + ("/" + Escape(token) + Render(rest)) == path + "/" + Escape(token) + Render(rest);
  }

  lemma LocatedUnder(token: string, diffs: seq<Diff>, path: string)
    ensures Located(Under(token, diffs), path) == Located(diffs, Child(path, token))
  {
    forall i | 0 <= i < |diffs|
      ensures Located(Under(token, diffs), path)[i] == Located(diffs, Child(path, token))[i]
    {
      ChildRender(path, token, diffs[i].path);
    }
  }

  lemma LocatedJoin(a: seq<Diff>, b: seq<Diff>, path: string)
    ensures Located(a + b, path) == Located(a, path) + Located(b, path)
  {
    forall i | 0 <= i < |a + b| ensures Located(a + b, path)[i] == (Located(a, path) + Located(b, path))[i] {
      LocatedAt(a + b, path, i);
      if i < |a| { LocatedAt(a, path, i); } else { LocatedAt(b, path, i - |a|); }
    }
  }

  function LocatedOne(diff: Diff, path: string): Report {
    Report(if path + Render(diff.path) == "" then "/" else path + Render(diff.path), diff.change)
  }

  lemma LocatedAt(diffs: seq<Diff>, path: string, i: nat)
    requires i < |diffs|
    ensures Located(diffs, path)[i] == LocatedOne(diffs[i], path)
  {}

  lemma {:induction false} LocatedGather(tokens: seq<string>, parts: seq<seq<Diff>>, path: string,
                                         reports: seq<seq<Report>>)
    requires |tokens| == |parts| == |reports|
    requires forall i | 0 <= i < |tokens| :: reports[i] == Located(parts[i], Child(path, tokens[i]))
    ensures Flat(reports) == Located(Gather(tokens, parts), path)
  {
    if tokens != [] {
      var n := |tokens| - 1;
      LocatedGather(tokens[..n], parts[..n], path, reports[..n]);
      LocatedUnder(tokens[n], parts[n], path);
      LocatedJoin(Gather(tokens[..n], parts[..n]), Under(tokens[n], parts[n]), path);
    }
  }

  lemma LocatedRoot(change: Change, path: string)
    ensures Located([Diff([], change)], path) == [Report(if path == "" then "/" else path, change)]
  {
    assert path + "" == path;
  }

  lemma LocatedChild(change: Change, path: string, token: string)
    ensures Located([Diff([], change)], Child(path, token)) == [Report(Child(path, token), change)]
  {
    LocatedRoot(change, Child(path, token));
  }

  /** The source's list is the token list with every path rendered as a pointer. */
  lemma {:induction false} ReportsAreLocated(existing: Json, proposed: Json, path: string)
    ensures Reports(existing, proposed, path) == Located(Diffs(existing, proposed), path)
    decreases existing, 1
  {
    if existing.Obj? && proposed.Obj? {
      ObjectReports(existing, proposed, path);
    } else if existing.Arr? && proposed.Arr? {
      ArrayReports(existing, proposed, path);
    } else {
      LocatedRoot(Changed(existing, proposed), path);
    }
  }

  lemma {:induction false} ObjectReports(existing: Json, proposed: Json, path: string)
    requires existing.Obj? && proposed.Obj?
    ensures Reports(existing, proposed, path) == Located(Diffs(existing, proposed), path)
    decreases existing, 0
  {
    var keys := FieldTokens(existing, proposed);
    var parts, reports := FieldParts(existing, proposed, keys), FieldReports(existing, proposed, keys, path);
    forall i | 0 <= i < |keys| ensures reports[i] == Located(parts[i], Child(path, keys[i])) {
      var k := keys[i];
      if k !in existing.fields {
        LocatedChild(Added(proposed.fields[k]), path, k);
      } else if k !in proposed.fields {
        LocatedChild(Removed(existing.fields[k]), path, k);
      } else {
        ReportsAreLocated(existing.fields[k], proposed.fields[k], Child(path, k));
      }
    }
    LocatedGather(keys, parts, path, reports);
  }

  lemma {:induction false} ArrayReports(existing: Json, proposed: Json, path: string)
    requires existing.Arr? && proposed.Arr?
    ensures Reports(existing, proposed, path) == Located(Diffs(existing, proposed), path)
    decreases existing, 0
  {
    var n := Longer(existing.items, proposed.items);
    var tokens, parts, reports := IndexTokens(n), ItemParts(existing, proposed), ItemReports(existing, proposed, path);
    forall i | 0 <= i < n ensures reports[i] == Located(parts[i], Child(path, tokens[i])) {
      if i >= |existing.items| {
        LocatedChild(Added(proposed.items[i]), path, Decimal(i));
      } else if i >= |proposed.items| {
        LocatedChild(Removed(existing.items[i]), path, Decimal(i));
      } else {
        ReportsAreLocated(existing.items[i], proposed.items[i], Child(path, Decimal(i)));
      }
    }
    LocatedGather(tokens, parts, path, reports);
  }

  // ---- empty exactly when equal ------------------------------------------------------------------------

  lemma {:induction false} GatherEmpty(tokens: seq<string>, parts: seq<seq<Diff>>)
    requires |tokens| == |parts|
    ensures Gather(tokens, parts) == [] <==> forall i | 0 <= i < |parts| :: parts[i] == []
  {
    if tokens != [] {
      var n := |tokens| - 1;
      GatherEmpty(tokens[..n], parts[..n]);
      assert |Under(tokens[n], parts[n])| == |parts[n]|;
      assert forall i | 0 <= i < n :: parts[..n][i] == parts[i];
    }
  }

  lemma {:induction false} EmptyExactly(existing: Json, proposed: Json)
    ensures Diffs(existing, proposed) == [] <==> PyEqual(existing, proposed)
    decreases existing
  {
    if existing.Obj? && proposed.Obj? {
      var keys := FieldTokens(existing, proposed);
      var parts := FieldParts(existing, proposed, keys);
      GatherEmpty(keys, parts);
      forall i | 0 <= i < |keys|
        ensures parts[i] == [] <==> keys[i] in existing.fields && keys[i] in proposed.fields
                                    && PyEqual(existing.fields[keys[i]], proposed.fields[keys[i]])
      {
        if keys[i] in existing.fields && keys[i] in proposed.fields {
          EmptyExactly(existing.fields[keys[i]], proposed.fields[keys[i]]);
        }
      }
      forall k ensures k in existing.fields || k in proposed.fields <==> exists i :: 0 <= i < |keys| && keys[i] == k {
        assert k in keys <==> k in existing.fields.Keys + proposed.fields.Keys;
      }
      EmptyFields(existing, proposed, keys, parts);
    } else if existing.Arr? && proposed.Arr? {
      var parts := ItemParts(existing, proposed);
      GatherEmpty(IndexTokens(Longer(existing.items, proposed.items)), parts);
      forall i | 0 <= i < |parts|
        ensures parts[i] == []
                <==> i < |existing.items| && i < |proposed.items| && PyEqual(existing.items[i], proposed.items[i])
      {
        if i < |existing.items| && i < |proposed.items| { EmptyExactly(existing.items[i], proposed.items[i]); }
      }
      if |existing.items| != |proposed.items| { assert parts[Longer(existing.items, proposed.items) - 1] != []; }
    }
  }

  lemma EmptyFields(existing: Json, proposed: Json, keys: seq<string>, parts: seq<seq<Diff>>)
    requires existing.Obj? && proposed.Obj? && |keys| == |parts|
    requires forall k :: k in existing.fields || k in proposed.fields <==> exists i :: 0 <= i < |keys| && keys[i] == k
    requires forall i | 0 <= i < |keys| ::
               parts[i] == [] <==> keys[i] in existing.fields && keys[i] in proposed.fields
                                   && PyEqual(existing.fields[keys[i]], proposed.fields[keys[i]])
    ensures (forall i | 0 <= i < |parts| :: parts[i] == []) <==> PyEqual(existing, proposed)
  {
    if forall i | 0 <= i < |parts| :: parts[i] == [] {
      forall k ensures k in existing.fields <==> k in proposed.fields {
        if k in existing.fields || k in proposed.fields {
          var i :| 0 <= i < |keys| && keys[i] == k;
          assert parts[i] == [];
        }
      }
      forall k | k in existing.fields && k in proposed.fields ensures PyEqual(existing.fields[k], proposed.fields[k]) {
        var i :| 0 <= i < |keys| && keys[i] == k;
        assert parts[i] == [];
      }
    }
    if PyEqual(existing, proposed) {
      forall i | 0 <= i < |parts| ensures parts[i] == [] {
        var k := keys[i];
        assert k in existing.fields.Keys <==> k in proposed.fields.Keys;
      }
    }
  }
}
