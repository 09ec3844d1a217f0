/** What a difference list is worth: distinct pointers, and a patch that rebuilds the proposed specification. */
module DiffResults {
  import opened Common
  import opened JsonPointer
  import opened Numbers
  import opened Differences

  // ---- paths are distinct ----------------------------------------------------------------------------

  ghost predicate DistinctPaths(diffs: seq<Diff>) {
    forall i, j | 0 <= i < j < |diffs| :: diffs[i].path != diffs[j].path
  }

  ghost predicate DistinctTokens(tokens: seq<string>) {
    forall i, j | 0 <= i < j < |tokens| :: tokens[i] != tokens[j]
  }

  lemma {:induction false} GatherHeads(tokens: seq<string>, parts: seq<seq<Diff>>)
    requires |tokens| == |parts|
    ensures forall d | d in Gather(tokens, parts) :: d.path != [] && d.path[0] in tokens
  {
    if tokens != [] {
      GatherHeads(tokens[..|tokens| - 1], parts[..|tokens| - 1]);
    }
  }

  lemma {:induction false} GatherDistinct(tokens: seq<string>, parts: seq<seq<Diff>>)
    requires |tokens| == |parts| && DistinctTokens(tokens) && forall i | 0 <= i < |parts| :: DistinctPaths(parts[i])
    ensures DistinctPaths(Gather(tokens, parts))
  {
    if tokens != [] {
      var n := |tokens| - 1;
      var a, b := Gather(tokens[..n], parts[..n]), Under(tokens[n], parts[n]);
      GatherDistinct(tokens[..n], parts[..n]);
      GatherHeads(tokens[..n], parts[..n]);
      UnderDistinct(tokens[n], parts[n]);
      forall x, y | x in a && y in b ensures x.path != y.path {
        assert x.path[0] in tokens[..n] && y.path[0] == tokens[n];
      }
      JoinDistinct(a, b);
    }
  }

  lemma JoinDistinct(a: seq<Diff>, b: seq<Diff>)
    requires DistinctPaths(a) && DistinctPaths(b) && forall x, y | x in a && y in b :: x.path != y.path
    ensures DistinctPaths(a + b)
  {
    var all := a + b;
    forall i, j | 0 <= i < j < |all| ensures all[i].path != all[j].path {
      if i < |a| <= j { assert all[i] in a && all[j] in b; }
    }
  }

  lemma UnderDistinct(token: string, diffs: seq<Diff>)
    requires DistinctPaths(diffs)
    ensures DistinctPaths(Under(token, diffs))
  {
    var all := Under(token, diffs);
    forall i, j | 0 <= i < j < |all| ensures all[i].path != all[j].path {
      assert all[i].path[1..] == diffs[i].path && all[j].path[1..] == diffs[j].path;
    }
  }

  lemma IndexTokensDistinct(n: nat)
    ensures DistinctTokens(IndexTokens(n))
  {
    forall i, j | 0 <= i < j < n ensures Decimal(i) != Decimal(j) {
      DecimalRoundTrip(i);
      DecimalRoundTrip(j);
    }
  }

  lemma {:induction false} PathsDistinct(existing: Json, proposed: Json)
    ensures DistinctPaths(Diffs(existing, proposed))
    decreases existing
  {
    if existing.Obj? && proposed.Obj? {
      var keys := FieldTokens(existing, proposed);
      var parts := FieldParts(existing, proposed, keys);
      forall i | 0 <= i < |parts| ensures DistinctPaths(parts[i]) {
        if keys[i] in existing.fields && keys[i] in proposed.fields {
          PathsDistinct(existing.fields[keys[i]], proposed.fields[keys[i]]);
        }
      }
      GatherDistinct(keys, parts);
    } else if existing.Arr? && proposed.Arr? {
      var parts := ItemParts(existing, proposed);
      forall i | 0 <= i < |parts| ensures DistinctPaths(parts[i]) {
        if i < |existing.items| && i < |proposed.items| { PathsDistinct(existing.items[i], proposed.items[i]); }
      }
      IndexTokensDistinct(Longer(existing.items, proposed.items));
      GatherDistinct(IndexTokens(Longer(existing.items, proposed.items)), parts);
    }
  }

  /**
   * The list is empty exactly when the two specifications are equal as the source compares them, and its
   * pointers are pairwise distinct.
   */
  lemma ReportsAreFaithful(existing: Json, proposed: Json)
    ensures Reports(existing, proposed, "") == [] <==> PyEqual(existing, proposed)
    ensures forall i, j | 0 <= i < j < |Reports(existing, proposed, "")| ::
              Reports(existing, proposed, "")[i].pointer != Reports(existing, proposed, "")[j].pointer
  {
    var diffs, reports := Diffs(existing, proposed), Reports(existing, proposed, "");
    ReportsAreLocated(existing, proposed, "");
    EmptyExactly(existing, proposed);
    PathsDistinct(existing, proposed);
    forall i, j | 0 <= i < j < |reports| ensures reports[i].pointer != reports[j].pointer {
      PathsNotEmpty(existing, proposed, i);
      PathsNotEmpty(existing, proposed, j);
      PointerOf(diffs, i);
      PointerOf(diffs, j);
      PointerRoundTrip(diffs[i].path);
      PointerRoundTrip(diffs[j].path);
    }
  }

  /** Only a list of one can have an empty path, and only when the two are not both objects or both lists. */
  lemma PathsNotEmpty(existing: Json, proposed: Json, i: nat)
    requires i < |Diffs(existing, proposed)|
    requires |Diffs(existing, proposed)| > 1 || (existing.Obj? && proposed.Obj?)
    ensures Diffs(existing, proposed)[i].path != []
  {
    if existing.Obj? && proposed.Obj? {
      GatherHeads(FieldTokens(existing, proposed), FieldParts(existing, proposed, FieldTokens(existing, proposed)));
    } else {
      GatherHeads(IndexTokens(Longer(existing.items, proposed.items)), ItemParts(existing, proposed));
    }
    assert Diffs(existing, proposed)[i] in Diffs(existing, proposed);
  }

  lemma PointerOf(diffs: seq<Diff>, i: nat)
    requires i < |diffs| && diffs[i].path != []
    ensures Located(diffs, "")[i].pointer == Render(diffs[i].path)
  {
    assert "" + Render(diffs[i].path) == Render(diffs[i].path);
  }

  // ---- the patch ---------------------------------------------------------------------------------------

  /** The differences of one child, seen from the child. */
  function Strip(diffs: seq<Diff>, token: string): seq<Diff> {
    if diffs == [] then []
    else
      var init, last := Strip(diffs[..|diffs| - 1], token), diffs[|diffs| - 1];
      if last.path != [] && last.path[0] == token then init + [Diff(last.path[1..], last.change)] else init
  }

  /** The change at the value itself, if there is one. */
  function RootChange(diffs: seq<Diff>): Option<Change> {
    if diffs == [] then None
    else if diffs[0].path == [] then Some(diffs[0].change)
    else RootChange(diffs[1..])
  }

  function Outcome(change: Change): Option<Json> {
    match change
    case Added(proposed) => Some(proposed)
    case Removed(_) => None
    case Changed(_, proposed) => Some(proposed)
  }

  function Heads(diffs: seq<Diff>): set<string> {
    set d | d in diffs && d.path != [] :: d.path[0]
  }

  /** The values before the first absent one. */
  function UntilAbsent(values: seq<Option<Json>>): seq<Json> {
    if values == [] || values[0].None? then [] else [values[0].value] + UntilAbsent(values[1..])
  }

  /** A value where there was none. */
  function Fresh(diffs: seq<Diff>): Option<Json> {
    if RootChange(diffs).Some? then Outcome(RootChange(diffs).value) else None
  }

  /** Applies a list of differences to the existing value; `None` when they remove it. */
  function Patched(existing: Json, diffs: seq<Diff>): Option<Json>
    decreases existing, 1
  {
    if RootChange(diffs).Some? then Outcome(RootChange(diffs).value)
    else
      match existing
      case Obj(fields) =>
        Some(Obj(map k | k in fields.Keys + Heads(diffs) && PatchedField(existing, diffs, k).Some?
                 :: PatchedField(existing, diffs, k).value))
      case Arr(items) =>
        var n := |items| + |diffs|;
        Some(Arr(UntilAbsent(seq(n, i requires 0 <= i < n => PatchedItem(existing, diffs, i)))))
      case _ => Some(existing)
  }

  function PatchedField(existing: Json, diffs: seq<Diff>, k: string): Option<Json>
    requires existing.Obj?
    decreases existing, 0
  {
    if k in existing.fields then Patched(existing.fields[k], Strip(diffs, k)) else Fresh(Strip(diffs, k))
  }

  function PatchedItem(existing: Json, diffs: seq<Diff>, i: nat): Option<Json>
    requires existing.Arr?
    decreases existing, 0
  {
    if i < |existing.items| then Patched(existing.items[i], Strip(diffs, Decimal(i)))
    else Fresh(Strip(diffs, Decimal(i)))
  }

  /**
   * The proposed value with the existing spelling of numbers that compare equal: what a list that does not
   * mention those numbers can determine.
   */
  function Merged(existing: Json, proposed: Json): Json
    decreases existing
  {
    if existing.Obj? && proposed.Obj? then
      Obj(map k | k in proposed.fields ::
            if k in existing.fields then Merged(existing.fields[k], proposed.fields[k]) else proposed.fields[k])
    else if existing.Arr? && proposed.Arr? then
      Arr(seq(|proposed.items|, i requires 0 <= i < |proposed.items| =>
        if i < |existing.items| then Merged(existing.items[i], proposed.items[i]) else proposed.items[i]))
    else if PyEqual(existing, proposed) then existing
    else proposed
  }

  lemma {:induction false} StripJoin(a: seq<Diff>, b: seq<Diff>, token: string)
    ensures Strip(a + b, token) == Strip(a, token) + Strip(b, token)
  {
    if b == [] {
      assert a + b == a;
    } else {
      var n := |b| - 1;
      assert (a + b)[..|a + b| - 1] == a + b[..n];
      StripJoin(a, b[..n], token);
    }
  }

  lemma {:induction false} StripUnder(head: string, diffs: seq<Diff>, token: string)
    ensures Strip(Under(head, diffs), token) == if head == token then diffs else []
  {
    if diffs != [] {
      var n := |diffs| - 1;
      StripUnder(head, diffs[..n], token);
      assert Under(head, diffs)[..n] == Under(head, diffs[..n]);
      assert ([head] + diffs[n].path)[1..] == diffs[n].path;
      assert diffs == diffs[..n] + [diffs[n]];
    }
  }

  /** Stripping a gathered list by a child's token gives back the child's part. */
  lemma {:induction false} StripGather(tokens: seq<string>, parts: seq<seq<Diff>>, token: string)
    requires |tokens| == |parts| && DistinctTokens(tokens)
    ensures token !in tokens ==> Strip(Gather(tokens, parts), token) == []
    ensures forall i | 0 <= i < |tokens| && tokens[i] == token :: Strip(Gather(tokens, parts), token) == parts[i]
  {
    if tokens != [] {
      var n := |tokens| - 1;
      StripGather(tokens[..n], parts[..n], token);
      StripJoin(Gather(tokens[..n], parts[..n]), Under(tokens[n], parts[n]), token);
      StripUnder(tokens[n], parts[n], token);
      assert tokens == tokens[..n] + [tokens[n]];
    }
  }

  lemma {:induction false} NoRootChange(diffs: seq<Diff>)
    requires forall d | d in diffs :: d.path != []
    ensures RootChange(diffs).None?
  {
    if diffs != [] {
      assert diffs[0] in diffs;
      NoRootChange(diffs[1..]);
    }
  }

  lemma {:induction false} GatherGrows(tokens: seq<string>, parts: seq<seq<Diff>>, from: nat)
    requires |tokens| == |parts| && from <= |tokens|
    requires forall i | from <= i < |parts| :: parts[i] != []
    ensures |Gather(tokens, parts)| >= |tokens| - from
  {
    if from < |tokens| {
      GatherGrows(tokens[..|tokens| - 1], parts[..|tokens| - 1], from);
    }
  }

  lemma {:induction false} UntilAbsentIs(values: seq<Option<Json>>, wanted: seq<Json>)
    requires |wanted| <= |values| && forall i | 0 <= i < |wanted| :: values[i] == Some(wanted[i])
    requires |wanted| < |values| ==> values[|wanted|].None?
    ensures UntilAbsent(values) == wanted
  {
    if wanted != [] {
      assert values[0] == Some(wanted[0]);
      UntilAbsentIs(values[1..], wanted[1..]);
    }
  }

  /** Patching the existing value with its difference list gives the proposed one. */
  lemma {:induction false} PatchIsMerge(existing: Json, proposed: Json)
    ensures Patched(existing, Diffs(existing, proposed)) == Some(Merged(existing, proposed))
    decreases existing, 2
  {
    if existing.Obj? && proposed.Obj? {
      PatchObject(existing, proposed);
    } else if existing.Arr? && proposed.Arr? {
      PatchArray(existing, proposed);
    } else if PyEqual(existing, proposed) {
      PatchNothing(existing);
    }
  }

  lemma {:induction false} PatchNothing(existing: Json)
    ensures Patched(existing, []) == Some(existing)
    decreases existing
  {
    match existing
    case Obj(fields) =>
      forall k | k in fields ensures PatchedField(existing, [], k) == Some(fields[k]) { PatchNothing(fields[k]); }
      assert Patched(existing, []).value.fields == fields;
    case Arr(items) =>
      forall i | 0 <= i < |items| ensures PatchedItem(existing, [], i) == Some(items[i]) { PatchNothing(items[i]); }
      UntilAbsentIs(seq(|items|, i requires 0 <= i < |items| => PatchedItem(existing, [], i)), items);
    case _ =>
  }

  lemma {:induction false} PatchField(existing: Json, proposed: Json, k: string)
    requires existing.Obj? && proposed.Obj?
    ensures PatchedField(existing, Diffs(existing, proposed), k)
            == if k in proposed.fields then Some(Merged(existing, proposed).fields[k]) else None
    decreases existing, 0
  {
    var keys, diffs := FieldTokens(existing, proposed), Diffs(existing, proposed);
    var parts := FieldParts(existing, proposed, keys);
    StripGather(keys, parts, k);
    if k in existing.fields || k in proposed.fields {
      assert k in keys;
      var i :| 0 <= i < |keys| && keys[i] == k;
      assert Strip(diffs, k) == parts[i];
      if k in existing.fields && k in proposed.fields {
        PatchIsMerge(existing.fields[k], proposed.fields[k]);
      }
    }
  }

  lemma AddedFieldHasHead(existing: Json, proposed: Json, k: string)
    requires existing.Obj? && proposed.Obj? && k in proposed.fields && k !in existing.fields
    ensures k in Heads(Diffs(existing, proposed))
  {
    var keys, diffs := FieldTokens(existing, proposed), Diffs(existing, proposed);
    StripGather(keys, FieldParts(existing, proposed, keys), k);
    assert k in keys;
    var i :| 0 <= i < |keys| && keys[i] == k;
    assert Strip(diffs, k) == FieldParts(existing, proposed, keys)[i];
    StripHead(diffs, k);
  }

  lemma RebuildsObject(existing: Json, diffs: seq<Diff>, merged: map<string, Json>)
    requires existing.Obj? && RootChange(diffs).None?
    requires forall k :: PatchedField(existing, diffs, k) == if k in merged then Some(merged[k]) else None
    requires forall k | k in merged :: k in existing.fields || k in Heads(diffs)
    ensures Patched(existing, diffs) == Some(Obj(merged))
  {
    assert Patched(existing, diffs).value.fields == merged;
  }

  lemma RebuildsArray(existing: Json, diffs: seq<Diff>, merged: seq<Json>)
    requires existing.Arr? && RootChange(diffs).None? && |merged| <= |existing.items| + |diffs|
    requires forall i: nat :: PatchedItem(existing, diffs, i) == if i < |merged| then Some(merged[i]) else None
    ensures Patched(existing, diffs) == Some(Arr(merged))
  {
    var size := |existing.items| + |diffs|;
    UntilAbsentIs(seq(size, i requires 0 <= i < size => PatchedItem(existing, diffs, i)), merged);
  }

  lemma {:induction false} PatchObject(existing: Json, proposed: Json)
    requires existing.Obj? && proposed.Obj?
    ensures Patched(existing, Diffs(existing, proposed)) == Some(Merged(existing, proposed))
    decreases existing, 1
  {
    var diffs := Diffs(existing, proposed);
    GatherHeads(FieldTokens(existing, proposed), FieldParts(existing, proposed, FieldTokens(existing, proposed)));
    NoRootChange(diffs);
    forall k: string
      ensures k in proposed.fields && k !in existing.fields ==> k in Heads(diffs)
      ensures PatchedField(existing, diffs, k)
              == if k in proposed.fields then Some(Merged(existing, proposed).fields[k]) else None
    {
      PatchField(existing, proposed, k);
      if k in proposed.fields && k !in existing.fields { AddedFieldHasHead(existing, proposed, k); }
    }
    RebuildsObject(existing, diffs, Merged(existing, proposed).fields);
  }

  lemma {:induction false} StripHead(diffs: seq<Diff>, token: string)
    ensures Strip(diffs, token) != [] ==> token in Heads(diffs)
  {
    if diffs != [] {
      StripHead(diffs[..|diffs| - 1], token);
      assert diffs[|diffs| - 1] in diffs;
    }
  }

  lemma {:induction false} PatchItem(existing: Json, proposed: Json, i: nat)
    requires existing.Arr? && proposed.Arr?
    ensures PatchedItem(existing, Diffs(existing, proposed), i)
            == if i < |proposed.items| then Some(Merged(existing, proposed).items[i]) else None
    decreases existing, 0
  {
    var n := Longer(existing.items, proposed.items);
    IndexTokensDistinct(n);
    StripGather(IndexTokens(n), ItemParts(existing, proposed), Decimal(i));
    if i < n {
      assert IndexTokens(n)[i] == Decimal(i);
      if i < |existing.items| && i < |proposed.items| { PatchIsMerge(existing.items[i], proposed.items[i]); }
    } else {
      NotAnIndex(n, i);
    }
  }

  lemma {:induction false} PatchArray(existing: Json, proposed: Json)
    requires existing.Arr? && proposed.Arr?
    ensures Patched(existing, Diffs(existing, proposed)) == Some(Merged(existing, proposed))
    decreases existing, 1
  {
    var n, diffs := Longer(existing.items, proposed.items), Diffs(existing, proposed);
    GatherHeads(IndexTokens(n), ItemParts(existing, proposed));
    NoRootChange(diffs);
    GatherGrows(IndexTokens(n), ItemParts(existing, proposed), if |existing.items| < n then |existing.items| else n);
    var merged := Merged(existing, proposed).items;
    forall i: nat ensures PatchedItem(existing, diffs, i) == if i < |merged| then Some(merged[i]) else None {
      PatchItem(existing, proposed, i);
    }
    RebuildsArray(existing, diffs, merged);
  }

  lemma NotAnIndex(n: nat, i: nat)
    requires i >= n
    ensures Decimal(i) !in IndexTokens(n)
  {
    DecimalRoundTrip(i);
    forall j | 0 <= j < n ensures Decimal(j) != Decimal(i) { DecimalRoundTrip(j); }
  }

  // ---- what the patch determines -------------------------------------------------------------------------

  lemma {:induction false} MergedEqual(existing: Json, proposed: Json)
    ensures PyEqual(Merged(existing, proposed), proposed)
    decreases existing
  {
    var merged := Merged(existing, proposed);
    if existing.Obj? && proposed.Obj? {
      forall k | k in proposed.fields ensures PyEqual(merged.fields[k], proposed.fields[k]) {
        if k in existing.fields {
          MergedEqual(existing.fields[k], proposed.fields[k]);
        } else {
          PyEqualReflexive(proposed.fields[k]);
        }
      }
    } else if existing.Arr? && proposed.Arr? {
      forall i | 0 <= i < |proposed.items| ensures PyEqual(merged.items[i], proposed.items[i]) {
        if i < |existing.items| {
          MergedEqual(existing.items[i], proposed.items[i]);
        } else {
          PyEqualReflexive(proposed.items[i]);
        }
      }
    } else if !PyEqual(existing, proposed) {
      PyEqualReflexive(proposed);
    }
  }

  /** Somewhere at the same place the two spell one number in two ways. */
  ghost predicate Aliased(existing: Json, proposed: Json) {
    if existing.Obj? && proposed.Obj? then
      exists k :: k in existing.fields && k in proposed.fields && Aliased(existing.fields[k], proposed.fields[k])
    else if existing.Arr? && proposed.Arr? then
      exists i :: 0 <= i < |existing.items| && i < |proposed.items| && Aliased(existing.items[i], proposed.items[i])
    else existing.Num? && proposed.Num? && SameValue(existing.n, proposed.n) && existing != proposed
  }

  lemma {:induction false} MergedExactly(existing: Json, proposed: Json)
    ensures Merged(existing, proposed) == proposed <==> !Aliased(existing, proposed)
    decreases existing
  {
    var merged := Merged(existing, proposed);
    if existing.Obj? && proposed.Obj? {
      forall k | k in existing.fields && k in proposed.fields
        ensures merged.fields[k] == proposed.fields[k] <==> !Aliased(existing.fields[k], proposed.fields[k])
      {
        MergedExactly(existing.fields[k], proposed.fields[k]);
      }
      assert merged == proposed <==> merged.fields == proposed.fields;
    } else if existing.Arr? && proposed.Arr? {
      forall i | 0 <= i < |existing.items| && i < |proposed.items|
        ensures merged.items[i] == proposed.items[i] <==> !Aliased(existing.items[i], proposed.items[i])
      {
        MergedExactly(existing.items[i], proposed.items[i]);
      }
      assert merged == proposed <==> merged.items == proposed.items;
    }
  }

  /** Reads a list of reports back as token paths. */
  function Read(reports: seq<Report>): seq<Diff> {
    seq(|reports|, i requires 0 <= i < |reports| => Diff(Parse(reports[i].pointer), reports[i].change))
  }

  lemma ReadBack(existing: Json, proposed: Json)
    requires existing.Obj? && proposed.Obj?
    ensures Read(Reports(existing, proposed, "")) == Diffs(existing, proposed)
  {
    ReportsAreLocated(existing, proposed, "");
    var diffs := Diffs(existing, proposed);
    forall i | 0 <= i < |diffs| ensures Read(Located(diffs, ""))[i] == diffs[i] {
      PathsNotEmpty(existing, proposed, i);
      PointerOf(diffs, i);
      PointerRoundTrip(diffs[i].path);
    }
  }

  /**
   * For object-rooted specifications the reported list undoes itself: patching the existing specification
   * with it rebuilds the proposed one, up to the spelling of numbers that compare equal, and exactly when no
   * number is spelled in two ways.
   */
  lemma ListRebuildsProposed(existing: Json, proposed: Json)
    requires existing.Obj? && proposed.Obj?
    ensures var rebuilt := Patched(existing, Read(Reports(existing, proposed, "")));
            rebuilt.Some? && PyEqual(rebuilt.value, proposed)
            && (rebuilt.value == proposed <==> !Aliased(existing, proposed))
  {
    ReadBack(existing, proposed);
    PatchIsMerge(existing, proposed);
    MergedEqual(existing, proposed);
    MergedExactly(existing, proposed);
  }

  /** So the existing specification and the list determine the proposed one. */
  lemma ListDeterminesProposed(existing: Json, a: Json, b: Json)
    requires existing.Obj? && a.Obj? && b.Obj? && Reports(existing, a, "") == Reports(existing, b, "")
    ensures Merged(existing, a) == Merged(existing, b)
    ensures !Aliased(existing, a) && !Aliased(existing, b) ==> a == b
  {
    ReadBack(existing, a);
    ReadBack(existing, b);
    PatchIsMerge(existing, a);
    PatchIsMerge(existing, b);
    MergedExactly(existing, a);
    MergedExactly(existing, b);
  }

  /**
   * Where it falls short: a specification that only spells numbers differently has another fingerprint, so it
   * is refused as a conflict, and yet its difference list is empty. This happens exactly for such aliases.
   */
  lemma EmptyListForConflict(existing: Json, proposed: Json)
    requires existing.Obj? && proposed.Obj?
    ensures existing != proposed && Reports(existing, proposed, "") == [] <==>
              PyEqual(existing, proposed) && Aliased(existing, proposed)
  {
    ReportsAreFaithful(existing, proposed);
    MergedExactly(existing, proposed);
    if PyEqual(existing, proposed) { MergedKeeps(existing, proposed); }
  }

  lemma {:induction false} MergedKeeps(existing: Json, proposed: Json)
    requires PyEqual(existing, proposed)
    ensures Merged(existing, proposed) == existing
    decreases existing
  {
    if existing.Obj? && proposed.Obj? {
      forall k | k in existing.fields ensures Merged(existing.fields[k], proposed.fields[k]) == existing.fields[k] {
        assert k in proposed.fields.Keys;
        MergedKeeps(existing.fields[k], proposed.fields[k]);
      }
      assert Merged(existing, proposed).fields == existing.fields;
    } else if existing.Arr? && proposed.Arr? {
      forall i | 0 <= i < |existing.items| ensures Merged(existing.items[i], proposed.items[i]) == existing.items[i] {
        MergedKeeps(existing.items[i], proposed.items[i]);
      }
      assert Merged(existing, proposed).items == existing.items;
    }
  }

  /** An instance: a bound of 1 proposed as 1.0. */
  lemma IntegerForFloat()
    ensures var a, b := Obj(map["minimum" := Num(Int(1))]), Obj(map["minimum" := Num(Float(1.0))]);
            a != b && Reports(a, b, "") == []
  {
    var a, b := Obj(map["minimum" := Num(Int(1))]), Obj(map["minimum" := Num(Float(1.0))]);
    assert a.fields["minimum"] != b.fields["minimum"];
    assert PyEqual(a.fields["minimum"], b.fields["minimum"]);
    ReportsAreFaithful(a, b);
  }
}
