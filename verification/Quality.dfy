/** Data-quality contracts over batches of rows: which cells violate what, and how rows split into valid and invalid. */
module Quality {
  import opened Common
  import opened Numbers

  /** A feature value. `==` and `<` see numbers through their value, the uniqueness key through their type too. */
  datatype Value = NumberValue(n: Number) | TextValue(text: string) | TimeValue(at: Time)

  /** An accepted value may be spelled as another kind of number. */
  predicate Matches(a: Value, b: Value) {
    if a.NumberValue? && b.NumberValue? then SameValue(a.n, b.n) else a == b
  }

  /** In the order of the enumeration, which is the order violations are reported in. */
  datatype Constraint = Nullable | Minimum | Maximum | AcceptedValues | Unique | MaxAgeSeconds

  const ORDER := [Nullable, Minimum, Maximum, AcceptedValues, Unique, MaxAgeSeconds]

  function Rank(c: Constraint): (r: nat)
    ensures r < |ORDER| && ORDER[r] == c
  {
    match c
    case Nullable => 0
    case Minimum => 1
    case Maximum => 2
    case AcceptedValues => 3
    case Unique => 4
    case MaxAgeSeconds => 5
  }

  datatype Contract = Contract(
    nullable: bool, minimum: Option<real>, maximum: Option<real>, accepted: Option<seq<Value>>,
    unique: bool, maxAge: Option<nat>)

  datatype Feature = Feature(name: string, quality: Option<Contract>)

  /** A row holds the cells that are not null. */
  type Row = map<string, Value>

  datatype Violation = Violation(row: nat, feature: string, constraint: Constraint)

  /** The arguments of one validation. */
  datatype Batch = Batch(rows: seq<Row>, features: seq<Feature>, times: seq<Time>, reference: Time, checkUnique: bool)
  {
    predicate Valid() {
      && |times| == |rows|
      && (forall k, l | 0 <= k < l < |features| :: features[k].name != features[l].name)
      && (forall i, k | 0 <= i < |rows| && 0 <= k < |features| && features[k].quality.Some? ::
            Comparable(features[k].quality.value, CellOf(rows[i], features[k].name)))
    }
  }

  function CellOf(row: Row, name: string): Option<Value> {
    if name in row then Some(row[name]) else None
  }

  /** Bounds are declared on numeric features only, so a bounded cell that is not null is a number. */
  predicate Comparable(quality: Contract, cell: Option<Value>) {
    (quality.minimum.Some? || quality.maximum.Some?) && cell.Some? ==> cell.value.NumberValue?
  }

  // ---- what a violation is -----------------------------------------------------------------------

  /** Another row carries the same value, type included. */
  ghost predicate Duplicated(rows: seq<Row>, name: string, i: nat)
    requires i < |rows| && name in rows[i]
  {
    exists j :: 0 <= j < |rows| && j != i && name in rows[j] && rows[j][name] == rows[i][name]
  }

  /** The meaning of each constraint, for one cell of a row of some age. */
  predicate Broken(quality: Contract, cell: Option<Value>, duplicated: bool, age: int, c: Constraint)
    requires Comparable(quality, cell)
  {
    match c
    case Nullable => !quality.nullable && cell.None?
    case Minimum => quality.minimum.Some? && cell.Some? && cell.value.n.Real() < quality.minimum.value
    case Maximum => quality.maximum.Some? && cell.Some? && cell.value.n.Real() > quality.maximum.value
    case AcceptedValues => quality.accepted.Some? && cell.Some? && !Accepts(quality.accepted.value, cell.value)
    case Unique => duplicated
    case MaxAgeSeconds => quality.maxAge.Some? && age > Seconds(quality.maxAge.value)
  }

  predicate Accepts(accepted: seq<Value>, value: Value) {
    exists one | one in accepted :: Matches(value, one)
  }

  ghost predicate BreaksUnique(batch: Batch, i: nat, feature: Feature)
    requires i < |batch.rows|
  {
    batch.checkUnique && Asks(feature) && feature.name in batch.rows[i] && Duplicated(batch.rows, feature.name, i)
  }

  predicate Asks(feature: Feature) {
    feature.quality.Some? && feature.quality.value.unique
  }

  ghost predicate Violates(batch: Batch, i: nat, k: nat, c: Constraint)
    requires batch.Valid() && i < |batch.rows| && k < |batch.features|
  {
    var feature := batch.features[k];
    feature.quality.Some?
    && Broken(feature.quality.value, CellOf(batch.rows[i], feature.name), BreaksUnique(batch, i, feature),
              batch.reference - batch.times[i], c)
  }

  ghost function CellViolations(batch: Batch, i: nat, k: nat, m: nat): seq<Violation>
    requires batch.Valid() && i < |batch.rows| && k < |batch.features| && m <= |ORDER|
  {
    if m == 0 then []
    else
      CellViolations(batch, i, k, m - 1)
      + if Violates(batch, i, k, ORDER[m - 1]) then [Violation(i, batch.features[k].name, ORDER[m - 1])] else []
  }

  ghost function RowViolations(batch: Batch, i: nat, k: nat): seq<Violation>
    requires batch.Valid() && i < |batch.rows| && k <= |batch.features|
  {
    if k == 0 then [] else RowViolations(batch, i, k - 1) + CellViolations(batch, i, k - 1, |ORDER|)
  }

  ghost function BatchViolations(batch: Batch, n: nat): seq<Violation>
    requires batch.Valid() && n <= |batch.rows|
  {
    if n == 0 then [] else BatchViolations(batch, n - 1) + RowViolations(batch, n - 1, |batch.features|)
  }

  // ---- the validator -----------------------------------------------------------------------------

  /** The index lists `indexes_by_value` holds after the first n rows. */
  ghost predicate Grouped(rows: seq<Row>, name: string, n: nat, byValue: map<Value, seq<nat>>)
    requires n <= |rows|
  {
    && (forall i | 0 <= i < n && name in rows[i] :: rows[i][name] in byValue && i in byValue[rows[i][name]])
    && (forall value | value in byValue :: Indexes(rows, name, n, value, byValue[value]))
  }

  ghost predicate Indexes(rows: seq<Row>, name: string, n: nat, value: Value, indexes: seq<nat>)
    requires n <= |rows|
  {
    && (forall p | 0 <= p < |indexes| :: indexes[p] < n && name in rows[indexes[p]] && rows[indexes[p]][name] == value)
    && (forall p, q | 0 <= p < q < |indexes| :: indexes[p] != indexes[q])
  }

  lemma IndexesGrow(rows: seq<Row>, name: string, n: nat, value: Value, indexes: seq<nat>)
    requires n < |rows| && Indexes(rows, name, n, value, indexes) && name in rows[n] && rows[n][name] == value
    ensures Indexes(rows, name, n + 1, value, indexes + [n])
  {}

  lemma GroupedStep(rows: seq<Row>, name: string, n: nat, byValue: map<Value, seq<nat>>)
    requires n < |rows| && Grouped(rows, name, n, byValue)
    ensures name !in rows[n] ==> Grouped(rows, name, n + 1, byValue)
    ensures name in rows[n] ==>
              var value := rows[n][name];
              Grouped(rows, name, n + 1, byValue[value := (if value in byValue then byValue[value] else []) + [n]])
  {
    if name in rows[n] {
      var value := rows[n][name];
      var before := if value in byValue then byValue[value] else [];
      var after := byValue[value := before + [n]];
      forall i | 0 <= i < n + 1 && name in rows[i] ensures rows[i][name] in after && i in after[rows[i][name]] {
        if i == n { assert (before + [n])[|before|] == n; }
      }
      forall other | other in after ensures Indexes(rows, name, n + 1, other, after[other]) {
        if other == value { IndexesGrow(rows, name, n, value, before); }
      }
    }
  }

  method DuplicateRows(rows: seq<Row>, name: string) returns (duplicates: set<nat>)
    ensures forall i :: i in duplicates <==> 0 <= i < |rows| && name in rows[i] && Duplicated(rows, name, i)
  {
    var byValue: map<Value, seq<nat>> := map[];
    for i := 0 to |rows|
      invariant Grouped(rows, name, i, byValue)
    {
      GroupedStep(rows, name, i, byValue);
      if name in rows[i] {
        var value := rows[i][name];
        byValue := byValue[value := (if value in byValue then byValue[value] else []) + [i]];
      }
    }
    duplicates := set value, i | value in byValue && |byValue[value]| > 1 && i in byValue[value] :: i;
    forall i ensures i in duplicates <==> 0 <= i < |rows| && name in rows[i] && Duplicated(rows, name, i) {
      if i in duplicates {
        var value :| value in byValue && |byValue[value]| > 1 && i in byValue[value];
        AnotherIndex(rows, name, |rows|, value, byValue[value], i);
      }
      if 0 <= i < |rows| && name in rows[i] && Duplicated(rows, name, i) {
        var j :| 0 <= j < |rows| && j != i && name in rows[j] && rows[j][name] == rows[i][name];
        assert i in byValue[rows[i][name]] && j in byValue[rows[i][name]];
      }
    }
  }

  lemma AnotherIndex(rows: seq<Row>, name: string, n: nat, value: Value, indexes: seq<nat>, i: nat)
    requires n <= |rows| && Indexes(rows, name, n, value, indexes) && |indexes| > 1 && i in indexes
    ensures i < n && name in rows[i] && Duplicated(rows, name, i)
  {
    var p :| 0 <= p < |indexes| && indexes[p] == i;
    var q := if p == 0 then 1 else 0;
    assert indexes[q] != i;
  }

  /** The duplicate sets of the features that ask for uniqueness. */
  ghost predicate DuplicatesKnown(batch: Batch, k: nat, duplicates: map<string, set<nat>>)
    requires k <= |batch.features|
  {
    forall l | 0 <= l < k :: DuplicatesOf(batch, batch.features[l], duplicates)
  }

  ghost predicate DuplicatesOf(batch: Batch, feature: Feature, duplicates: map<string, set<nat>>) {
    batch.checkUnique && feature.quality.Some? && feature.quality.value.unique ==>
      feature.name in duplicates
      && forall i :: i in duplicates[feature.name] <==>
           0 <= i < |batch.rows| && feature.name in batch.rows[i] && Duplicated(batch.rows, feature.name, i)
  }

  /** A duplicate set was collected only for a feature that asks for it. */
  ghost predicate OnlyAsked(batch: Batch, k: nat, duplicates: map<string, set<nat>>)
    requires k <= |batch.features|
  {
    forall name | name in duplicates ::
      batch.checkUnique && exists l :: 0 <= l < k && batch.features[l].name == name && Asks(batch.features[l])
  }

  method FindDuplicates(batch: Batch) returns (duplicates: map<string, set<nat>>)
    requires batch.Valid()
    ensures DuplicatesKnown(batch, |batch.features|, duplicates)
    ensures OnlyAsked(batch, |batch.features|, duplicates)
  {
    duplicates := map[];
    if batch.checkUnique {
      for k := 0 to |batch.features|
        invariant DuplicatesKnown(batch, k, duplicates)
        invariant OnlyAsked(batch, k, duplicates)
      {
        var feature := batch.features[k];
        if feature.quality.Some? && feature.quality.value.unique {
          var found := DuplicateRows(batch.rows, feature.name);
          duplicates := duplicates[feature.name := found];
        }
      }
    }
  }

  method CheckCell(batch: Batch, i: nat, k: nat, quality: Contract, duplicated: bool) returns (found: seq<Violation>)
    requires batch.Valid() && i < |batch.rows| && k < |batch.features|
    requires batch.features[k].quality == Some(quality) && (duplicated <==> BreaksUnique(batch, i, batch.features[k]))
    ensures found == CellViolations(batch, i, k, |ORDER|)
  {
    found := [];
    var name, cell := batch.features[k].name, CellOf(batch.rows[i], batch.features[k].name);
    if cell.None? {
      if !quality.nullable { found := found + [Violation(i, name, Nullable)]; }
      assert found == CellViolations(batch, i, k, 1);
      assert found == CellViolations(batch, i, k, 2);
      assert found == CellViolations(batch, i, k, 3);
      assert found == CellViolations(batch, i, k, 4);
    } else {
      assert found == CellViolations(batch, i, k, 1);
      if quality.minimum.Some? && cell.value.n.Real() < quality.minimum.value {
        found := found + [Violation(i, name, Minimum)];
      }
      assert found == CellViolations(batch, i, k, 2);
      if quality.maximum.Some? && cell.value.n.Real() > quality.maximum.value {
        found := found + [Violation(i, name, Maximum)];
      }
      assert found == CellViolations(batch, i, k, 3);
      if quality.accepted.Some? && !Accepts(quality.accepted.value, cell.value) {
        found := found + [Violation(i, name, AcceptedValues)];
      }
      assert found == CellViolations(batch, i, k, 4);
      if duplicated {
        found := found + [Violation(i, name, Unique)];
      }
    }
    assert found == CellViolations(batch, i, k, 5);
    if quality.maxAge.Some? && batch.times[i] < batch.reference - Seconds(quality.maxAge.value) {
      found := found + [Violation(i, name, MaxAgeSeconds)];
    }
  }

  lemma KnownDuplicate(batch: Batch, i: nat, k: nat, duplicates: map<string, set<nat>>)
    requires batch.Valid() && i < |batch.rows| && k < |batch.features|
    requires DuplicatesKnown(batch, |batch.features|, duplicates) && OnlyAsked(batch, |batch.features|, duplicates)
    ensures var feature := batch.features[k];
            (feature.name in duplicates && i in duplicates[feature.name]) <==> BreaksUnique(batch, i, feature)
  {
    assert DuplicatesOf(batch, batch.features[k], duplicates);
  }

  lemma {:induction false} NoContract(batch: Batch, i: nat, k: nat, m: nat)
    requires batch.Valid() && i < |batch.rows| && k < |batch.features| && m <= |ORDER|
    requires batch.features[k].quality.None?
    ensures CellViolations(batch, i, k, m) == []
  {
    if m > 0 { NoContract(batch, i, k, m - 1); }
  }

  /**
   * `validate_quality_rows`. It reports exactly the violations there are, each once, sorted by row, by
   * declared feature and by constraint; the final in-place sort has nothing left to move.
   */
  method Validate(batch: Batch) returns (violations: seq<Violation>)
    requires batch.Valid()
    ensures violations == BatchViolations(batch, |batch.rows|)
    ensures forall v :: v in violations <==> Reported(batch, v)
    ensures Sorted(batch, violations)
  {
    var duplicates := FindDuplicates(batch);
    violations := [];
    for i := 0 to |batch.rows|
      invariant violations == BatchViolations(batch, i)
    {
      ghost var before := violations;
      for k := 0 to |batch.features|
        invariant violations == before + RowViolations(batch, i, k)
      {
        var feature := batch.features[k];
        if feature.quality.Some? {
          var duplicated := feature.name in duplicates && i in duplicates[feature.name];
          KnownDuplicate(batch, i, k, duplicates);
          var found := CheckCell(batch, i, k, feature.quality.value, duplicated);
          violations := violations + found;
        } else {
          NoContract(batch, i, k, |ORDER|);
        }
      }
    }
    ReportedExactly(batch, |batch.rows|);
    ReportedInOrder(batch, |batch.rows|);
  }

  // ---- what the report says ------------------------------------------------------------------------

  /** The violation names a cell that violates that constraint. */
  ghost predicate Reported(batch: Batch, v: Violation)
    requires batch.Valid()
  {
    Found(batch, |batch.features|, v)
  }

  lemma {:induction false} InCell(batch: Batch, i: nat, k: nat, m: nat, v: Violation)
    requires batch.Valid() && i < |batch.rows| && k < |batch.features| && m <= |ORDER|
    ensures v in CellViolations(batch, i, k, m) <==>
              v.row == i && v.feature == batch.features[k].name && Rank(v.constraint) < m
              && Violates(batch, i, k, v.constraint)
  {
    if m > 0 { InCell(batch, i, k, m - 1, v); }
  }

  /** One of the first n features bears the violation's name and its cell violates the constraint. */
  ghost predicate Found(batch: Batch, n: nat, v: Violation)
    requires batch.Valid() && n <= |batch.features|
  {
    v.row < |batch.rows|
    && exists k: nat :: k < n && batch.features[k].name == v.feature && Violates(batch, v.row, k, v.constraint)
  }

  lemma {:induction false} InRow(batch: Batch, i: nat, n: nat, v: Violation)
    requires batch.Valid() && i < |batch.rows| && n <= |batch.features|
    ensures v in RowViolations(batch, i, n) <==> v.row == i && Found(batch, n, v)
  {
    if n > 0 {
      InRow(batch, i, n - 1, v);
      InCell(batch, i, n - 1, |ORDER|, v);
    }
  }

  lemma {:induction false} InBatch(batch: Batch, n: nat, v: Violation)
    requires batch.Valid() && n <= |batch.rows|
    ensures v in BatchViolations(batch, n) <==> v.row < n && Reported(batch, v)
  {
    if n > 0 {
      InBatch(batch, n - 1, v);
      InRow(batch, n - 1, |batch.features|, v);
    }
  }

  lemma ReportedExactly(batch: Batch, n: nat)
    requires batch.Valid() && n <= |batch.rows|
    ensures forall v :: v in BatchViolations(batch, n) <==> v.row < n && Reported(batch, v)
  {
    forall v ensures v in BatchViolations(batch, n) <==> v.row < n && Reported(batch, v) {
      InBatch(batch, n, v);
    }
  }

  ghost predicate Declared(batch: Batch, a: string, b: string) {
    exists k, l :: 0 <= k < l < |batch.features| && batch.features[k].name == a && batch.features[l].name == b
  }

  /** The order of the report: row, then declared feature, then constraint. */
  ghost predicate Ahead(batch: Batch, a: Violation, b: Violation) {
    || a.row < b.row
    || (a.row == b.row && (Declared(batch, a.feature, b.feature)
                           || (a.feature == b.feature && Rank(a.constraint) < Rank(b.constraint))))
  }

  ghost predicate Sorted(batch: Batch, violations: seq<Violation>) {
    forall p, q | 0 <= p < q < |violations| :: Ahead(batch, violations[p], violations[q])
  }

  lemma SortedJoin(batch: Batch, a: seq<Violation>, b: seq<Violation>)
    requires Sorted(batch, a) && Sorted(batch, b)
    requires forall x, y | x in a && y in b :: Ahead(batch, x, y)
    ensures Sorted(batch, a + b)
  {
    var all := a + b;
    forall p, q | 0 <= p < q < |all| ensures Ahead(batch, all[p], all[q]) {
      if p < |a| <= q { assert all[p] in a && all[q] in b; }
    }
  }

  lemma {:induction false} CellInOrder(batch: Batch, i: nat, k: nat, m: nat)
    requires batch.Valid() && i < |batch.rows| && k < |batch.features| && m <= |ORDER|
    ensures Sorted(batch, CellViolations(batch, i, k, m))
  {
    if m > 0 {
      CellInOrder(batch, i, k, m - 1);
      var init := CellViolations(batch, i, k, m - 1);
      forall x | x in init ensures x.row == i && x.feature == batch.features[k].name && Rank(x.constraint) < m - 1 {
        InCell(batch, i, k, m - 1, x);
      }
      SortedJoin(batch, init, CellViolations(batch, i, k, m)[|init|..]);
      assert CellViolations(batch, i, k, m) == init + CellViolations(batch, i, k, m)[|init|..];
    }
  }

  lemma {:induction false} RowInOrder(batch: Batch, i: nat, n: nat)
    requires batch.Valid() && i < |batch.rows| && n <= |batch.features|
    ensures Sorted(batch, RowViolations(batch, i, n))
  {
    if n > 0 {
      RowInOrder(batch, i, n - 1);
      CellInOrder(batch, i, n - 1, |ORDER|);
      var a, b := RowViolations(batch, i, n - 1), CellViolations(batch, i, n - 1, |ORDER|);
      forall x, y | x in a && y in b ensures Ahead(batch, x, y) {
        InRow(batch, i, n - 1, x);
        InCell(batch, i, n - 1, |ORDER|, y);
        var k: nat :| k < n - 1 && batch.features[k].name == x.feature;
        assert Declared(batch, x.feature, y.feature);
      }
      SortedJoin(batch, a, b);
    }
  }

  lemma {:induction false} CellRows(batch: Batch, i: nat, k: nat, m: nat)
    requires batch.Valid() && i < |batch.rows| && k < |batch.features| && m <= |ORDER|
    ensures forall v | v in CellViolations(batch, i, k, m) :: v.row == i
  {
    if m > 0 { CellRows(batch, i, k, m - 1); }
  }

  lemma {:induction false} RowRows(batch: Batch, i: nat, n: nat)
    requires batch.Valid() && i < |batch.rows| && n <= |batch.features|
    ensures forall v | v in RowViolations(batch, i, n) :: v.row == i
  {
    if n > 0 {
      RowRows(batch, i, n - 1);
      CellRows(batch, i, n - 1, |ORDER|);
    }
  }

  lemma {:induction false} BatchRows(batch: Batch, n: nat)
    requires batch.Valid() && n <= |batch.rows|
    ensures forall v | v in BatchViolations(batch, n) :: v.row < n
  {
    if n > 0 {
      BatchRows(batch, n - 1);
      RowRows(batch, n - 1, |batch.features|);
    }
  }

  lemma SortedRows(batch: Batch, a: seq<Violation>, b: seq<Violation>, row: nat)
    requires Sorted(batch, a) && Sorted(batch, b)
    requires (forall x | x in a :: x.row < row) && forall y | y in b :: y.row == row
    ensures Sorted(batch, a + b)
  {
    SortedJoin(batch, a, b);
  }

  lemma {:induction false} ReportedInOrder(batch: Batch, n: nat)
    requires batch.Valid() && n <= |batch.rows|
    ensures Sorted(batch, BatchViolations(batch, n))
  {
    if n > 0 {
      ReportedInOrder(batch, n - 1);
      RowInOrder(batch, n - 1, |batch.features|);
      RowAfterRows(batch, n - 1);
    }
  }

  lemma RowAfterRows(batch: Batch, i: nat)
    requires batch.Valid() && i < |batch.rows|
    requires Sorted(batch, BatchViolations(batch, i)) && Sorted(batch, RowViolations(batch, i, |batch.features|))
    ensures Sorted(batch, BatchViolations(batch, i) + RowViolations(batch, i, |batch.features|))
  {
    BatchRows(batch, i);
    RowRows(batch, i, |batch.features|);
    SortedRows(batch, BatchViolations(batch, i), RowViolations(batch, i, |batch.features|), i);
  }

  // ---- rows ----------------------------------------------------------------------------------------

  /** The indexes below n in the set, ascending. */
  function Ascending(n: nat, wanted: set<nat>): (indexes: seq<nat>) {
    if n == 0 then []
    else if n - 1 in wanted then Ascending(n - 1, wanted) + [n - 1]
    else Ascending(n - 1, wanted)
  }

  /** The indexes below n outside the set, ascending. */
  function AscendingOthers(n: nat, excluded: set<nat>): (indexes: seq<nat>) {
    if n == 0 then []
    else if n - 1 in excluded then AscendingOthers(n - 1, excluded)
    else AscendingOthers(n - 1, excluded) + [n - 1]
  }

  function RowsOf(violations: seq<Violation>): set<nat> {
    set v | v in violations :: v.row
  }

  /** `invalid_row_indexes`. */
  function Invalid(evaluated: nat, violations: seq<Violation>): seq<nat> {
    Ascending(evaluated, RowsOf(violations))
  }

  /** `valid_row_indexes`. */
  function Valid(evaluated: nat, violations: seq<Violation>): seq<nat> {
    AscendingOthers(evaluated, RowsOf(violations))
  }

  lemma {:induction false} AscendingIndexes(n: nat, wanted: set<nat>)
    ensures forall i: nat :: i in Ascending(n, wanted) <==> i < n && i in wanted
    ensures forall i: nat :: i in AscendingOthers(n, wanted) <==> i < n && i !in wanted
  {
    if n > 0 { AscendingIndexes(n - 1, wanted); }
  }

  /** `table.take(indexes)`. */
  function Taken<T>(rows: seq<T>, indexes: seq<nat>): seq<T>
    requires forall i | i in indexes :: i < |rows|
  {
    seq(|indexes|, p requires 0 <= p < |indexes| => assert indexes[p] in indexes; rows[indexes[p]])
  }

  /** Splitting by any set of indexes loses no row and repeats none. */
  lemma {:induction false} SplitConserves<T>(rows: seq<T>, n: nat, chosen: set<nat>)
    requires n <= |rows|
    ensures forall i | i in Ascending(n, chosen) || i in AscendingOthers(n, chosen) :: i < |rows|
    ensures multiset(Taken(rows, AscendingOthers(n, chosen))) + multiset(Taken(rows, Ascending(n, chosen)))
            == multiset(rows[..n])
    ensures |AscendingOthers(n, chosen)| + |Ascending(n, chosen)| == n
  {
    IndexesBelow(rows, n, chosen);
    if n > 0 {
      SplitConserves(rows, n - 1, chosen);
      IndexesBelow(rows, n - 1, chosen);
      var a, b := Ascending(n - 1, chosen), AscendingOthers(n - 1, chosen);
      if n - 1 in chosen { SplitOneMore(rows, n - 1, b, a); } else { SplitOneMore(rows, n - 1, a, b); }
    }
  }

  lemma IndexesBelow<T>(rows: seq<T>, n: nat, chosen: set<nat>)
    requires n <= |rows|
    ensures forall i | i in Ascending(n, chosen) || i in AscendingOthers(n, chosen) :: i < |rows|
  {
    AscendingIndexes(n, chosen);
  }

  lemma SplitOneMore<T>(rows: seq<T>, n: nat, same: seq<nat>, more: seq<nat>)
    requires n < |rows| && (forall i | i in same || i in more || i in more + [n] :: i < |rows|)
    requires multiset(Taken(rows, same)) + multiset(Taken(rows, more)) == multiset(rows[..n])
    ensures multiset(Taken(rows, same)) + multiset(Taken(rows, more + [n])) == multiset(rows[..n + 1])
  {
    OneMore(rows, n, more);
    assert rows[..n + 1] == rows[..n] + [rows[n]];
  }

  lemma OneMore<T>(rows: seq<T>, n: nat, indexes: seq<nat>)
    requires n < |rows| && forall i | i in indexes :: i < |rows|
    ensures forall i | i in indexes + [n] :: i < |rows|
    ensures Taken(rows, indexes + [n]) == Taken(rows, indexes) + [rows[n]]
  {}

  ghost predicate RowBroken(batch: Batch, i: nat)
    requires batch.Valid() && i < |batch.rows|
  {
    exists k: nat, c :: k < |batch.features| && Violates(batch, i, k, c)
  }

  lemma InvalidMeansBroken(batch: Batch, violations: seq<Violation>, i: nat)
    requires batch.Valid() && i < |batch.rows| && (forall v :: v in violations <==> Reported(batch, v))
    ensures i in RowsOf(violations) <==> RowBroken(batch, i)
  {
    if i in RowsOf(violations) {
      var v :| v in violations && v.row == i;
      assert Reported(batch, v);
    }
    if RowBroken(batch, i) {
      var k: nat, c :| k < |batch.features| && Violates(batch, i, k, c);
      assert Reported(batch, Violation(i, batch.features[k].name, c));
      assert Violation(i, batch.features[k].name, c) in violations;
    }
  }

  /**
   * Valid and invalid rows partition the batch: a row is invalid exactly when some contract of it is
   * broken, the two counts add up to the evaluated rows, and taking both sides gives every row once.
   */
  lemma ValidAndInvalidPartition<T>(batch: Batch, violations: seq<Violation>, rows: seq<T>)
    requires batch.Valid() && (forall v :: v in violations <==> Reported(batch, v)) && |rows| == |batch.rows|
    ensures forall i: nat | i < |rows| :: i in Invalid(|rows|, violations) <==> RowBroken(batch, i)
    ensures forall i: nat | i < |rows| :: i in Valid(|rows|, violations) <==> !RowBroken(batch, i)
    ensures |Valid(|rows|, violations)| + |Invalid(|rows|, violations)| == |rows|
    ensures forall i | i in Valid(|rows|, violations) || i in Invalid(|rows|, violations) :: i < |rows|
    ensures multiset(Taken(rows, Valid(|rows|, violations))) + multiset(Taken(rows, Invalid(|rows|, violations)))
            == multiset(rows)
  {
    AscendingIndexes(|rows|, RowsOf(violations));
    SplitConserves(rows, |rows|, RowsOf(violations));
    assert rows[..|rows|] == rows;
    forall i: nat | i < |rows| ensures i in RowsOf(violations) <==> RowBroken(batch, i) {
      InvalidMeansBroken(batch, violations, i);
    }
  }

  /**
   * What is reported of a cell, told by the values: a null that may not be, a number below the minimum or above the
   * maximum, a value that no accepted value equals, one that another row carries too, a row too old at the reference
   * time.
   */
  lemma ReportedByValues(batch: Batch, i: nat, k: nat)
    requires batch.Valid() && i < |batch.rows| && k < |batch.features| && batch.features[k].quality.Some?
    ensures var found := BatchViolations(batch, |batch.rows|); var row, name := batch.rows[i], batch.features[k].name;
            var quality := batch.features[k].quality.value;
            && (Violation(i, name, Nullable) in found <==> name !in row && !quality.nullable)
            && (Violation(i, name, Minimum) in found <==>
                  quality.minimum.Some? && name in row && row[name].n.Real() < quality.minimum.value)
            && (Violation(i, name, Maximum) in found <==>
                  quality.maximum.Some? && name in row && row[name].n.Real() > quality.maximum.value)
            && (Violation(i, name, AcceptedValues) in found <==>
                  && quality.accepted.Some? && name in row
                  && forall one | one in quality.accepted.value ::
                       one != row[name]
                       && (one.NumberValue? && row[name].NumberValue? ==> one.n.Real() != row[name].n.Real()))
            && (Violation(i, name, Unique) in found <==>
                  && batch.checkUnique && quality.unique && name in row
                  && exists j ::
                       0 <= j < |batch.rows| && j != i && name in batch.rows[j] && batch.rows[j][name] == row[name])
            && (Violation(i, name, MaxAgeSeconds) in found <==>
                  quality.maxAge.Some? && batch.times[i] + Seconds(quality.maxAge.value) < batch.reference)
  {
    forall c ensures Violation(i, batch.features[k].name, c) in BatchViolations(batch, |batch.rows|)
                     <==> Violates(batch, i, k, c) {
      ReportedOf(batch, i, k, c);
    }
  }

  lemma ReportedOf(batch: Batch, i: nat, k: nat, c: Constraint)
    requires batch.Valid() && i < |batch.rows| && k < |batch.features|
    ensures Violation(i, batch.features[k].name, c) in BatchViolations(batch, |batch.rows|)
            <==> Violates(batch, i, k, c)
  {
    InBatch(batch, |batch.rows|, Violation(i, batch.features[k].name, c));
  }

  /** Nothing is reported of a feature without a contract, and nothing of a name no feature has. */
  lemma NothingElseReported(batch: Batch, v: Violation)
    requires batch.Valid() && v in BatchViolations(batch, |batch.rows|)
    ensures v.row < |batch.rows|
    ensures exists k ::
              0 <= k < |batch.features| && batch.features[k].name == v.feature && batch.features[k].quality.Some?
  {
    InBatch(batch, |batch.rows|, v);
  }

  // ---- counts --------------------------------------------------------------------------------------

  function CountOf(violations: seq<Violation>, c: Constraint): nat {
    if violations == [] then 0
    else CountOf(violations[..|violations| - 1], c) + if violations[|violations| - 1].constraint == c then 1 else 0
  }

  /** A sum over the whole enumeration. */
  function Total(counts: map<Constraint, nat>): nat {
    (if Nullable in counts then counts[Nullable] else 0) + (if Minimum in counts then counts[Minimum] else 0)
    + (if Maximum in counts then counts[Maximum] else 0)
    + (if AcceptedValues in counts then counts[AcceptedValues] else 0)
    + (if Unique in counts then counts[Unique] else 0) + (if MaxAgeSeconds in counts then counts[MaxAgeSeconds] else 0)
  }

  /** `counts_by_constraint`: the constraints with a count, and only those. */
  function Counts(violations: seq<Violation>): (counts: map<Constraint, nat>)
    ensures forall c :: c in counts <==> CountOf(violations, c) > 0
    ensures forall c | c in counts :: counts[c] == CountOf(violations, c)
  {
    map c: Constraint | c in {Nullable, Minimum, Maximum, AcceptedValues, Unique, MaxAgeSeconds}
        && CountOf(violations, c) > 0
      :: CountOf(violations, c)
  }

  lemma {:induction false} EveryViolationCounted(violations: seq<Violation>)
    ensures CountOf(violations, Nullable) + CountOf(violations, Minimum) + CountOf(violations, Maximum)
            + CountOf(violations, AcceptedValues) + CountOf(violations, Unique) + CountOf(violations, MaxAgeSeconds)
            == |violations|
  {
    if violations != [] {
      EveryViolationCounted(violations[..|violations| - 1]);
      var last := violations[|violations| - 1].constraint;
      match last {
        case Nullable =>
        case Minimum =>
        case Maximum =>
        case AcceptedValues =>
        case Unique =>
        case MaxAgeSeconds =>
      }
    }
  }

  /** The counts by constraint add up to all violations. */
  lemma CountsAddUp(violations: seq<Violation>)
    ensures Total(Counts(violations)) == |violations|
  {
    EveryViolationCounted(violations);
  }
}
