/**
 * Chunked backfill of an offline view: one chunk per UTC date, each written by replacing its rows within
 * its date partition and then checkpointed. Attempts may stop anywhere and stale ones keep writing.
 */
module Backfill {
  import opened Common
  import opened Chunks
  import Q = Quality

  datatype Policy = Reject | Quarantine | Report

  datatype RowError = RowError(feature: string, constraint: Q.Constraint)

  /** A table row; `errors` is the `quality_errors` column, empty outside quarantine tables. */
  datatype Row = Row(at: Time, cells: Q.Row, errors: seq<RowError>)

  /** An offline table, or none yet. */
  type Table = Option<seq<Row>>

  function Contents(t: Table): multiset<Row> {
    multiset(t.GetOr([]))
  }

  datatype Summary = Summary(
    policy: Policy, evaluated: nat, valid: nat, invalid: nat, quarantined: nat, counts: map<Q.Constraint, nat>)

  /** A checkpoint: the current form, the two legacy forms, or any other text. */
  datatype Mark =
    | BackfillMark(cursor: Time, summary: Summary)
    | CursorMark(cursor: Time)
    | QualityMark(summary: Summary)
    | OtherMark

  /**
   * What a backfill job runs on: its range, the policy and features of its view, and the transform over
   * the fixed source, which gives the rows of a chunk or raises.
   */
  datatype Plan = Plan(range: Range, policy: Policy, features: seq<Q.Feature>, transform: Chunk -> Option<seq<Row>>)

  // ---- one chunk ---------------------------------------------------------------------------------

  function Filter<T>(rows: seq<T>, keep: T -> bool): seq<T> {
    if rows == [] then []
    else if keep(rows[|rows| - 1]) then Filter(rows[..|rows| - 1], keep) + [rows[|rows| - 1]]
    else Filter(rows[..|rows| - 1], keep)
  }

  lemma {:induction false} FilterCounts<T>(rows: seq<T>, keep: T -> bool, row: T)
    ensures multiset(Filter(rows, keep))[row] == if keep(row) then multiset(rows)[row] else 0
  {
    if rows != [] {
      FilterCounts(rows[..|rows| - 1], keep, row);
      assert rows == rows[..|rows| - 1] + [rows[|rows| - 1]];
    }
  }

  predicate Runs(p: Plan, i: nat) {
    p.transform(OnDate(p.range, i)).Some?
  }

  /** The transformed rows whose timestamp lies in the chunk. */
  function Output(p: Plan, i: nat): seq<Row>
    requires Runs(p, i)
  {
    Filter(p.transform(OnDate(p.range, i)).value, (row: Row) => Holds(OnDate(p.range, i), row.at))
  }

  function BatchOf(p: Plan, rows: seq<Row>, reference: Time): Q.Batch {
    Q.Batch(seq(|rows|, k requires 0 <= k < |rows| => rows[k].cells), p.features,
            seq(|rows|, k requires 0 <= k < |rows| => rows[k].at), reference, true)
  }

  /** The transform's rows have passed the dtype checks, and carry no quarantine columns. */
  ghost predicate Typed(p: Plan) {
    forall i: nat | Runs(p, i) :: TypedChunk(p, i)
  }

  ghost predicate TypedChunk(p: Plan, i: nat)
    requires Runs(p, i)
  {
    && BatchOf(p, Output(p, i), OnDate(p.range, i).end).Valid()
    && forall row | row in Output(p, i) :: row.errors == []
  }

  ghost function Violations(p: Plan, i: nat): seq<Q.Violation>
    requires Typed(p) && Runs(p, i)
  {
    var batch := BatchOf(p, Output(p, i), OnDate(p.range, i).end);
    assert TypedChunk(p, i);
    Q.BatchViolations(batch, |batch.rows|)
  }

  ghost function ValidIndexes(p: Plan, i: nat): seq<nat>
    requires Typed(p) && Runs(p, i)
  {
    Q.Valid(|Output(p, i)|, Violations(p, i))
  }

  ghost function InvalidIndexes(p: Plan, i: nat): seq<nat>
    requires Typed(p) && Runs(p, i)
  {
    Q.Invalid(|Output(p, i)|, Violations(p, i))
  }

  /** The errors of one row, in report order. */
  function ErrorsOf(violations: seq<Q.Violation>, row: nat): seq<RowError> {
    if violations == [] then []
    else
      var init, last := violations[..|violations| - 1], violations[|violations| - 1];
      if last.row == row then ErrorsOf(init, row) + [RowError(last.feature, last.constraint)] else ErrorsOf(init, row)
  }

  /** The quarantined form of the rows at the given indexes. */
  function Bad(rows: seq<Row>, indexes: seq<nat>, violations: seq<Q.Violation>): seq<Row>
    requires forall k | k in indexes :: k < |rows|
  {
    seq(|indexes|, k requires 0 <= k < |indexes| =>
      assert indexes[k] in indexes; rows[indexes[k]].(errors := ErrorsOf(violations, indexes[k])))
  }

  lemma IndexesInRange(p: Plan, i: nat)
    requires Typed(p) && Runs(p, i)
    ensures forall k | k in ValidIndexes(p, i) || k in InvalidIndexes(p, i) :: k < |Output(p, i)|
  {
    Q.AscendingIndexes(|Output(p, i)|, Q.RowsOf(Violations(p, i)));
  }

  /** The rows a chunk puts into the view. */
  ghost function Written(p: Plan, i: nat): seq<Row>
    requires Typed(p) && Runs(p, i)
  {
    IndexesInRange(p, i);
    if p.policy == Quarantine then Q.Taken(Output(p, i), ValidIndexes(p, i)) else Output(p, i)
  }

  /** The rows a chunk puts into the job's quarantine table. */
  ghost function Quarantined(p: Plan, i: nat): seq<Row>
    requires Typed(p) && Runs(p, i)
  {
    IndexesInRange(p, i);
    if p.policy == Quarantine then Bad(Output(p, i), InvalidIndexes(p, i), Violations(p, i)) else []
  }

  lemma {:induction false} FilterKeeps<T>(rows: seq<T>, keep: T -> bool)
    ensures forall row | row in Filter(rows, keep) :: keep(row) && row in rows
  {
    if rows != [] { FilterKeeps(rows[..|rows| - 1], keep); }
  }

  lemma ChunkRowsAreInside(p: Plan, i: nat)
    requires Typed(p) && Runs(p, i)
    ensures forall row | row in Output(p, i) :: Holds(OnDate(p.range, i), row.at)
    ensures forall row | row in Written(p, i) :: Holds(OnDate(p.range, i), row.at)
    ensures forall row | row in Quarantined(p, i) :: Holds(OnDate(p.range, i), row.at)
  {
    FilterKeeps(p.transform(OnDate(p.range, i)).value, (row: Row) => Holds(OnDate(p.range, i), row.at));
    IndexesInRange(p, i);
    forall row | row in Written(p, i) ensures Holds(OnDate(p.range, i), row.at) {
      if p.policy == Quarantine {
        var k :| 0 <= k < |Written(p, i)| && Written(p, i)[k] == row;
        assert ValidIndexes(p, i)[k] in ValidIndexes(p, i);
        assert Output(p, i)[ValidIndexes(p, i)[k]] in Output(p, i);
      }
    }
    forall row | row in Quarantined(p, i) ensures Holds(OnDate(p.range, i), row.at) {
      var k :| 0 <= k < |Quarantined(p, i)| && Quarantined(p, i)[k] == row;
      assert InvalidIndexes(p, i)[k] in InvalidIndexes(p, i);
      assert Output(p, i)[InvalidIndexes(p, i)[k]] in Output(p, i);
    }
  }

  // ---- writing a chunk ---------------------------------------------------------------------------

  /** Replaces a whole date partition. */
  function OverwriteDate(rows: seq<Row>, day: int, replacement: seq<Row>): seq<Row> {
    Filter(rows, (row: Row) => Day(row.at) != day) + replacement
  }

  /** The rows of the chunk's date that lie outside the chunk, as they were loaded. */
  function Preserved(loaded: seq<Row>, c: Chunk): seq<Row> {
    Filter(loaded, (row: Row) => Day(row.at) == Day(c.start) && !Holds(c, row.at))
  }

  ghost predicate WithinDate(c: Chunk) {
    forall t: Time | Holds(c, t) :: Day(t) == Day(c.start)
  }

  /**
   * Overwriting a date with what was loaded outside the chunk plus the chunk's rows changes the chunk and
   * nothing else, even when the load is stale, as long as the rest of that date has not moved since.
   */
  lemma OverwriteCounts(rows: seq<Row>, loaded: seq<Row>, c: Chunk, output: seq<Row>, row: Row)
    requires WithinDate(c) && (forall r | r in output :: Holds(c, r.at))
    requires Day(row.at) == Day(c.start) && !Holds(c, row.at) ==> multiset(loaded)[row] == multiset(rows)[row]
    ensures multiset(OverwriteDate(rows, Day(c.start), Preserved(loaded, c) + output))[row]
            == if Holds(c, row.at) then multiset(output)[row] else multiset(rows)[row]
  {
    var day := Day(c.start);
    FilterCounts(rows, (r: Row) => Day(r.at) != day, row);
    FilterCounts(loaded, (r: Row) => Day(r.at) == Day(c.start) && !Holds(c, r.at), row);
    assert !Holds(c, row.at) ==> row !in output;
  }

  // ---- the state of the stores ---------------------------------------------------------------------

  /** The date of a row within the range. */
  function Index(p: Plan, t: Time): nat
    requires p.range.start <= t
  {
    Day(t) - Day(p.range.start)
  }

  /** How often a row occurs once the chunks in `done` have been written over the initial table. */
  ghost function Expected(p: Plan, initial: Table, done: set<nat>, row: Row): nat
    requires Typed(p) && forall i | i in done :: Runs(p, i)
  {
    if p.range.start <= row.at < p.range.end && Index(p, row.at) in done
    then multiset(Written(p, Index(p, row.at)))[row]
    else Contents(initial)[row]
  }

  /** The same for the job's own quarantine table, which starts empty. */
  ghost function ExpectedBad(p: Plan, done: set<nat>, row: Row): nat
    requires Typed(p) && forall i | i in done :: Runs(p, i)
  {
    if p.range.start <= row.at < p.range.end && Index(p, row.at) in done
    then multiset(Quarantined(p, Index(p, row.at)))[row]
    else 0
  }

  ghost predicate Dated(p: Plan, done: set<nat>) {
    forall i | i in done :: i < Dates(p.range) && Runs(p, i)
  }

  ghost predicate ViewIs(p: Plan, initial: Table, done: set<nat>, view: Table)
    requires Typed(p) && Dated(p, done)
  {
    forall row :: Contents(view)[row] == Expected(p, initial, done, row)
  }

  ghost predicate QuarantineIs(p: Plan, done: set<nat>, quarantine: Table)
    requires Typed(p) && Dated(p, done)
  {
    forall row :: Contents(quarantine)[row] == ExpectedBad(p, done, row)
  }

  lemma ChunkIsDate(p: Plan, i: nat, row: Row)
    requires i < Dates(p.range)
    ensures Holds(OnDate(p.range, i), row.at) <==> p.range.start <= row.at < p.range.end && Index(p, row.at) == i
    ensures WithinDate(OnDate(p.range, i))
    ensures Day(row.at) == Day(OnDate(p.range, i).start) && !Holds(OnDate(p.range, i), row.at) ==>
              !(p.range.start <= row.at < p.range.end)
  {
    DateShape(p.range, i, row.at);
    ChunksPartition(p.range, row.at);
    forall t: Time | Holds(OnDate(p.range, i), t) ensures Day(t) == Day(OnDate(p.range, i).start) {
      DateShape(p.range, i, t);
    }
  }

  /** What writing a chunk into the view does; `loaded` is what the table held when it was read. */
  function ViewAfter(view: Table, loaded: Table, c: Chunk, output: seq<Row>): Table {
    if view.Some? then Some(OverwriteDate(view.value, Day(c.start), Preserved(loaded.GetOr([]), c) + output))
    else if output != [] then Some(output)
    else None
  }

  /** Writing a chunk, whether for the first time or again, leaves exactly the written chunks in place. */
  lemma ViewWriteSettles(p: Plan, initial: Table, done: set<nat>, earlier: set<nat>, view: Table, loaded: Table, i: nat)
    requires Typed(p) && Dated(p, done) && Dated(p, earlier) && Dated(p, {i})
    requires ViewIs(p, initial, done, view) && ViewIs(p, initial, earlier, loaded)
    requires view.None? ==> loaded.None?
    ensures Dated(p, done + {i})
            && ViewIs(p, initial, done + {i}, ViewAfter(view, loaded, OnDate(p.range, i), Written(p, i)))
  {
    assert i in {i};
    ChunkRowsAreInside(p, i);
    forall row
      ensures Contents(ViewAfter(view, loaded, OnDate(p.range, i), Written(p, i)))[row]
              == Expected(p, initial, done + {i}, row)
    {
      assert Contents(view)[row] == Expected(p, initial, done, row);
      assert Contents(loaded)[row] == Expected(p, initial, earlier, row);
      ChunkIsDate(p, i, row);
      ViewWriteCounts(view, loaded, OnDate(p.range, i), Written(p, i), row);
    }
  }

  lemma ViewWriteCounts(view: Table, loaded: Table, c: Chunk, output: seq<Row>, row: Row)
    requires WithinDate(c) && (forall r | r in output :: Holds(c, r.at))
    requires Day(row.at) == Day(c.start) && !Holds(c, row.at) ==> Contents(loaded)[row] == Contents(view)[row]
    ensures Contents(ViewAfter(view, loaded, c, output))[row]
            == if Holds(c, row.at) && (view.Some? || output != []) then multiset(output)[row] else Contents(view)[row]
  {
    if view.Some? {
      OverwriteCounts(view.value, loaded.GetOr([]), c, output, row);
    } else {
      assert !Holds(c, row.at) ==> row !in output;
    }
  }

  /** `_quarantine_batch`: it overwrites the date when the table exists and appends otherwise. */
  function QuarantineAfter(quarantine: Table, c: Chunk, bad: seq<Row>): Table {
    if bad == [] then quarantine
    else if quarantine.Some? then Some(OverwriteDate(quarantine.value, Day(c.start), bad))
    else Some(bad)
  }

  lemma QuarantineWriteSettles(p: Plan, done: set<nat>, quarantine: Table, i: nat)
    requires Typed(p) && Dated(p, done) && Dated(p, {i}) && QuarantineIs(p, done, quarantine)
    ensures Dated(p, done + {i})
    ensures QuarantineIs(p, done + {i}, QuarantineAfter(quarantine, OnDate(p.range, i), Quarantined(p, i)))
  {
    var c, bad := OnDate(p.range, i), Quarantined(p, i);
    assert i in {i};
    forall row ensures Contents(QuarantineAfter(quarantine, c, bad))[row] == ExpectedBad(p, done + {i}, row) {
      ChunkIsDate(p, i, row);
      ChunkRowsAreInside(p, i);
      assert Contents(quarantine)[row] == ExpectedBad(p, done, row);
      if quarantine.Some? {
        FilterCounts(quarantine.value, (r: Row) => Day(r.at) != Day(c.start), row);
      }
      assert !Holds(c, row.at) ==> row !in bad;
    }
  }
}
