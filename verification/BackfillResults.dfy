/** What a finished backfill leaves: the view, the quarantine table and the summary, told by the chunks alone. */
module BackfillResults {
  import opened Common
  import opened Chunks
  import opened Backfill
  import opened BackfillRun
  import Q = Quality

  // ---- the tables ----------------------------------------------------------------------------------

  function Concat<T>(parts: seq<seq<T>>): seq<T> {
    if parts == [] then [] else Concat(parts[..|parts| - 1]) + parts[|parts| - 1]
  }

  lemma {:induction false} ConcatCounts(parts: seq<seq<Row>>, row: Row, k: int)
    requires forall i | 0 <= i < |parts| && i != k :: multiset(parts[i])[row] == 0
    ensures multiset(Concat(parts))[row] == if 0 <= k < |parts| then multiset(parts[k])[row] else 0
  {
    if parts != [] { ConcatCounts(parts[..|parts| - 1], row, k); }
  }

  /** Two lists of parts that conserve a third part by part conserve it as a whole. */
  lemma {:induction false} ConcatConserves(a: seq<seq<Row>>, b: seq<seq<Row>>, c: seq<seq<Row>>)
    requires |a| == |b| == |c|
    requires forall i | 0 <= i < |a| :: multiset(a[i]) + multiset(Stripped(b[i])) == multiset(c[i])
    ensures multiset(Concat(a)) + multiset(Stripped(Concat(b))) == multiset(Concat(c))
  {
    if a != [] {
      var n := |a| - 1;
      ConcatConserves(a[..n], b[..n], c[..n]);
      assert Stripped(Concat(b)) == Stripped(Concat(b[..n])) + Stripped(b[n]);
    }
  }

  /** What the first n chunks put into the view, into quarantine, and what they had in all. */
  ghost function WrittenParts(p: Plan, n: nat): seq<seq<Row>>
    requires Typed(p) && RunsBelow(p, n)
  {
    seq(n, i requires 0 <= i < n => Written(p, i))
  }

  ghost function QuarantinedParts(p: Plan, n: nat): seq<seq<Row>>
    requires Typed(p) && RunsBelow(p, n)
  {
    seq(n, i requires 0 <= i < n => Quarantined(p, i))
  }

  ghost function OutputParts(p: Plan, n: nat): seq<seq<Row>>
    requires Typed(p) && RunsBelow(p, n)
  {
    seq(n, i requires 0 <= i < n => Output(p, i))
  }

  ghost function AllWritten(p: Plan, n: nat): seq<Row>
    requires Typed(p) && RunsBelow(p, n)
  {
    Concat(WrittenParts(p, n))
  }

  ghost function AllQuarantined(p: Plan, n: nat): seq<Row>
    requires Typed(p) && RunsBelow(p, n)
  {
    Concat(QuarantinedParts(p, n))
  }

  ghost function AllOutput(p: Plan, n: nat): seq<Row>
    requires Typed(p) && RunsBelow(p, n)
  {
    Concat(OutputParts(p, n))
  }

  ghost function AllViolations(p: Plan, n: nat): seq<Q.Violation>
    requires Typed(p) && RunsBelow(p, n)
  {
    Concat(seq(n, i requires 0 <= i < n => Violations(p, i)))
  }

  /** The old rows outside the range. */
  function Outside(p: Plan, initial: Table): seq<Row> {
    Filter(initial.GetOr([]), (row: Row) => !(p.range.start <= row.at < p.range.end))
  }

  predicate InFirst(p: Plan, n: nat, row: Row) {
    p.range.start <= row.at < p.range.end && Index(p, row.at) < n
  }

  /** A row occurs only in what its own date contributes. */
  lemma RowsOfOneDate(p: Plan, i: nat, row: Row)
    requires Typed(p) && Runs(p, i) && i < Dates(p.range)
    ensures !(p.range.start <= row.at < p.range.end && Index(p, row.at) == i) ==>
              multiset(Written(p, i))[row] == 0 && multiset(Quarantined(p, i))[row] == 0
  {
    ChunkIsDate(p, i, row);
    ChunkRowsAreInside(p, i);
    if !Holds(OnDate(p.range, i), row.at) {
      assert row !in Written(p, i) && row !in Quarantined(p, i);
    }
  }

  lemma AllCounts(p: Plan, n: nat, row: Row)
    requires Typed(p) && RunsBelow(p, n) && n <= Dates(p.range)
    ensures multiset(AllWritten(p, n))[row]
            == if InFirst(p, n, row) then multiset(Written(p, Index(p, row.at)))[row] else 0
    ensures multiset(AllQuarantined(p, n))[row]
            == if InFirst(p, n, row) then multiset(Quarantined(p, Index(p, row.at)))[row] else 0
  {
    var k := if p.range.start <= row.at < p.range.end then Index(p, row.at) else -1;
    forall i | 0 <= i < n && i != k ensures multiset(Written(p, i))[row] == 0 && multiset(Quarantined(p, i))[row] == 0 {
      RowsOfOneDate(p, i, row);
    }
    ConcatCounts(WrittenParts(p, n), row, k);
    ConcatCounts(QuarantinedParts(p, n), row, k);
  }

  lemma IndexInRange(p: Plan, row: Row)
    requires p.range.start <= row.at < p.range.end
    ensures Index(p, row.at) < Dates(p.range)
  {
    ChunksPartition(p.range, row.at);
  }

  /**
   * The final view: the old rows outside the range and the rows of every chunk, each exactly once, however
   * many attempts it took and whatever stale attempts wrote in between.
   */
  lemma FinalView(p: Plan, initial: Table, view: Table)
    requires Typed(p) && RunsBelow(p, Dates(p.range))
    requires ViewIs(p, initial, FirstDates(Dates(p.range)), view)
    ensures Contents(view) == multiset(Outside(p, initial)) + multiset(AllWritten(p, Dates(p.range)))
  {
    forall row
      ensures Contents(view)[row] == (multiset(Outside(p, initial)) + multiset(AllWritten(p, Dates(p.range))))[row]
    {
      assert Contents(view)[row] == Expected(p, initial, FirstDates(Dates(p.range)), row);
      AllCounts(p, Dates(p.range), row);
      FilterCounts(initial.GetOr([]), (r: Row) => !(p.range.start <= r.at < p.range.end), row);
      if p.range.start <= row.at < p.range.end { IndexInRange(p, row); }
    }
  }

  lemma FinalQuarantine(p: Plan, quarantine: Table)
    requires Typed(p) && RunsBelow(p, Dates(p.range))
    requires QuarantineIs(p, FirstDates(Dates(p.range)), quarantine)
    ensures Contents(quarantine) == multiset(AllQuarantined(p, Dates(p.range)))
  {
    forall row ensures Contents(quarantine)[row] == multiset(AllQuarantined(p, Dates(p.range)))[row] {
      assert Contents(quarantine)[row] == ExpectedBad(p, FirstDates(Dates(p.range)), row);
      AllCounts(p, Dates(p.range), row);
      if p.range.start <= row.at < p.range.end { IndexInRange(p, row); }
    }
  }

  /** Running the same backfill again over its own result changes nothing. */
  lemma RerunChangesNothing(p: Plan, initial: Table, view: Table, again: Table)
    requires Typed(p) && RunsBelow(p, Dates(p.range))
    requires ViewIs(p, initial, FirstDates(Dates(p.range)), view) && ViewIs(p, view, FirstDates(Dates(p.range)), again)
    ensures Contents(again) == Contents(view)
  {
    forall row ensures Contents(again)[row] == Contents(view)[row] {
      assert Contents(again)[row] == Expected(p, view, FirstDates(Dates(p.range)), row);
      assert Contents(view)[row] == Expected(p, initial, FirstDates(Dates(p.range)), row);
    }
  }

  // ---- the summary -----------------------------------------------------------------------------------

  lemma {:induction false} CountJoins(a: seq<Q.Violation>, b: seq<Q.Violation>, c: Q.Constraint)
    ensures Q.CountOf(a + b, c) == Q.CountOf(a, c) + Q.CountOf(b, c)
  {
    if b == [] {
      assert a + b == a;
    } else {
      assert (a + b)[..|a + b| - 1] == a + b[..|b| - 1];
      CountJoins(a, b[..|b| - 1], c);
    }
  }

  function CountIn(counts: map<Q.Constraint, nat>, c: Q.Constraint): nat {
    if c in counts then counts[c] else 0
  }

  lemma {:induction false} CountsAccumulate(policy: Policy, tallies: seq<Tally>, found: seq<seq<Q.Violation>>,
                                            c: Q.Constraint)
    requires |tallies| == |found| && forall i | 0 <= i < |tallies| :: tallies[i].violations == found[i]
    ensures CountIn(SummaryOver(policy, tallies).counts, c) == Q.CountOf(Concat(found), c)
  {
    if tallies != [] {
      var n := |tallies| - 1;
      CountsAccumulate(policy, tallies[..n], found[..n], c);
      CountJoins(Concat(found[..n]), found[n], c);
    }
  }

  lemma ChunkPartition(p: Plan, i: nat)
    requires Typed(p) && Runs(p, i)
    ensures |ValidIndexes(p, i)| + |InvalidIndexes(p, i)| == |Output(p, i)|
    ensures (forall k | k in ValidIndexes(p, i) || k in InvalidIndexes(p, i) :: k < |Output(p, i)|)
    ensures multiset(Q.Taken(Output(p, i), ValidIndexes(p, i))) + multiset(Q.Taken(Output(p, i), InvalidIndexes(p, i)))
            == multiset(Output(p, i))
  {
    var batch := BatchOf(p, Output(p, i), OnDate(p.range, i).end);
    assert TypedChunk(p, i);
    Q.ReportedExactly(batch, |batch.rows|);
    Q.ValidAndInvalidPartition(batch, Violations(p, i), Output(p, i));
  }

  lemma ChunkSizes(p: Plan, i: nat)
    requires Typed(p) && Runs(p, i)
    ensures |ValidIndexes(p, i)| + |InvalidIndexes(p, i)| == |Output(p, i)|
    ensures |Written(p, i)| == if p.policy == Quarantine then |ValidIndexes(p, i)| else |Output(p, i)|
    ensures |Quarantined(p, i)| == if p.policy == Quarantine then |InvalidIndexes(p, i)| else 0
  {
    ChunkPartition(p, i);
  }

  /** The row counts of a summary, against the numbers of rows written, quarantined and transformed. */
  predicate Balanced(s: Summary, policy: Policy, written: nat, quarantined: nat, output: nat) {
    && s.policy == policy && s.evaluated == output && s.valid + s.invalid == output && s.quarantined == quarantined
    && (policy == Quarantine ==> s.valid == written && s.invalid == quarantined)
    && (policy != Quarantine ==> output == written && quarantined == 0)
  }

  lemma NextBalanced(s: Summary, policy: Policy, valid: nat, invalid: nat, counts: map<Q.Constraint, nat>,
                     written: nat, quarantined: nat, output: nat)
    requires Balanced(s, policy, written, quarantined, output)
    ensures Balanced(NextSummary(s, policy, valid + invalid, valid, invalid, counts), policy,
                     written + (if policy == Quarantine then valid else valid + invalid),
                     quarantined + (if policy == Quarantine then invalid else 0), output + valid + invalid)
  {}

  /** The numbers of one chunk: what it tallies against what it writes, quarantines and transforms. */
  predicate TallyFits(policy: Policy, tally: Tally, written: nat, quarantined: nat, output: nat) {
    && tally.rows == output && tally.valid + tally.invalid == output
    && written == (if policy == Quarantine then tally.valid else output)
    && quarantined == (if policy == Quarantine then tally.invalid else 0)
  }

  lemma {:induction false} RowsAccumulate(policy: Policy, tallies: seq<Tally>, written: seq<seq<Row>>,
                                          quarantined: seq<seq<Row>>, output: seq<seq<Row>>)
    requires |tallies| == |written| == |quarantined| == |output|
    requires forall i | 0 <= i < |tallies| :: TallyFits(policy, tallies[i], |written[i]|, |quarantined[i]|, |output[i]|)
    ensures Balanced(SummaryOver(policy, tallies), policy, |Concat(written)|, |Concat(quarantined)|, |Concat(output)|)
  {
    if tallies != [] {
      var n := |tallies| - 1;
      RowsAccumulate(policy, tallies[..n], written[..n], quarantined[..n], output[..n]);
      NextBalanced(SummaryOver(policy, tallies[..n]), policy, tallies[n].valid, tallies[n].invalid,
                   Q.Counts(tallies[n].violations),
                   |Concat(written[..n])|, |Concat(quarantined[..n])|, |Concat(output[..n])|);
    }
  }

  /**
   * Accounting: the final summary counts every row of every chunk exactly once, as valid or invalid; per
   * constraint it counts every violation exactly once, so the counts add up to all violations.
   */
  lemma SummaryAccountsForEverything(p: Plan, n: nat)
    requires Typed(p) && RunsBelow(p, n)
    ensures var s := SummaryAfter(p, n);
            && s.evaluated == |AllOutput(p, n)| && s.valid + s.invalid == s.evaluated
            && s.quarantined == |AllQuarantined(p, n)|
            && s.quarantined == (if p.policy == Quarantine then s.invalid else 0)
            && (p.policy == Quarantine ==> s.valid == |AllWritten(p, n)|)
            && (forall c :: CountIn(s.counts, c) == Q.CountOf(AllViolations(p, n), c))
            && Q.Total(s.counts) == |AllViolations(p, n)|
  {
    forall i: nat | i < n
      ensures TallyFits(p.policy, TallyOf(p, i), |Written(p, i)|, |Quarantined(p, i)|, |Output(p, i)|)
    {
      ChunkSizes(p, i);
    }
    RowsAccumulate(p.policy, Tallies(p, n), WrittenParts(p, n), QuarantinedParts(p, n), OutputParts(p, n));
    forall c ensures CountIn(SummaryAfter(p, n).counts, c) == Q.CountOf(AllViolations(p, n), c) {
      CountsAccumulate(p.policy, Tallies(p, n), seq(n, i requires 0 <= i < n => Violations(p, i)), c);
    }
    Q.EveryViolationCounted(AllViolations(p, n));
    var counts := SummaryAfter(p, n).counts;
    assert Q.Total(counts) == CountIn(counts, Q.Nullable) + CountIn(counts, Q.Minimum) + CountIn(counts, Q.Maximum)
           + CountIn(counts, Q.AcceptedValues) + CountIn(counts, Q.Unique) + CountIn(counts, Q.MaxAgeSeconds);
  }

  // ---- conservation ----------------------------------------------------------------------------------

  /** The rows without their quarantine columns. */
  function Stripped(rows: seq<Row>): seq<Row> {
    seq(|rows|, k requires 0 <= k < |rows| => rows[k].(errors := []))
  }

  /** Quarantined rows are the invalid rows with their errors attached. */
  lemma StrippedBad(p: Plan, i: nat)
    requires Typed(p) && Runs(p, i) && p.policy == Quarantine
    ensures (forall k | k in InvalidIndexes(p, i) :: k < |Output(p, i)|)
    ensures Stripped(Quarantined(p, i)) == Q.Taken(Output(p, i), InvalidIndexes(p, i))
  {
    IndexesInRange(p, i);
    assert TypedChunk(p, i);
    forall k | 0 <= k < |InvalidIndexes(p, i)|
      ensures Stripped(Quarantined(p, i))[k] == Q.Taken(Output(p, i), InvalidIndexes(p, i))[k]
    {
      assert InvalidIndexes(p, i)[k] in InvalidIndexes(p, i);
      var row := Output(p, i)[InvalidIndexes(p, i)[k]];
      assert row in Output(p, i) && row.errors == [];
    }
  }

  /**
   * Conservation under quarantine: what the chunks put into the view and what they put into the quarantine
   * table is together the whole output of the transform, no row lost and none repeated.
   */
  lemma QuarantineConserves(p: Plan, n: nat)
    requires Typed(p) && RunsBelow(p, n) && p.policy == Quarantine
    ensures multiset(AllWritten(p, n)) + multiset(Stripped(AllQuarantined(p, n))) == multiset(AllOutput(p, n))
  {
    forall i | 0 <= i < n
      ensures multiset(Written(p, i)) + multiset(Stripped(Quarantined(p, i))) == multiset(Output(p, i))
    {
      ChunkConserves(p, i);
    }
    ConcatConserves(WrittenParts(p, n), QuarantinedParts(p, n), OutputParts(p, n));
  }

  lemma ChunkConserves(p: Plan, i: nat)
    requires Typed(p) && Runs(p, i) && p.policy == Quarantine
    ensures multiset(Written(p, i)) + multiset(Stripped(Quarantined(p, i))) == multiset(Output(p, i))
  {
    ChunkPartition(p, i);
    StrippedBad(p, i);
  }

  // ---- against the transform ---------------------------------------------------------------------------

  /** How often the transform gives the row on the date of its own timestamp. */
  ghost function Transformed(p: Plan, row: Row): nat
    requires RunsBelow(p, Dates(p.range)) && p.range.start <= row.at < p.range.end
  {
    IndexInRange(p, row);
    assert Runs(p, Day(row.at) - Day(p.range.start));
    multiset(p.transform(OnDate(p.range, Day(row.at) - Day(p.range.start))).value)[row]
  }

  /**
   * The output of a backfill, exactly: a row in the range occurs as often as the transform of its own date gives
   * it, the first instant of the date included, and a row outside the range does not occur.
   */
  lemma OutputExactly(p: Plan, row: Row)
    requires Typed(p) && RunsBelow(p, Dates(p.range))
    ensures multiset(AllOutput(p, Dates(p.range)))[row]
            == if p.range.start <= row.at < p.range.end then Transformed(p, row) else 0
  {
    var n := Dates(p.range);
    var k := if p.range.start <= row.at < p.range.end then Index(p, row.at) else -1;
    forall i: nat | i < n ensures multiset(Output(p, i))[row] == if i == k then Transformed(p, row) else 0 {
      assert Runs(p, i);
      ChunkIsDate(p, i, row);
      FilterCounts(p.transform(OnDate(p.range, i)).value, (r: Row) => Holds(OnDate(p.range, i), r.at), row);
    }
    if k >= 0 { IndexInRange(p, row); }
    ConcatCounts(OutputParts(p, n), row, k);
  }

  /**
   * Nothing is lost, invented or repeated on the way from the transform to the tables: in the range a row occurs in
   * the view and in quarantine together as often as the transform gives it; outside, as often as before the job.
   */
  lemma ViewAndQuarantine(p: Plan, initial: Table, view: Table, row: Row)
    requires Typed(p) && RunsBelow(p, Dates(p.range))
    requires ViewIs(p, initial, FirstDates(Dates(p.range)), view)
    ensures Contents(view)[row] + multiset(Stripped(AllQuarantined(p, Dates(p.range))))[row]
            == if p.range.start <= row.at < p.range.end then Transformed(p, row) else Contents(initial)[row]
  {
    var n := Dates(p.range);
    FinalView(p, initial, view);
    OutputExactly(p, row);
    FilterCounts(initial.GetOr([]), (r: Row) => !(p.range.start <= r.at < p.range.end), row);
    if p.policy == Quarantine {
      QuarantineConserves(p, n);
    } else {
      NothingQuarantined(p, n);
      AllCounts(p, n, row);
      EverythingWritten(p, n);
    }
    if !(p.range.start <= row.at < p.range.end) { AllCounts(p, n, row); }
  }

  lemma NothingQuarantined(p: Plan, n: nat)
    requires Typed(p) && RunsBelow(p, n) && p.policy != Quarantine
    ensures AllQuarantined(p, n) == []
  {
    AllEmpty(QuarantinedParts(p, n));
  }

  lemma {:induction false} AllEmpty(parts: seq<seq<Row>>)
    requires forall i | 0 <= i < |parts| :: parts[i] == []
    ensures Concat(parts) == []
  {
    if parts != [] { AllEmpty(parts[..|parts| - 1]); }
  }

  lemma EverythingWritten(p: Plan, n: nat)
    requires Typed(p) && RunsBelow(p, n) && p.policy != Quarantine
    ensures AllWritten(p, n) == AllOutput(p, n)
  {
    assert WrittenParts(p, n) == OutputParts(p, n);
  }

  /** And what a row carries in quarantine is exactly the violations found in it. */
  lemma {:induction false} ErrorsAreTheViolations(violations: seq<Q.Violation>, row: nat, error: RowError)
    ensures error in ErrorsOf(violations, row) <==> Q.Violation(row, error.feature, error.constraint) in violations
  {
    if violations != [] {
      var init, last := violations[..|violations| - 1], violations[|violations| - 1];
      ErrorsAreTheViolations(init, row, error);
      assert violations == init + [last];
    }
  }

  /**
   * What a chunk's rows are judged by: their own cells and timestamps, the other rows of the chunk, and the age at
   * the end of the chunk.
   */
  lemma JudgedByValues(p: Plan, i: nat, j: nat, k: nat)
    requires Typed(p) && Runs(p, i) && j < |Output(p, i)| && k < |p.features| && p.features[k].quality.Some?
    ensures var found, rows, name := Violations(p, i), Output(p, i), p.features[k].name;
            var quality, cells := p.features[k].quality.value, Output(p, i)[j].cells;
            && (Q.Violation(j, name, Q.Nullable) in found <==> name !in cells && !quality.nullable)
            && (Q.Violation(j, name, Q.Minimum) in found <==>
                  quality.minimum.Some? && name in cells && cells[name].NumberValue?
                  && cells[name].n.Real() < quality.minimum.value)
            && (Q.Violation(j, name, Q.Maximum) in found <==>
                  quality.maximum.Some? && name in cells && cells[name].NumberValue?
                  && cells[name].n.Real() > quality.maximum.value)
            && (Q.Violation(j, name, Q.AcceptedValues) in found <==>
                  && quality.accepted.Some? && name in cells
                  && forall one | one in quality.accepted.value ::
                       one != cells[name]
                       && (one.NumberValue? && cells[name].NumberValue? ==> one.n.Real() != cells[name].n.Real()))
            && (Q.Violation(j, name, Q.Unique) in found <==>
                  && quality.unique && name in cells
                  && exists l ::
                       0 <= l < |rows| && l != j && name in rows[l].cells && rows[l].cells[name] == cells[name])
            && (Q.Violation(j, name, Q.MaxAgeSeconds) in found <==>
                  quality.maxAge.Some? && rows[j].at + Seconds(quality.maxAge.value) < OnDate(p.range, i).end)
  {
    assert TypedChunk(p, i);
    var rows, batch := Output(p, i), BatchOf(p, Output(p, i), OnDate(p.range, i).end);
    Q.ReportedByValues(batch, j, k);
    var name, cells := p.features[k].name, rows[j].cells;
    if l :| 0 <= l < |rows| && l != j && name in rows[l].cells && name in cells && rows[l].cells[name] == cells[name] {
      assert name in batch.rows[l] && batch.rows[l][name] == batch.rows[j][name];
    }
    if l :| 0 <= l < |batch.rows| && l != j && name in batch.rows[l] && name in cells
            && batch.rows[l][name] == cells[name] {
      assert name in rows[l].cells && rows[l].cells[name] == cells[name];
    }
  }

  /** Under quarantine a row goes into the view exactly when nothing is found in it. */
  lemma OnlyCleanRowsAreWritten(p: Plan, i: nat, row: Row)
    requires Typed(p) && Runs(p, i) && p.policy == Quarantine
    ensures row in Written(p, i) <==>
              exists j :: 0 <= j < |Output(p, i)| && Output(p, i)[j] == row
                          && forall v | v in Violations(p, i) :: v.row != j
  {
    var valid, rows := ValidIndexes(p, i), Output(p, i);
    Q.AscendingIndexes(|rows|, Q.RowsOf(Violations(p, i)));
    IndexesInRange(p, i);
    if row in Written(p, i) {
      var w :| 0 <= w < |Written(p, i)| && Written(p, i)[w] == row;
      assert valid[w] in valid && rows[valid[w]] == row;
    }
    if j :| 0 <= j < |rows| && rows[j] == row && forall v | v in Violations(p, i) :: v.row != j {
      assert j in valid;
      var w :| 0 <= w < |valid| && valid[w] == j;
      assert Written(p, i)[w] == row;
    }
  }

  /** A quarantined row is a row of the chunk with at least one error, and carries exactly what was found in it. */
  lemma QuarantinedRowsCarryTheirErrors(p: Plan, i: nat, q: nat) returns (j: nat)
    requires Typed(p) && Runs(p, i) && p.policy == Quarantine && q < |Quarantined(p, i)|
    ensures j < |Output(p, i)| && Quarantined(p, i)[q] == Output(p, i)[j].(errors := Quarantined(p, i)[q].errors)
    ensures forall error :: error in Quarantined(p, i)[q].errors
                            <==> Q.Violation(j, error.feature, error.constraint) in Violations(p, i)
    ensures Quarantined(p, i)[q].errors != []
  {
    var invalid := InvalidIndexes(p, i);
    Q.AscendingIndexes(|Output(p, i)|, Q.RowsOf(Violations(p, i)));
    IndexesInRange(p, i);
    assert invalid[q] in invalid;
    j := invalid[q];
    forall error
      ensures error in Quarantined(p, i)[q].errors
              <==> Q.Violation(j, error.feature, error.constraint) in Violations(p, i)
    {
      ErrorsAreTheViolations(Violations(p, i), j, error);
    }
    var v :| v in Violations(p, i) && v.row == j;
    assert RowError(v.feature, v.constraint) in Quarantined(p, i)[q].errors;
  }

  /** The whole of it: a job that finishes leaves these tables and this summary. */
  method RunToTheEnd(job: Job, budget: nat, alone: bool) returns (outcome: Outcome)
    requires job.Valid()
    modifies job
    ensures job.Valid()
    ensures alone && budget >= 1 ==>
              (outcome.Done? <==> forall i | old(job.done) <= i < Dates(job.p.range) ::
                                    Runs(job.p, i) && Clean(job.p, i))
    ensures outcome.Done? ==>
              RunsBelow(job.p, Dates(job.p.range)) && forall row ::
                Contents(job.view)[row] + multiset(Stripped(AllQuarantined(job.p, Dates(job.p.range))))[row]
                == if job.p.range.start <= row.at < job.p.range.end then Transformed(job.p, row)
                   else Contents(job.initial)[row]
    ensures outcome.Done? ==>
              var n := Dates(job.p.range);
              && RunsBelow(job.p, n)
              && Contents(job.view) == multiset(Outside(job.p, job.initial)) + multiset(AllWritten(job.p, n))
              && Contents(job.quarantine) == multiset(AllQuarantined(job.p, n))
              && outcome.summary == SummaryAfter(job.p, n)
  {
    outcome := job.Live(budget, alone);
    if outcome.Done? {
      FinalView(job.p, job.initial, job.view);
      forall row
        ensures Contents(job.view)[row] + multiset(Stripped(AllQuarantined(job.p, Dates(job.p.range))))[row]
                == if job.p.range.start <= row.at < job.p.range.end then Transformed(job.p, row)
                   else Contents(job.initial)[row]
      {
        ViewAndQuarantine(job.p, job.initial, job.view, row);
      }
      FinalQuarantine(job.p, job.quarantine);
    }
  }
}
