/** The backfill loop: checkpoints, the running quality summary, and attempts that resume where the last one got to. */
module BackfillRun {
  import opened Common
  import opened Chunks
  import opened Backfill
  import Q = Quality

  // ---- summaries and checkpoints -------------------------------------------------------------------

  function EmptySummary(policy: Policy): Summary {
    Summary(policy, 0, 0, 0, 0, map[])
  }

  function AddCounts(a: map<Q.Constraint, nat>, b: map<Q.Constraint, nat>): map<Q.Constraint, nat> {
    map c | c in a.Keys + b.Keys :: (if c in a then a[c] else 0) + (if c in b then b[c] else 0)
  }

  function NextSummary(s: Summary, policy: Policy, rows: nat, valid: nat, invalid: nat,
                       counts: map<Q.Constraint, nat>): Summary {
    Summary(policy, s.evaluated + rows, s.valid + valid, s.invalid + invalid,
            s.quarantined + (if policy == Quarantine then invalid else 0), AddCounts(s.counts, counts))
  }

  ghost predicate RunsBelow(p: Plan, k: nat) {
    forall i: nat | i < k :: Runs(p, i)
  }

  /** What one chunk contributes to the summary. */
  datatype Tally = Tally(rows: nat, valid: nat, invalid: nat, violations: seq<Q.Violation>)

  ghost function TallyOf(p: Plan, i: nat): Tally
    requires Typed(p) && Runs(p, i)
  {
    Tally(|Output(p, i)|, |ValidIndexes(p, i)|, |InvalidIndexes(p, i)|, Violations(p, i))
  }

  ghost function Tallies(p: Plan, k: nat): seq<Tally>
    requires Typed(p) && RunsBelow(p, k)
  {
    seq(k, i requires 0 <= i < k => TallyOf(p, i))
  }

  /** The summary of the tallies, each counted once. */
  function SummaryOver(policy: Policy, tallies: seq<Tally>): Summary {
    if tallies == [] then EmptySummary(policy)
    else
      var last := tallies[|tallies| - 1];
      NextSummary(SummaryOver(policy, tallies[..|tallies| - 1]), policy, last.rows, last.valid, last.invalid,
                  Q.Counts(last.violations))
  }

  /** The summary once the first k chunks have been counted, each once. */
  ghost function SummaryAfter(p: Plan, k: nat): Summary
    requires Typed(p) && RunsBelow(p, k)
  {
    SummaryOver(p.policy, Tallies(p, k))
  }

  predicate Marks(m: Mark, cursor: Time) {
    (m.CursorMark? || m.BackfillMark?) && m.cursor == cursor
  }

  /** `_has_backfill_checkpoint`, in either form. */
  predicate Has(marks: seq<Mark>, cursor: Time) {
    exists m | m in marks :: Marks(m, cursor)
  }

  /** The summary of the newest checkpoint that carries one. */
  function LatestSummary(marks: seq<Mark>, policy: Policy): Summary {
    if marks == [] then EmptySummary(policy)
    else
      match marks[|marks| - 1]
      case QualityMark(summary) => summary
      case BackfillMark(_, summary) => summary
      case _ => LatestSummary(marks[..|marks| - 1], policy)
  }

  /** `_quality_summary`: a scan from the newest checkpoint back. */
  method QualitySummary(marks: seq<Mark>, policy: Policy) returns (summary: Summary)
    ensures summary == LatestSummary(marks, policy)
  {
    var k := |marks|;
    assert marks[..k] == marks;
    while k > 0
      invariant 0 <= k <= |marks|
      invariant LatestSummary(marks, policy) == LatestSummary(marks[..k], policy)
    {
      assert marks[..k][..k - 1] == marks[..k - 1];
      match marks[k - 1] {
        case QualityMark(s) => return s;
        case BackfillMark(_, s) => return s;
        case _ =>
      }
      k := k - 1;
    }
    summary := EmptySummary(policy);
  }

  /** The checkpoints of a job whose first k chunks are done: those and no other are marked, and counted. */
  ghost predicate ResumesAt(p: Plan, marks: seq<Mark>, k: nat)
    requires Typed(p) && RunsBelow(p, k)
  {
    && (forall i: nat | i < Dates(p.range) :: Has(marks, CursorAt(p.range, i)) <==> i < k)
    && LatestSummary(marks, p.policy) == SummaryAfter(p, k)
  }

  lemma CursorsDiffer(p: Plan, i: nat, j: nat)
    requires i < Dates(p.range) && j < Dates(p.range)
    ensures CursorAt(p.range, i) == CursorAt(p.range, j) <==> i == j
  {
    DateShape(p.range, i, 0);
    DateShape(p.range, j, 0);
  }

  /** Checkpointing a chunk moves the resume point by one. */
  lemma ResumesNext(p: Plan, marks: seq<Mark>, k: nat)
    requires Typed(p) && k < Dates(p.range) && RunsBelow(p, k + 1) && ResumesAt(p, marks, k)
    ensures ResumesAt(p, marks + [BackfillMark(CursorAt(p.range, k), SummaryAfter(p, k + 1))], k + 1)
  {
    var mark := BackfillMark(CursorAt(p.range, k), SummaryAfter(p, k + 1));
    var next := marks + [mark];
    assert next[|next| - 1] == mark;
    forall i: nat | i < Dates(p.range) ensures Has(next, CursorAt(p.range, i)) <==> i < k + 1 {
      CursorsDiffer(p, i, k);
      assert mark in next;
      forall m ensures m in next <==> m in marks || m == mark {}
    }
  }

  /** A chunk checkpointed the old way, as a bare cursor followed by a summary, resumes just the same. */
  lemma LegacyResumesNext(p: Plan, marks: seq<Mark>, k: nat)
    requires Typed(p) && k < Dates(p.range) && RunsBelow(p, k + 1) && ResumesAt(p, marks, k)
    ensures ResumesAt(p, marks + [CursorMark(CursorAt(p.range, k)), QualityMark(SummaryAfter(p, k + 1))], k + 1)
  {
    var cursor, quality := CursorMark(CursorAt(p.range, k)), QualityMark(SummaryAfter(p, k + 1));
    var next := marks + [cursor, quality];
    assert next[|next| - 1] == quality;
    forall i: nat | i < Dates(p.range) ensures Has(next, CursorAt(p.range, i)) <==> i < k + 1 {
      CursorsDiffer(p, i, k);
      assert cursor in next;
      forall m ensures m in next <==> m in marks || m == cursor || m == quality {}
    }
  }

  // ---- the job -------------------------------------------------------------------------------------

  function FirstDates(n: nat): (dates: set<nat>)
    ensures forall i: nat :: i in dates <==> i < n
  {
    if n == 0 then {} else FirstDates(n - 1) + {n - 1}
  }

  datatype Outcome = Done(summary: Summary) | Stopped | Rejected(summary: Summary) | Raised

  /** No chunk is written under the reject policy unless all its rows are valid. */
  ghost predicate Clean(p: Plan, i: nat)
    requires Typed(p) && Runs(p, i)
  {
    p.policy == Reject ==> InvalidIndexes(p, i) == []
  }

  lemma OneMoreChunk(p: Plan, i: nat, summary: Summary, next: Summary)
    requires Typed(p) && RunsBelow(p, i) && Runs(p, i) && summary == SummaryAfter(p, i)
    requires next == NextSummary(summary, p.policy, |Output(p, i)|, |ValidIndexes(p, i)|, |InvalidIndexes(p, i)|,
                                 Q.Counts(Violations(p, i)))
    ensures RunsBelow(p, i + 1) && next == SummaryAfter(p, i + 1)
  {
    assert RunsBelow(p, i + 1);
    TallyMore(p, i);
    SummaryMore(p.policy, Tallies(p, i), TallyOf(p, i));
  }

  lemma TallyMore(p: Plan, i: nat)
    requires Typed(p) && RunsBelow(p, i + 1)
    ensures Tallies(p, i + 1) == Tallies(p, i) + [TallyOf(p, i)]
  {}

  lemma SummaryMore(policy: Policy, tallies: seq<Tally>, t: Tally)
    ensures SummaryOver(policy, tallies + [t])
            == NextSummary(SummaryOver(policy, tallies), policy, t.rows, t.valid, t.invalid, Q.Counts(t.violations))
  {
    assert (tallies + [t])[..|tallies|] == tallies;
  }

  /** How an attempt may end at chunk i without finishing: the transform raised, or the policy rejects its rows. */
  ghost predicate EndsAt(p: Plan, i: nat, outcome: Outcome)
    requires Typed(p) && RunsBelow(p, i)
  {
    match outcome
    case Done(_) => false
    case Stopped => true
    case Raised => !Runs(p, i)
    case Rejected(summary) =>
      p.policy == Reject && Runs(p, i) && InvalidIndexes(p, i) != [] && RunsBelow(p, i + 1)
      && summary == SummaryAfter(p, i + 1)
  }

  /** Every earlier state of the view was settled. */
  ghost predicate SnapshotsOk(p: Plan, initial: Table, seen: seq<Table>, seenWritten: seq<set<nat>>)
    requires Typed(p)
  {
    |seen| == |seenWritten| && forall k | 0 <= k < |seen| :: SnapshotOk(p, initial, seen[k], seenWritten[k])
  }

  ghost predicate SnapshotOk(p: Plan, initial: Table, table: Table, written: set<nat>)
    requires Typed(p)
  {
    Dated(p, written) && ViewIs(p, initial, written, table)
  }

  class Job {
    const p: Plan
    ghost const initial: Table
    var marks: seq<Mark>
    var view: Table
    var quarantine: Table
    ghost var done: nat           // chunks checkpointed
    ghost var written: set<nat>   // chunks any attempt has written into the view
    ghost var parked: set<nat>    // chunks any attempt has written into the quarantine table
    var seen: seq<Table>          // every earlier state of the view, for attempts that loaded it then
    ghost var seenWritten: seq<set<nat>>

    ghost predicate StoresOk()
      reads this
    {
      && Typed(p) && Dated(p, written) && Dated(p, parked)
      && ViewIs(p, initial, written, view) && QuarantineIs(p, parked, quarantine)
      && SnapshotsOk(p, initial, seen, seenWritten)
      && (forall i | i in written :: Clean(p, i))
    }

    ghost predicate Valid()
      reads this
    {
      && StoresOk() && done <= Dates(p.range)
      && (forall i: nat | i < done :: i in written && i in parked)
      && ResumesAt(p, marks, done)
    }

    constructor (plan: Plan, table: Table, start: seq<Mark>)
      requires Typed(plan) && ResumesAt(plan, start, 0)
      ensures Valid() && done == 0 && p == plan && initial == table
    {
      p, initial, marks, view, quarantine := plan, table, start, table, None;
      done, written, parked := 0, {}, {};
      seen, seenWritten := [], [];
    }

    method Evaluate(i: nat) returns (output: seq<Row>, violations: seq<Q.Violation>)
      requires Typed(p) && Runs(p, i)
      ensures output == Output(p, i) && violations == Violations(p, i)
    {
      output := Output(p, i);
      assert TypedChunk(p, i);
      violations := Q.Validate(BatchOf(p, output, OnDate(p.range, i).end));
    }

    method PutQuarantine(i: nat, output: seq<Row>, violations: seq<Q.Violation>)
      requires StoresOk() && i < Dates(p.range) && Runs(p, i)
      requires output == Output(p, i) && violations == Violations(p, i)
      modifies this`quarantine, this`parked
      ensures StoresOk() && parked == old(parked) + {i}
    {
      QuarantineWriteSettles(p, parked, quarantine, i);
      if p.policy == Quarantine {
        IndexesInRange(p, i);
        var bad := Bad(output, Q.Invalid(|output|, violations), violations);
        quarantine := QuarantineAfter(quarantine, OnDate(p.range, i), bad);
      }
      parked := parked + {i};
    }

    function ForView(output: seq<Row>, violations: seq<Q.Violation>): seq<Row> {
      Q.AscendingIndexes(|output|, Q.RowsOf(violations));
      if p.policy == Quarantine then Q.Taken(output, Q.Valid(|output|, violations)) else output
    }

    method PutView(i: nat, rows: seq<Row>, loaded: Table, ghost earlier: set<nat>)
      requires StoresOk() && i < Dates(p.range) && Runs(p, i) && rows == Written(p, i) && Clean(p, i)
      requires Dated(p, earlier) && ViewIs(p, initial, earlier, loaded) && (view.None? ==> loaded.None?)
      modifies this`view, this`written, this`seen, this`seenWritten
      ensures StoresOk() && written == old(written) + {i} && (old(view.Some?) ==> view.Some?)
    {
      ViewWriteSettles(p, initial, written, earlier, view, loaded, i);
      assert SnapshotOk(p, initial, view, written);
      seen, seenWritten := seen + [view], seenWritten + [written];
      view := ViewAfter(view, loaded, OnDate(p.range, i), rows);
      written := written + {i};
    }

    /**
     * Attempts that have lost their lease write chunks: any of them, any number of times, and from a view they
     * loaded at any earlier moment.
     */
    method Stale()
      requires StoresOk()
      modifies this`view, this`quarantine, this`written, this`parked, this`seen, this`seenWritten
      ensures StoresOk() && old(written) <= written && old(parked) <= parked && (old(view.Some?) ==> view.Some?)
    {
      var bound: int := *;
      var writes := if bound < 0 then 0 else bound;
      for k := 0 to writes
        invariant StoresOk() && old(written) <= written && old(parked) <= parked && (old(view.Some?) ==> view.Some?)
      {
        var i: int := *;
        if 0 <= i < Dates(p.range) && Runs(p, i) {
          var output, violations := Evaluate(i);
          if p.policy != Reject || Q.Invalid(|output|, violations) == [] {
            PutQuarantine(i, output, violations);
            var earlier: int := *;
            if 0 <= earlier < |seen| && seen[earlier].Some? && view.Some? {
              PutView(i, ForView(output, violations), seen[earlier], seenWritten[earlier]);
            } else if * {
              PutView(i, ForView(output, violations), view, written);
            }
          }
        }
      }
    }

    /** A crash, a lost lease or a failing call ends the attempt here, unless it is left alone. */
    method Interrupted(alone: bool) returns (stops: bool)
      ensures alone ==> !stops
    {
      stops := *;
      if alone { stops := false; }
    }

    /** The two writes of a chunk; the attempt may stop after either, or before. */
    method StoreChunk(i: nat, output: seq<Row>, violations: seq<Q.Violation>, alone: bool) returns (stopped: bool)
      requires Valid() && i < Dates(p.range) && Runs(p, i) && Clean(p, i)
      requires output == Output(p, i) && violations == Violations(p, i)
      modifies this`view, this`quarantine, this`written, this`parked, this`seen, this`seenWritten
      ensures Valid() && old(written) <= written && old(parked) <= parked
      ensures !stopped ==> i in written && i in parked
      ensures alone ==> !stopped
    {
      stopped := Interrupted(alone);
      if stopped { return; }
      PutQuarantine(i, output, violations);
      stopped := Interrupted(alone);
      if stopped { return; }
      if view.Some? {
        var loaded := view;
        ghost var earlier := written;
        Stale();
        PutView(i, ForView(output, violations), loaded, earlier);
      } else {
        PutView(i, ForView(output, violations), view, written);
      }
      stopped := Interrupted(alone);
    }

    method CommitCheckpoint(cursor: Time, summary: Summary)
      requires Valid() && done < Dates(p.range) && cursor == CursorAt(p.range, done) && done in written
               && done in parked
      requires RunsBelow(p, done + 1) && summary == SummaryAfter(p, done + 1)
      modifies this`marks, this`done
      ensures Valid() && done == old(done) + 1
    {
      ResumesNext(p, marks, done);
      marks := marks + [BackfillMark(cursor, summary)];
      done := done + 1;
    }

    /** One chunk of the loop. */
    method ProcessChunk(i: nat, cursor: Time, summary: Summary, alone: bool)
      returns (end: Option<Outcome>, next: Summary)
      requires Valid() && i == done < Dates(p.range) && cursor == CursorAt(p.range, i) && summary == SummaryAfter(p, i)
      modifies this
      ensures Valid() && old(written) <= written && old(parked) <= parked
      ensures end == None ==> done == i + 1 && next == SummaryAfter(p, done)
      ensures end != None ==> done == i && EndsAt(p, i, end.value)
      ensures alone ==> end != Some(Stopped)
      ensures end == Some(Raised) || (end != None && end.value.Rejected?) ==>
                view == old(view) && quarantine == old(quarantine)
    {
      next := summary;
      if p.transform(OnDate(p.range, i)).None? {
        return Some(Raised), next;
      }
      var output, violations := Evaluate(i);
      var invalid, valid := Q.Invalid(|output|, violations), Q.Valid(|output|, violations);
      next := NextSummary(summary, p.policy, |output|, |valid|, |invalid|, Q.Counts(violations));
      OneMoreChunk(p, i, summary, next);
      if invalid != [] && p.policy == Reject {
        return Some(Rejected(next)), summary;
      }
      var stopped := StoreChunk(i, output, violations, alone);
      if stopped { return Some(Stopped), summary; }
      CommitCheckpoint(cursor, next);
      end := None;
    }

    /**
     * `_backfill`, one attempt. When it returns a summary, every chunk has been written and the summary counts
     * each chunk exactly once, whatever earlier attempts did; it rejects only at a chunk with invalid rows. Left
     * alone it returns one exactly when every chunk still to be done runs and is not rejected.
     */
    method Attempt(alone: bool) returns (outcome: Outcome)
      requires Valid()
      modifies this
      ensures Valid() && old(written) <= written && old(parked) <= parked && old(done) <= done
      ensures outcome.Done? ==> done == Dates(p.range) && outcome.summary == SummaryAfter(p, done)
      ensures !outcome.Done? && !outcome.Stopped? ==> done < Dates(p.range) && EndsAt(p, done, outcome)
      ensures alone ==> !outcome.Stopped?
      ensures alone ==> (outcome.Done? <==> forall i | old(done) <= i < Dates(p.range) :: Runs(p, i) && Clean(p, i))
    {
      var summary := QualitySummary(marks, p.policy);
      var cursor := p.range.start;
      var i: nat := 0;
      while cursor < p.range.end
        invariant Valid() && i <= done && cursor == CursorAt(p.range, i) && summary == SummaryAfter(p, done)
        invariant old(written) <= written && old(parked) <= parked && old(done) <= done
        decreases Dates(p.range) - i
      {
        CursorEnds(p.range, i);
        CursorStep(p.range, i);
        var stops := Interrupted(alone);
        if stops { return Stopped; }
        Stale();
        var chunkEnd := ChunkEnd(cursor, p.range.end);
        if !Has(marks, cursor) {
          var end, next := ProcessChunk(i, cursor, summary, alone);
          if end.Some? { return end.value; }
          summary := next;
        }
        cursor := chunkEnd;
        i := i + 1;
      }
      CursorEnds(p.range, i);
      outcome := Done(summary);
    }

    /** A job's whole life: attempts until one does not stop early, up to some number of them. */
    method Live(budget: nat, alone: bool) returns (outcome: Outcome)
      requires Valid()
      modifies this
      ensures Valid()
      ensures alone && budget >= 1 ==>
                (outcome.Done? <==> forall i | old(done) <= i < Dates(p.range) :: Runs(p, i) && Clean(p, i))
      ensures outcome.Done? ==>
                && Dated(p, FirstDates(Dates(p.range)))
                && outcome.summary == SummaryAfter(p, Dates(p.range))
                && ViewIs(p, initial, FirstDates(Dates(p.range)), view)
                && QuarantineIs(p, FirstDates(Dates(p.range)), quarantine)
    {
      outcome := Stopped;
      var tries := 0;
      while tries < budget && outcome.Stopped?
        invariant Valid()
        invariant outcome.Done? ==> done == Dates(p.range) && outcome.summary == SummaryAfter(p, done)
        invariant tries == 0 ==> outcome.Stopped? && done == old(done)
        invariant alone && tries > 0 ==>
                    !outcome.Stopped?
                    && (outcome.Done? <==> forall i | old(done) <= i < Dates(p.range) :: Runs(p, i) && Clean(p, i))
      {
        outcome := Attempt(alone);
        tries := tries + 1;
      }
      if outcome.Done? {
        assert written == FirstDates(Dates(p.range));
        assert parked == FirstDates(Dates(p.range));
      }
    }
  }
}
