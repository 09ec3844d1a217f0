/**
 * Chunk writes of any number of attempts, live or stale, each in the two steps it really takes: looking at the
 * view, and writing to it later. The table may be created in between.
 */
module BackfillRaces {
  import opened Common
  import opened Chunks
  import opened Backfill

  type Attempt = nat

  /** What an attempt saw: the view it loaded, or that there was none. `done` is history: the chunks written by then. */
  datatype Look = Look(chunk: nat, loaded: Table, done: set<nat>)

  datatype Race = Race(view: Table, looks: map<Attempt, Look>, written: set<nat>)

  datatype Action = LookAt(attempt: Attempt, chunk: nat) | WriteFrom(attempt: Attempt)

  /** `OfflineStore.append`, which looks again whether the table exists. */
  function Appended(t: Table, rows: seq<Row>): Table {
    Some(t.GetOr([]) + rows)
  }

  /** What an attempt writes, given what it saw. */
  function AfterWrite(view: Table, loaded: Table, c: Chunk, rows: seq<Row>): Table {
    if loaded.Some? then Some(OverwriteDate(view.GetOr([]), Day(c.start), Preserved(loaded.value, c) + rows))
    else if rows != [] then Appended(view, rows)
    else view
  }

  ghost function Act(p: Plan, s: Race, a: Action): Race
    requires Typed(p)
  {
    match a
    case LookAt(attempt, chunk) =>
      if chunk < Dates(p.range) && Runs(p, chunk) then s.(looks := s.looks[attempt := Look(chunk, s.view, s.written)])
      else s
    case WriteFrom(attempt) =>
      if attempt in s.looks && Runs(p, s.looks[attempt].chunk) then
        var look := s.looks[attempt];
        Race(AfterWrite(s.view, look.loaded, OnDate(p.range, look.chunk), Written(p, look.chunk)),
             s.looks - {attempt}, s.written + {look.chunk})
      else s
  }

  ghost function Run(p: Plan, initial: Table, actions: seq<Action>): Race
    requires Typed(p)
  {
    if actions == [] then Race(initial, map[], {})
    else Act(p, Run(p, initial, actions[..|actions| - 1]), actions[|actions| - 1])
  }

  // ---- what a run keeps ----------------------------------------------------------------------------------

  /** The view is the initial table with exactly the written chunks in place. */
  ghost predicate Settled(p: Plan, initial: Table, s: Race)
    requires Typed(p)
  {
    Dated(p, s.written) && ViewIs(p, initial, s.written, s.view)
  }

  /** What attempts saw was settled, and a table that exists does not vanish. */
  ghost predicate LookOk(p: Plan, initial: Table, s: Race, look: Look)
    requires Typed(p)
  {
    && Dated(p, {look.chunk}) && Dated(p, look.done) && ViewIs(p, initial, look.done, look.loaded)
    && (look.loaded.Some? ==> s.view.Some?) && (initial.Some? ==> look.loaded.Some?)
  }

  ghost predicate RaceInv(p: Plan, initial: Table, s: Race)
    requires Typed(p)
  {
    && Settled(p, initial, s) && (initial.Some? ==> s.view.Some?)
    && forall attempt | attempt in s.looks :: LookOk(p, initial, s, s.looks[attempt])
  }

  /** An attempt that found no table writes before any other write of its chunk, or has nothing to write. */
  ghost predicate GuardHolds(p: Plan, s: Race, a: Action)
    requires Typed(p)
  {
    a.WriteFrom? && a.attempt in s.looks && Runs(p, s.looks[a.attempt].chunk) ==>
      var look := s.looks[a.attempt];
      look.loaded.Some? || look.chunk !in s.written || Written(p, look.chunk) == []
  }

  lemma AppendedCounts(view: Table, rows: seq<Row>, row: Row)
    ensures Contents(Appended(view, rows))[row] == Contents(view)[row] + multiset(rows)[row]
  {}

  /** Appending a chunk that is not there yet settles it. */
  lemma AppendSettles(p: Plan, done: set<nat>, view: Table, i: nat)
    requires Typed(p) && Dated(p, done) && Dated(p, {i}) && ViewIs(p, None, done, view) && i !in done
    ensures Dated(p, done + {i}) && ViewIs(p, None, done + {i}, Appended(view, Written(p, i)))
  {
    assert i in {i};
    ChunkRowsAreInside(p, i);
    forall row ensures Contents(Appended(view, Written(p, i)))[row] == Expected(p, None, done + {i}, row) {
      ChunkIsDate(p, i, row);
      AppendedCounts(view, Written(p, i), row);
      assert Contents(view)[row] == Expected(p, None, done, row);
      assert !Holds(OnDate(p.range, i), row.at) ==> row !in Written(p, i);
    }
  }

  /** Appending one that is there, and not empty, does not. */
  lemma AppendRepeats(p: Plan, done: set<nat>, view: Table, i: nat)
    requires Typed(p) && Dated(p, done) && i in done && ViewIs(p, None, done, view) && Written(p, i) != []
    ensures Dated(p, done + {i}) && !ViewIs(p, None, done + {i}, Appended(view, Written(p, i)))
  {
    var row := Written(p, i)[0];
    assert row in Written(p, i);
    ChunkRowsAreInside(p, i);
    ChunkIsDate(p, i, row);
    AppendedCounts(view, Written(p, i), row);
    assert Contents(view)[row] == Expected(p, None, done, row);
    assert Contents(Appended(view, Written(p, i)))[row] != Expected(p, None, done + {i}, row);
  }

  lemma NothingWritten(p: Plan, done: set<nat>, view: Table, i: nat)
    requires Typed(p) && Dated(p, done) && Dated(p, {i}) && ViewIs(p, None, done, view)
    requires i in {i} && Written(p, i) == []
    ensures Dated(p, done + {i}) && ViewIs(p, None, done + {i}, view)
  {
    forall row ensures Contents(view)[row] == Expected(p, None, done + {i}, row) {
      ChunkIsDate(p, i, row);
      assert Contents(view)[row] == Expected(p, None, done, row);
    }
  }

  lemma WriteExactly(p: Plan, initial: Table, s: Race, attempt: Attempt)
    requires Typed(p) && RaceInv(p, initial, s) && attempt in s.looks && Runs(p, s.looks[attempt].chunk)
    ensures Settled(p, initial, Act(p, s, WriteFrom(attempt))) <==> GuardHolds(p, s, WriteFrom(attempt))
  {
    var look := s.looks[attempt];
    assert LookOk(p, initial, s, look) && look.chunk in {look.chunk};
    if look.loaded.Some? {
      ViewWriteSettles(p, initial, s.written, look.done, s.view, look.loaded, look.chunk);
    } else {
      assert initial == None;
      if Written(p, look.chunk) == [] {
        NothingWritten(p, s.written, s.view, look.chunk);
      } else if look.chunk in s.written {
        AppendRepeats(p, s.written, s.view, look.chunk);
      } else {
        AppendSettles(p, s.written, s.view, look.chunk);
      }
    }
  }

  /** One step, exactly: a settled view stays settled if and only if the guard holds. */
  lemma StepExactly(p: Plan, initial: Table, s: Race, a: Action)
    requires Typed(p) && RaceInv(p, initial, s)
    ensures Settled(p, initial, Act(p, s, a)) <==> GuardHolds(p, s, a)
    ensures GuardHolds(p, s, a) ==> RaceInv(p, initial, Act(p, s, a))
  {
    var next := Act(p, s, a);
    if a.WriteFrom? && a.attempt in s.looks && Runs(p, s.looks[a.attempt].chunk) {
      WriteExactly(p, initial, s, a.attempt);
    }
    forall attempt | attempt in next.looks ensures LookOk(p, initial, next, next.looks[attempt]) {
      if attempt in s.looks { assert LookOk(p, initial, s, s.looks[attempt]); }
    }
  }

  /** The view is settled at every moment of the run. */
  ghost predicate AlwaysSettled(p: Plan, initial: Table, actions: seq<Action>)
    requires Typed(p)
  {
    Settled(p, initial, Run(p, initial, actions))
    && (actions != [] ==> AlwaysSettled(p, initial, actions[..|actions| - 1]))
  }

  /** The guard holds at every step of the run. */
  ghost predicate AlwaysGuarded(p: Plan, initial: Table, actions: seq<Action>)
    requires Typed(p)
  {
    actions != [] ==>
      var init, last := actions[..|actions| - 1], actions[|actions| - 1];
      AlwaysGuarded(p, initial, init) && GuardHolds(p, Run(p, initial, init), last)
  }

  lemma NothingYet(p: Plan, initial: Table)
    requires Typed(p)
    ensures RaceInv(p, initial, Race(initial, map[], {}))
  {
    forall row ensures Contents(initial)[row] == Expected(p, initial, {}, row) {}
  }

  /**
   * Chunk writes in two steps, exactly: over any run of looks and writes of any attempts, the view is always the
   * initial table with exactly the written chunks in place, if and only if every attempt that found no table
   * writes before any other write of its chunk, or has nothing to write. An attempt that found the table may be
   * as stale as it likes.
   */
  lemma {:induction false} RaceExactly(p: Plan, initial: Table, actions: seq<Action>)
    requires Typed(p)
    ensures AlwaysSettled(p, initial, actions) <==> AlwaysGuarded(p, initial, actions)
    ensures AlwaysGuarded(p, initial, actions) ==> RaceInv(p, initial, Run(p, initial, actions))
  {
    if actions == [] {
      NothingYet(p, initial);
    } else {
      var init := actions[..|actions| - 1];
      RaceExactly(p, initial, init);
      if AlwaysGuarded(p, initial, init) { StepExactly(p, initial, Run(p, initial, init), actions[|actions| - 1]); }
    }
  }

  /** When the view exists from the start every run settles. */
  lemma ExistingViewAlwaysSettles(p: Plan, initial: Table, actions: seq<Action>)
    requires Typed(p) && initial.Some?
    ensures AlwaysSettled(p, initial, actions)
  {
    GuardedFromStart(p, initial, actions);
    RaceExactly(p, initial, actions);
  }

  lemma {:induction false} GuardedFromStart(p: Plan, initial: Table, actions: seq<Action>)
    requires Typed(p) && initial.Some?
    ensures AlwaysGuarded(p, initial, actions)
  {
    if actions != [] {
      var n := |actions| - 1;
      GuardedFromStart(p, initial, actions[..n]);
      RaceExactly(p, initial, actions[..n]);
      var s := Run(p, initial, actions[..n]);
      if actions[n].WriteFrom? && actions[n].attempt in s.looks {
        assert LookOk(p, initial, s, s.looks[actions[n].attempt]);
      }
    }
  }

  /** Two attempts of one chunk that both find no table write every row of it twice. */
  lemma TwoCreatorsRepeat(p: Plan, i: nat)
    requires Typed(p) && i < Dates(p.range) && Runs(p, i) && Written(p, i) != []
    ensures var s := Run(p, None, [LookAt(0, i), LookAt(1, i), WriteFrom(0), WriteFrom(1)]);
            s.view == Some(Written(p, i) + Written(p, i)) && !Settled(p, None, s)
  {
    var looked := [LookAt(0, i), LookAt(1, i)];
    assert looked[..1][..0] == [] && Run(p, None, looked[..1]) == Act(p, Race(None, map[], {}), LookAt(0, i));
    RunMore(p, looked, WriteFrom(0));
    RunMore(p, looked + [WriteFrom(0)], WriteFrom(1));
    assert looked + [WriteFrom(0)] + [WriteFrom(1)] == [LookAt(0, i), LookAt(1, i), WriteFrom(0), WriteFrom(1)];
    TwoWrites(p, Run(p, None, looked), i);
    RepeatedIsNotSettled(p, Run(p, None, looked + [WriteFrom(0)] + [WriteFrom(1)]), i);
  }

  lemma RunMore(p: Plan, actions: seq<Action>, a: Action)
    requires Typed(p)
    ensures Run(p, None, actions + [a]) == Act(p, Run(p, None, actions), a)
  {
    assert (actions + [a])[..|actions|] == actions;
  }

  lemma TwoWrites(p: Plan, s: Race, i: nat)
    requires Typed(p) && Runs(p, i) && Written(p, i) != []
    requires s == Race(None, map[0 := Look(i, None, {}), 1 := Look(i, None, {})], {})
    ensures Act(p, Act(p, s, WriteFrom(0)), WriteFrom(1)).view == Some(Written(p, i) + Written(p, i))
  {
    assert [] + Written(p, i) == Written(p, i);
  }

  lemma RepeatedIsNotSettled(p: Plan, s: Race, i: nat)
    requires Typed(p) && i < Dates(p.range) && Runs(p, i) && Written(p, i) != []
    requires s.view == Some(Written(p, i) + Written(p, i))
    ensures !Settled(p, None, s)
  {
    var row := Written(p, i)[0];
    ChunkRowsAreInside(p, i);
    assert row in Written(p, i);
    ChunkIsDate(p, i, row);
    assert Contents(s.view)[row] == 2 * multiset(Written(p, i))[row];
  }
}
