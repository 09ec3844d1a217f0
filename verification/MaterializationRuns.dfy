/** What one incremental run scans, writes and publishes, and that a run left alone comes to its end. */
module MaterializationRuns {
  import opened Common
  import opened TextOrder
  import opened Jobs
  import opened JobInvariants
  import opened JobProtocol
  import opened OnlineRows
  import opened Materialization

  // ---- what is scanned and written -----------------------------------------------------------------------

  /** What an attempt still has to write are scanned rows, one per entity. */
  ghost predicate TodoOk(attempt: Attempt) {
    && (forall i | 0 <= i < |attempt.todo| :: attempt.todo[i] in attempt.scanned)
    && (forall i, j | 0 <= i < j < |attempt.todo| :: attempt.todo[i].entity != attempt.todo[j].entity)
    && (attempt.phase == StateRead ==> attempt.scanned == {} && attempt.table == {})
  }

  lemma ActKeepsTodo(cfg: Settings, w: World, a: Action)
    requires forall token | token in w.attempts :: TodoOk(w.attempts[token])
    ensures forall token | token in Act(cfg, w, a).attempts :: TodoOk(Act(cfg, w, a).attempts[token])
  {}

  lemma {:induction false} RunKeepsTodo(cfg: Settings, actions: seq<Action>)
    ensures forall token | token in Run(cfg, actions).attempts :: TodoOk(Run(cfg, actions).attempts[token])
  {
    if actions != [] {
      RunKeepsTodo(cfg, actions[..|actions| - 1]);
      ActKeepsTodo(cfg, Run(cfg, actions[..|actions| - 1]), actions[|actions| - 1]);
    }
  }

  /**
   * The range of a scan, exactly and over every run: an attempt that has scanned has the rows of its table before
   * the cutoff of its job and, if it read a watermark, not before the watermark less the lookback of its job.
   */
  lemma ScannedExactly(cfg: Settings, actions: seq<Action>, token: Token, row: Row)
    requires token in Run(cfg, actions).attempts && Run(cfg, actions).attempts[token].phase != StateRead
    ensures var w := Run(cfg, actions); var attempt := w.attempts[token];
            && attempt.job in w.db.jobs && w.db.jobs[attempt.job].payload.IncrementalPayload?
            && var payload := w.db.jobs[attempt.job].payload;
               (row in attempt.scanned <==>
                  && row in attempt.table && row.at < payload.end
                  && (attempt.watermark.Some? ==> row.at >= attempt.watermark.value - Seconds(payload.lookback)))
  {
    RunKeepsWorldInv(cfg, actions);
    assert AttemptInv(Run(cfg, actions), token);
  }

  /** A row that the scan leaves out because it is too late is never written by the run. */
  lemma WritesBeforeCutoff(cfg: Settings, actions: seq<Action>, token: Token)
    requires Act(cfg, Run(cfg, actions), UpsertNext(token)) != Run(cfg, actions)
    ensures var w := Run(cfg, actions);
            && token in w.attempts && w.attempts[token].todo != []
            && w.attempts[token].job in w.db.jobs && w.db.jobs[w.attempts[token].job].payload.IncrementalPayload?
            && var payload, row := w.db.jobs[w.attempts[token].job].payload, w.attempts[token].todo[0];
               && row in w.attempts[token].table && row.at < payload.end
               && Act(cfg, w, UpsertNext(token)).online == Upserted(w.online, payload.view, row)
  {
    RunKeepsWorldInv(cfg, actions);
    RunKeepsTodo(cfg, actions);
    assert AttemptInv(Run(cfg, actions), token) && TodoOk(Run(cfg, actions).attempts[token]);
  }

  /** The freshness a success publishes is the one before it or the time of a row it scanned before its cutoff. */
  lemma PublishedFreshness(cfg: Settings, actions: seq<Action>, success: Action)
    requires Finishes(cfg, Run(cfg, actions), success)
    ensures var w, next := Run(cfg, actions), Act(cfg, Run(cfg, actions), success);
            && success.token in w.attempts && w.attempts[success.token].job in w.db.jobs
            && w.db.jobs[w.attempts[success.token].job].payload.IncrementalPayload?
            && var attempt, payload := w.attempts[success.token], w.db.jobs[w.attempts[success.token].job].payload;
               var before, after := StateOf(w.db, payload.view).freshness, StateOf(next.db, payload.view).freshness;
               && (after == before
                   || exists row :: row in attempt.table && row.at < payload.end && after == Some(row.at))
               && FreshnessAtMost(before, after)
               && (forall row | row in attempt.scanned :: FreshnessAtMost(Some(row.at), after))
  {
    var w := Run(cfg, actions);
    RunKeepsWorldInv(cfg, actions);
    assert AttemptInv(w, success.token) && Current(w, success.token);
    var op := OpSucceed(w.attempts[success.token].job, success.token, None, success.freshness, success.now);
    assert Act(cfg, w, success).db == Step(cfg, w.db, op);
    WatermarkMoves(cfg, w.db, op, w.db.jobs[op.id].payload.view);
  }

  // ---- a run that is left alone ----------------------------------------------------------------------------

  ghost function RunFrom(cfg: Settings, w: World, actions: seq<Action>): World {
    if actions == [] then w
    else Act(cfg, RunFrom(cfg, w, actions[..|actions| - 1]), actions[|actions| - 1])
  }

  lemma RunFromMore(cfg: Settings, w: World, actions: seq<Action>, a: Action)
    ensures RunFrom(cfg, w, actions + [a]) == Act(cfg, RunFrom(cfg, w, actions), a)
  {
    assert (actions + [a])[..|actions|] == actions;
  }

  /** A worker that holds the lease of an incremental job and has not begun. */
  ghost predicate AboutToRun(w: World, id: JobId, token: Token) {
    && WorldInv(w) && id in w.db.jobs && IsIncremental(w.db.jobs[id]) && w.db.jobs[id].leaseToken == Some(token)
    && token !in w.attempts
  }

  /** The rows the run has to publish, told by the view's table, its watermark and the job. */
  ghost function RowsDue(w: World, id: JobId): set<Row>
    requires id in w.db.jobs && IsIncremental(w.db.jobs[id])
  {
    var payload := w.db.jobs[id].payload;
    var watermark := if payload.view in w.db.states then w.db.states[payload.view].watermark else None;
    set row | row in (if payload.view in w.tables then w.tables[payload.view] else {})
              && row.at < payload.end
              && (watermark.Some? ==> watermark.value - Seconds(payload.lookback) <= row.at)
  }

  lemma BeginRun(cfg: Settings, w: World, id: JobId, token: Token, latest: seq<Row>)
    requires AboutToRun(w, id, token) && IsLatest(latest, RowsDue(w, id))
    ensures var next := RunFrom(cfg, w, [ReadState(token), ScanTable(token, latest)]);
            var state := StateOf(w.db, w.db.jobs[id].payload.view);
            next == w.(attempts := w.attempts[token :=
                         Attempt(id, Scanned, state.watermark, state.freshness, TableOf(w, w.db.jobs[id].payload.view),
                                 RowsDue(w, id), latest)])
  {
    var view := w.db.jobs[id].payload.view;
    assert JobLease(w.db.issued, id, w.db.jobs[id]);
    var read := Act(cfg, w, ReadState(token));
    RunFromMore(cfg, w, [], ReadState(token));
    RunFromMore(cfg, w, [ReadState(token)], ScanTable(token, latest));
    assert [] + [ReadState(token)] == [ReadState(token)];
    assert [ReadState(token)] + [ScanTable(token, latest)] == [ReadState(token), ScanTable(token, latest)];
    DueIsInRange(w, id);
  }

  lemma DueIsInRange(w: World, id: JobId)
    requires id in w.db.jobs && IsIncremental(w.db.jobs[id])
    ensures var payload := w.db.jobs[id].payload;
            RowsDue(w, id) == set row | row in TableOf(w, payload.view)
                && InRange(row, StateOf(w.db, payload.view).watermark, payload.lookback, payload.end)
  {}

  function Upserts(token: Token, n: nat): seq<Action> {
    seq(n, _ => UpsertNext(token))
  }

  lemma {:induction false} WriteSome(cfg: Settings, w: World, token: Token, n: nat)
    requires token in w.attempts && Runs(w.db, token) && n <= |w.attempts[token].todo|
    ensures var todo := w.attempts[token].todo;
            RunFrom(cfg, w, Upserts(token, n))
            == w.(online := UpsertAll(w.online, w.db.jobs[w.db.issued[token]].payload.view, todo[..n]),
                  attempts := w.attempts[token := w.attempts[token].(todo := todo[n..])])
  {
    var todo := w.attempts[token].todo;
    if n == 0 {
      assert todo[0..] == todo && w.attempts[token := w.attempts[token]] == w.attempts;
    } else {
      WriteSome(cfg, w, token, n - 1);
      assert Upserts(token, n) == Upserts(token, n - 1) + [UpsertNext(token)];
      RunFromMore(cfg, w, Upserts(token, n - 1), UpsertNext(token));
      WriteOne(cfg, w, token, n - 1);
    }
  }

  /** The next write, n rows into the list. */
  lemma WriteOne(cfg: Settings, w: World, token: Token, n: nat)
    requires token in w.attempts && Runs(w.db, token) && n < |w.attempts[token].todo|
    ensures var todo, view := w.attempts[token].todo, w.db.jobs[w.db.issued[token]].payload.view;
            Act(cfg, w.(online := UpsertAll(w.online, view, todo[..n]),
                        attempts := w.attempts[token := w.attempts[token].(todo := todo[n..])]), UpsertNext(token))
            == w.(online := UpsertAll(w.online, view, todo[..n + 1]),
                  attempts := w.attempts[token := w.attempts[token].(todo := todo[n + 1..])])
  {
    var todo := w.attempts[token].todo;
    assert todo[..n + 1][..n] == todo[..n] && todo[n..][1..] == todo[n + 1..];
  }

  lemma {:induction false} RunFromJoin(cfg: Settings, w: World, a: seq<Action>, b: seq<Action>)
    ensures RunFrom(cfg, w, a + b) == RunFrom(cfg, RunFrom(cfg, w, a), b)
  {
    if b == [] {
      assert a + b == a;
    } else {
      assert (a + b)[..|a + b| - 1] == a + b[..|b| - 1];
      RunFromJoin(cfg, w, a, b[..|b| - 1]);
    }
  }

  /** Checkpoint and success of an attempt with nothing left to write, under a lease that still runs. */
  lemma EndRun(cfg: Settings, w: World, id: JobId, token: Token, note: string, freshness: Option<Time>, now: Time)
    requires Inv(w.db) && Owns(w.db, id, token, now) && IsIncremental(w.db.jobs[id])
    requires token in w.attempts && w.attempts[token].job == id
    requires w.attempts[token].phase == Scanned && w.attempts[token].todo == []
    requires IsFreshness(freshness, w.attempts[token].prior, w.attempts[token].scanned)
    ensures var next := RunFrom(cfg, w, [CommitCheckpoint(token, note, now), FinishRun(token, freshness, now)]);
            var payload := w.db.jobs[id].payload;
            && next.online == w.online && next.tables == w.tables
            && id in next.db.jobs && next.db.jobs[id].status == Succeeded
            && payload.view in next.db.states
            && next.db.states[payload.view] == MatState(Some(payload.end), freshness, None, Some(id))
  {
    var first := CommitCheckpoint(token, note, now);
    var done := FinishRun(token, freshness, now);
    RunFromMore(cfg, w, [], first);
    RunFromMore(cfg, w, [first], done);
    assert [] + [first] == [first] && [first] + [done] == [first, done];
    var view := w.db.jobs[id].payload.view;
    assert Reserved(w.db, view, id) <==> ActiveIncremental(w.db, view, id);
    Checkpointing(cfg, w, id, token, note, now);
  }

  lemma Checkpointing(cfg: Settings, w: World, id: JobId, token: Token, note: string, now: Time)
    requires Owns(w.db, id, token, now) && token in w.attempts && w.attempts[token].job == id
    requires w.attempts[token].phase == Scanned && w.attempts[token].todo == []
    ensures Act(cfg, w, CommitCheckpoint(token, note, now))
            == w.(db := w.db.(jobs := w.db.jobs[id := w.db.jobs[id].(checkpoints := [note])]),
                  attempts := w.attempts[token := w.attempts[token].(phase := Checkpointed)])
  {}

  /** Everything an attempt does by itself. */
  function WholeRun(token: Token, latest: seq<Row>, note: string, freshness: Option<Time>, now: Time): seq<Action> {
    [ReadState(token), ScanTable(token, latest)] + Upserts(token, |latest|)
    + [CommitCheckpoint(token, note, now), FinishRun(token, freshness, now)]
  }

  /**
   * A run that is left alone and keeps its lease comes to its end: the job succeeds, the watermark is its cutoff,
   * the freshness the greatest of the old one and the times of the rows due, every row due is dominated online,
   * and nothing else has been written online.
   */
  lemma LeftAloneItFinishes(cfg: Settings, w: World, id: JobId, token: Token, note: string, now: Time)
    returns (latest: seq<Row>, freshness: Option<Time>)
    requires AboutToRun(w, id, token) && Owns(w.db, id, token, now)
    ensures var next := RunFrom(cfg, w, WholeRun(token, latest, note, freshness, now));
            var payload, rows := w.db.jobs[id].payload, RowsDue(w, id);
            var prior := StateOf(w.db, payload.view).freshness;
            && id in next.db.jobs && next.db.jobs[id].status == Succeeded
            && payload.view in next.db.states
            && next.db.states[payload.view] == MatState(Some(payload.end), freshness, None, Some(id))
            && (freshness.None? <==> prior.None? && rows == {})
            && (freshness.Some? ==>
                  && (prior.Some? ==> prior.value <= freshness.value)
                  && (forall row | row in rows :: row.at <= freshness.value)
                  && (freshness == prior || exists row :: row in rows && row.at == freshness.value))
            && (forall row | row in rows :: Dominated(next.online, payload.view, row))
            && (forall slot | slot in next.online :: PublishedSlot(w.online, next.online, payload.view, rows, slot))
            && next.tables == w.tables
  {
    var rows, view := RowsDue(w, id), w.db.jobs[id].payload.view;
    latest := LatestExists(rows);
    freshness := FreshnessExists(StateOf(w.db, view).freshness, rows);
    WholeRunEnds(cfg, w, id, token, latest, note, freshness, now);
    FreshnessByRows(freshness, StateOf(w.db, view).freshness, rows);
    PublishedRows(w.online, view, latest, rows);
  }

  lemma FreshnessByRows(freshness: Option<Time>, prior: Option<Time>, rows: set<Row>)
    requires IsFreshness(freshness, prior, rows)
    ensures freshness.None? <==> prior.None? && rows == {}
    ensures freshness.Some? ==>
              && (prior.Some? ==> prior.value <= freshness.value)
              && (forall row | row in rows :: row.at <= freshness.value)
              && (freshness == prior || exists row :: row in rows && row.at == freshness.value)
  {
    forall row | row in rows ensures freshness.Some? && row.at <= freshness.value {
      assert FreshnessAtMost(Some(row.at), freshness);
    }
  }

  lemma PublishedRows(online: map<Slot, Row>, view: ViewRef, latest: seq<Row>, rows: set<Row>)
    requires IsLatest(latest, rows)
    ensures var next := UpsertAll(online, view, latest);
            && (forall row | row in rows :: Dominated(next, view, row))
            && (forall slot | slot in next :: PublishedSlot(online, next, view, rows, slot))
  {
    forall row | row in rows ensures Dominated(UpsertAll(online, view, latest), view, row) {
      PublishedRow(online, view, latest, rows, row);
    }
    forall slot | slot in UpsertAll(online, view, latest)
      ensures PublishedSlot(online, UpsertAll(online, view, latest), view, rows, slot)
    {
      OnlyPublished(online, view, latest, rows, slot);
    }
  }

  lemma WholeRunEnds(cfg: Settings, w: World, id: JobId, token: Token, latest: seq<Row>, note: string,
                     freshness: Option<Time>, now: Time)
    requires AboutToRun(w, id, token) && Owns(w.db, id, token, now) && IsLatest(latest, RowsDue(w, id))
    requires IsFreshness(freshness, StateOf(w.db, w.db.jobs[id].payload.view).freshness, RowsDue(w, id))
    ensures var next := RunFrom(cfg, w, WholeRun(token, latest, note, freshness, now));
            var payload := w.db.jobs[id].payload;
            && id in next.db.jobs && next.db.jobs[id].status == Succeeded
            && payload.view in next.db.states
            && next.db.states[payload.view] == MatState(Some(payload.end), freshness, None, Some(id))
            && next.online == UpsertAll(w.online, payload.view, latest) && next.tables == w.tables
  {
    var begins := [ReadState(token), ScanTable(token, latest)];
    var ends := [CommitCheckpoint(token, note, now), FinishRun(token, freshness, now)];
    RunFromJoin(cfg, w, begins, Upserts(token, |latest|));
    RunFromJoin(cfg, w, begins + Upserts(token, |latest|), ends);
    BeginRun(cfg, w, id, token, latest);
    assert JobLease(w.db.issued, id, w.db.jobs[id]);
    WriteAll(cfg, RunFrom(cfg, w, begins), token);
    EndRun(cfg, RunFrom(cfg, w, begins + Upserts(token, |latest|)), id, token, note, freshness, now);
  }

  lemma WriteAll(cfg: Settings, w: World, token: Token)
    requires token in w.attempts && Runs(w.db, token)
    ensures var todo := w.attempts[token].todo;
            RunFrom(cfg, w, Upserts(token, |todo|))
            == w.(online := UpsertAll(w.online, w.db.jobs[w.db.issued[token]].payload.view, todo),
                  attempts := w.attempts[token := w.attempts[token].(todo := [])])
  {
    var todo := w.attempts[token].todo;
    WriteSome(cfg, w, token, |todo|);
    assert todo[..|todo|] == todo && todo[|todo|..] == [];
  }

  lemma PublishedRow(online: map<Slot, Row>, view: ViewRef, latest: seq<Row>, rows: set<Row>, row: Row)
    requires IsLatest(latest, rows) && row in rows
    ensures Dominated(UpsertAll(online, view, latest), view, row)
  {
    var i :| Covers(latest, i, row);
    var slot := Slot(view, row.entity);
    UpsertAllKeepsGreatest(online, view, latest, slot);
    assert Competes(online, view, latest, slot, latest[i]);
    AtMostTransitive(StampOf(row), StampOf(latest[i]), StampOf(UpsertAll(online, view, latest)[slot]));
  }

  /** The entry was there before, or is a published row of that entity. */
  ghost predicate PublishedSlot(online: map<Slot, Row>, next: map<Slot, Row>, view: ViewRef, rows: set<Row>, slot: Slot)
    requires slot in next
  {
    || (slot in online && next[slot] == online[slot])
    || (slot.view == view && next[slot] in rows && next[slot].entity == slot.entity)
  }

  lemma OnlyPublished(online: map<Slot, Row>, view: ViewRef, latest: seq<Row>, rows: set<Row>, slot: Slot)
    requires IsLatest(latest, rows) && slot in UpsertAll(online, view, latest)
    ensures PublishedSlot(online, UpsertAll(online, view, latest), view, rows, slot)
  {
    UpsertAllKeepsGreatest(online, view, latest, slot);
  }

  lemma {:induction false} GreatestExists(rows: set<Row>) returns (best: Row)
    requires rows != {}
    ensures best in rows && forall row | row in rows :: AtMost(StampOf(row), StampOf(best))
    decreases |rows|
  {
    var some :| some in rows;
    best := some;
    AtMostTotal(StampOf(some), StampOf(some));
    if rows != {some} {
      assert |rows - {some}| < |rows|;
      var rest := GreatestExists(rows - {some});
      AtMostTotal(StampOf(some), StampOf(rest));
      if AtMost(StampOf(some), StampOf(rest)) { best := rest; }
      forall row | row in rows ensures AtMost(StampOf(row), StampOf(best)) {
        if row != some && best == some { AtMostTransitive(StampOf(row), StampOf(rest), StampOf(some)); }
      }
    }
  }

  /** The latest row of each entity exists. */
  lemma {:induction false} LatestExists(rows: set<Row>) returns (latest: seq<Row>)
    ensures IsLatest(latest, rows)
    decreases |rows|
  {
    if rows == {} {
      latest := [];
    } else {
      var mine, others := OneEntity(rows);
      var rest := LatestExists(others);
      var best := GreatestExists(mine);
      latest := rest + [best];
      OneMoreEntity(rest, others, mine, best);
    }
  }

  /** The rows of some entity, and the rest. */
  lemma OneEntity(rows: set<Row>) returns (mine: set<Row>, others: set<Row>)
    requires rows != {}
    ensures mine != {} && others + mine == rows && |others| < |rows|
    ensures forall a, b | a in mine && b in mine :: a.entity == b.entity
    ensures forall a, b | a in mine && b in others :: a.entity != b.entity
  {
    var some :| some in rows;
    mine := set row | row in rows && row.entity == some.entity;
    others := rows - mine;
    assert some in mine;
    assert rows == others + mine && others !! mine;
  }

  lemma OneMoreEntity(rest: seq<Row>, others: set<Row>, mine: set<Row>, best: Row)
    requires IsLatest(rest, others) && best in mine && forall row | row in mine :: row.entity == best.entity
    requires forall row | row in others :: row.entity != best.entity
    requires forall row | row in mine :: AtMost(StampOf(row), StampOf(best))
    ensures IsLatest(rest + [best], others + mine)
  {
    var latest := rest + [best];
    forall row | row in mine ensures Covers(latest, |rest|, row) {}
    forall row | row in others ensures exists k :: Covers(latest, k, row) {
      var k :| Covers(rest, k, row);
      StillCovers(rest, latest, k, row);
    }
  }

  lemma StillCovers(rest: seq<Row>, latest: seq<Row>, k: int, row: Row)
    requires Covers(rest, k, row) && rest <= latest
    ensures Covers(latest, k, row)
  {}

  lemma {:induction false} FreshnessExists(prior: Option<Time>, rows: set<Row>) returns (freshness: Option<Time>)
    ensures IsFreshness(freshness, prior, rows)
    decreases |rows|
  {
    if rows == {} {
      freshness := prior;
    } else {
      var row :| row in rows;
      assert |rows - {row}| < |rows|;
      freshness := FreshnessExists(prior, rows - {row});
      if !FreshnessAtMost(Some(row.at), freshness) {
        freshness := Some(row.at);
      }
      assert forall other | other in rows :: other == row || other in rows - {row};
    }
  }
}
