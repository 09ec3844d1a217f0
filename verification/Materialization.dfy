/**
 * Incremental materialization over the job database and two stores no lease protects: the offline
 * view tables and the online hashes. Attempts run step by step, any number of them at once, stale ones
 * included; any attempt may stop for ever between two steps, which is what a crash is.
 */
module Materialization {
  import opened Common
  import opened TextOrder
  import opened Jobs
  import opened JobInvariants
  import opened JobProtocol
  import opened OnlineRows

  /** How far one attempt has got: state row read, table scanned, all upserts done and checkpointed. */
  datatype Phase = StateRead | Scanned | Checkpointed

  /**
   * What a worker keeps in memory for one attempt: the watermark and freshness it read, the whole table
   * it scanned, the rows of its range, and the latest rows it has still to write online.
   */
  datatype Attempt = Attempt(
    job: JobId, phase: Phase, watermark: Option<Time>, prior: Option<Time>,
    table: set<Row>, scanned: set<Row>, todo: seq<Row>)

  /** `covered` is history: the table the last successful run of each view scanned. */
  datatype World = World(
    db: Database, tables: map<ViewRef, set<Row>>, online: map<Slot, Row>,
    attempts: map<Token, Attempt>, covered: map<ViewRef, set<Row>>)

  const EMPTY_WORLD := World(EMPTY_DATABASE, map[], map[], map[], map[])

  function TableOf(w: World, view: ViewRef): set<Row> {
    if view in w.tables then w.tables[view] else {}
  }

  function CoveredBy(w: World, view: ViewRef): set<Row> {
    if view in w.covered then w.covered[view] else {}
  }

  /** The pushed-down range of a run: everything before the cutoff, from the watermark less the lookback on. */
  predicate InRange(row: Row, watermark: Option<Time>, lookback: nat, end: Time) {
    row.at < end && (watermark.Some? ==> row.at >= watermark.value - Seconds(lookback))
  }

  predicate FreshnessAtMost(a: Option<Time>, b: Option<Time>) {
    a.None? || (b.Some? && a.value <= b.value)
  }

  /** The greatest of the prior freshness and the scanned timestamps, if there is any. */
  ghost predicate IsFreshness(freshness: Option<Time>, prior: Option<Time>, scanned: set<Row>) {
    && FreshnessAtMost(prior, freshness)
    && (forall row | row in scanned :: FreshnessAtMost(Some(row.at), freshness))
    && (freshness.Some? ==> freshness == prior || exists row :: row in scanned && row.at == freshness.value)
  }

  datatype Action =
    | Transaction(op: Op)                                  // any transaction except an incremental success
    | WriteTable(view: ViewRef, rows: set<Row>)            // appends, backfills: any change of a view table
    | WriteOnline(view: ViewRef, row: Row)                 // the streaming path, or any other upsert
    | ReadState(token: Token)
    | ScanTable(token: Token, latest: seq<Row>)
    | UpsertNext(token: Token)
    | CommitCheckpoint(token: Token, note: string, now: Time)
    | FinishRun(token: Token, freshness: Option<Time>, now: Time)

  /** The job a token was issued for, when it is an incremental materialization. */
  predicate Runs(db: Database, token: Token) {
    token in db.issued && db.issued[token] in db.jobs && IsIncremental(db.jobs[db.issued[token]])
  }

  predicate SucceedsIncremental(db: Database, op: Op) {
    op.OpSucceed? && op.id in db.jobs && IsIncremental(db.jobs[op.id])
  }

  ghost function Act(cfg: Settings, w: World, a: Action): World {
    match a
    case Transaction(op) =>
      if SucceedsIncremental(w.db, op) then w else w.(db := Step(cfg, w.db, op))
    case WriteTable(view, rows) => w.(tables := w.tables[view := rows])
    case WriteOnline(view, row) => w.(online := Upserted(w.online, view, row))
    case ReadState(token) =>
      if Runs(w.db, token) && token !in w.attempts then
        var id := w.db.issued[token];
        var state := StateOf(w.db, w.db.jobs[id].payload.view);
        w.(attempts := w.attempts[token := Attempt(id, StateRead, state.watermark, state.freshness, {}, {}, [])])
      else w
    case ScanTable(token, latest) =>
      if token in w.attempts && w.attempts[token].phase == StateRead && Runs(w.db, token) then
        var attempt := w.attempts[token];
        var payload := w.db.jobs[w.db.issued[token]].payload;
        var table := TableOf(w, payload.view);
        var scanned := set row | row in table && InRange(row, attempt.watermark, payload.lookback, payload.end);
        if IsLatest(latest, scanned) then
          w.(attempts := w.attempts[token :=
               attempt.(phase := Scanned, table := table, scanned := scanned, todo := latest)])
        else w
      else w
    case UpsertNext(token) =>
      if token in w.attempts && Runs(w.db, token) && w.attempts[token].todo != [] then
        var attempt := w.attempts[token];
        w.(online := Upserted(w.online, w.db.jobs[w.db.issued[token]].payload.view, attempt.todo[0]),
           attempts := w.attempts[token := attempt.(todo := attempt.todo[1..])])
      else w
    case CommitCheckpoint(token, note, now) =>
      if token in w.attempts && w.attempts[token].phase == Scanned && w.attempts[token].todo == [] then
        var tx := Checkpoint(w.db, w.attempts[token].job, token, [note], now);
        if tx.reply == Accepted then
          w.(db := tx.db, attempts := w.attempts[token := w.attempts[token].(phase := Checkpointed)])
        else w
      else w
    case FinishRun(token, freshness, now) =>
      if token in w.attempts && w.attempts[token].phase == Checkpointed
         && IsFreshness(freshness, w.attempts[token].prior, w.attempts[token].scanned) then
        var attempt := w.attempts[token];
        var tx := Succeed(cfg, w.db, attempt.job, token, None, freshness, now);
        if tx.reply == Accepted && IsIncremental(w.db.jobs[attempt.job]) then
          w.(db := tx.db, covered := w.covered[w.db.jobs[attempt.job].payload.view := attempt.table])
        else w
      else w
  }

  ghost function Run(cfg: Settings, actions: seq<Action>): World {
    if actions == [] then EMPTY_WORLD
    else Act(cfg, Run(cfg, actions[..|actions| - 1]), actions[|actions| - 1])
  }

  // ---- what a run keeps ----------------------------------------------------------------------------

  /** The attempt with this token still owns its job, so nothing has moved since it read the state. */
  ghost predicate Current(w: World, token: Token) {
    token in w.attempts && w.attempts[token].job in w.db.jobs
    && w.db.jobs[w.attempts[token].job].leaseToken == Some(token)
  }

  ghost predicate AttemptInv(w: World, token: Token)
    requires token in w.attempts
  {
    var attempt := w.attempts[token];
    && Runs(w.db, token) && w.db.issued[token] == attempt.job
    && (Current(w, token) ==>
          var state := StateOf(w.db, w.db.jobs[attempt.job].payload.view);
          attempt.watermark == state.watermark && attempt.prior == state.freshness)
    && (attempt.phase == Checkpointed ==> attempt.todo == [])
    && (attempt.phase != StateRead ==>
          var payload := w.db.jobs[attempt.job].payload;
          attempt.scanned == set row | row in attempt.table
              && InRange(row, attempt.watermark, payload.lookback, payload.end))
  }

  /** Every scanned row is already dominated online or has a later row of its entity still to be written. */
  ghost predicate Progress(online: map<Slot, Row>, view: ViewRef, attempt: Attempt) {
    forall row | row in attempt.scanned ::
      || Dominated(online, view, row)
      || (exists i :: Covers(attempt.todo, i, row))
  }

  ghost predicate WorldInv(w: World) {
    && Inv(w.db)
    && (forall token | token in w.attempts :: AttemptInv(w, token))
    && (forall token | token in w.attempts ::
          Progress(w.online, w.db.jobs[w.attempts[token].job].payload.view, w.attempts[token]))
  }

  lemma UpsertKeepsProgress(online: map<Slot, Row>, view: ViewRef, row: Row, other: ViewRef, attempt: Attempt)
    requires Progress(online, other, attempt)
    ensures Progress(Upserted(online, view, row), other, attempt)
  {
    forall seen | seen in attempt.scanned && Dominated(online, other, seen)
      ensures Dominated(Upserted(online, view, row), other, seen)
    {
      UpsertKeepsDominated(online, view, row, other, seen);
    }
  }

  /** Writing the next latest row covers every scanned row that was waiting for it. */
  lemma UpsertAdvances(online: map<Slot, Row>, view: ViewRef, attempt: Attempt)
    requires Progress(online, view, attempt) && attempt.todo != []
    ensures Progress(Upserted(online, view, attempt.todo[0]), view, attempt.(todo := attempt.todo[1..]))
  {
    var head := attempt.todo[0];
    var online' := Upserted(online, view, head);
    var rest := attempt.(todo := attempt.todo[1..]);
    forall row | row in attempt.scanned
      ensures Dominated(online', view, row)
              || exists i :: Covers(rest.todo, i, row)
    {
      if Dominated(online, view, row) {
        UpsertKeepsDominated(online, view, head, view, row);
      } else {
        var i :| Covers(attempt.todo, i, row);
        if i > 0 {
          assert Covers(rest.todo, i - 1, row);
        } else if online' == online {
          AtMostTransitive(StampOf(row), StampOf(head), StampOf(online[Slot(view, row.entity)]));
        }
      }
    }
  }

  /** A transaction that is not an incremental success keeps what every attempt knows about its job. */
  lemma TransactionKeepsAttempts(cfg: Settings, w: World, op: Op, token: Token)
    requires WorldInv(w) && token in w.attempts && !SucceedsIncremental(w.db, op)
    ensures AttemptInv(w.(db := Step(cfg, w.db, op)), token)
    ensures Step(cfg, w.db, op).jobs[w.attempts[token].job].payload == w.db.jobs[w.attempts[token].job].payload
  {
    var next := w.(db := Step(cfg, w.db, op));
    var id := w.attempts[token].job;
    assert AttemptInv(w, token);
    StepKeepsJob(cfg, w.db, op, id);
    StepKeepsIssued(cfg, w.db, op, token);
    if Current(next, token) && !Current(w, token) {
      DeadStep(cfg, w.db, op, token);
      assert false;
    }
    WatermarkMoves(cfg, w.db, op, w.db.jobs[id].payload.view);
  }

  lemma TransactionKeepsInv(cfg: Settings, w: World, op: Op)
    requires WorldInv(w) && !SucceedsIncremental(w.db, op)
    ensures WorldInv(w.(db := Step(cfg, w.db, op)))
  {
    var next := w.(db := Step(cfg, w.db, op));
    StepKeepsInv(cfg, w.db, op);
    forall token | token in w.attempts
      ensures AttemptInv(next, token)
      ensures Progress(next.online, next.db.jobs[next.attempts[token].job].payload.view, next.attempts[token])
    {
      TransactionKeepsAttempts(cfg, w, op, token);
      assert AttemptInv(w, token);
    }
  }

  lemma WriteKeepsInv(w: World, tables: map<ViewRef, set<Row>>, view: ViewRef, row: Row)
    requires WorldInv(w)
    ensures WorldInv(w.(tables := tables))
    ensures WorldInv(w.(online := Upserted(w.online, view, row)))
  {
    forall token | token in w.attempts
      ensures AttemptInv(w.(tables := tables), token) && AttemptInv(w.(online := Upserted(w.online, view, row)), token)
      ensures Progress(Upserted(w.online, view, row), w.db.jobs[w.attempts[token].job].payload.view, w.attempts[token])
    {
      assert AttemptInv(w, token);
      UpsertKeepsProgress(w.online, view, row, w.db.jobs[w.attempts[token].job].payload.view, w.attempts[token]);
    }
  }

  lemma ReadKeepsInv(cfg: Settings, w: World, a: Action)
    requires WorldInv(w) && (a.ReadState? || a.ScanTable?)
    ensures WorldInv(Act(cfg, w, a))
  {
    var next := Act(cfg, w, a);
    if next != w {
      forall t | t in next.attempts
        ensures AttemptInv(next, t)
        ensures Progress(next.online, next.db.jobs[next.attempts[t].job].payload.view, next.attempts[t])
      {
        assert t in w.attempts ==> AttemptInv(w, t);
      }
    }
  }

  lemma ActKeepsInv(cfg: Settings, w: World, a: Action)
    requires WorldInv(w)
    ensures WorldInv(Act(cfg, w, a))
  {
    if a.ReadState? || a.ScanTable? {
      ReadKeepsInv(cfg, w, a);
    } else if a.Transaction? {
      if !SucceedsIncremental(w.db, a.op) { TransactionKeepsInv(cfg, w, a.op); }
    } else if a.WriteTable? {
      WriteKeepsInv(w, w.tables[a.view := a.rows], a.view, Row("", 0, "", map[]));
    } else if a.WriteOnline? {
      WriteKeepsInv(w, w.tables, a.view, a.row);
    } else if Act(cfg, w, a) != w {
      if a.UpsertNext? {
        UpsertNextKeepsInv(cfg, w, a.token);
      } else if a.CommitCheckpoint? {
        CheckpointKeepsInv(cfg, w, a.token, a.note, a.now);
      } else {
        FinishKeepsInv(cfg, w, a.token, a.freshness, a.now);
      }
    }
  }

  lemma UpsertNextKeepsInv(cfg: Settings, w: World, token: Token)
    requires WorldInv(w) && Act(cfg, w, UpsertNext(token)) != w
    ensures WorldInv(Act(cfg, w, UpsertNext(token)))
  {
    var next := Act(cfg, w, UpsertNext(token));
    var view := w.db.jobs[w.db.issued[token]].payload.view;
    assert AttemptInv(w, token);
    forall t | t in next.attempts
      ensures AttemptInv(next, t)
      ensures Progress(next.online, next.db.jobs[next.attempts[t].job].payload.view, next.attempts[t])
    {
      assert AttemptInv(w, t);
      if t == token {
        UpsertAdvances(w.online, view, w.attempts[t]);
      } else {
        UpsertKeepsProgress(w.online, view, w.attempts[token].todo[0],
                            w.db.jobs[w.attempts[t].job].payload.view, w.attempts[t]);
      }
    }
  }

  lemma CheckpointKeepsInv(cfg: Settings, w: World, token: Token, note: string, now: Time)
    requires WorldInv(w) && Act(cfg, w, CommitCheckpoint(token, note, now)) != w
    ensures WorldInv(Act(cfg, w, CommitCheckpoint(token, note, now)))
  {
    var next := Act(cfg, w, CommitCheckpoint(token, note, now));
    var op := OpCheckpoint(w.attempts[token].job, token, [note], now);
    assert next.db == Step(cfg, w.db, op);
    StepKeepsInv(cfg, w.db, op);
    forall t | t in next.attempts
      ensures AttemptInv(next, t)
      ensures Progress(next.online, next.db.jobs[next.attempts[t].job].payload.view, next.attempts[t])
    {
      TransactionKeepsAttempts(cfg, w, op, t);
      assert AttemptInv(w, t);
    }
  }

  /** The success of one incremental job leaves what any attempt knows about its own job in place. */
  lemma SuccessKeepsAttempt(cfg: Settings, w: World, op: Op, t: Token)
    requires WorldInv(w) && t in w.attempts && SucceedsIncremental(w.db, op) && Owns(w.db, op.id, op.token, op.now)
    ensures AttemptInv(w.(db := Step(cfg, w.db, op)), t)
    ensures Step(cfg, w.db, op).jobs[w.attempts[t].job].payload == w.db.jobs[w.attempts[t].job].payload
  {
    var next := w.(db := Step(cfg, w.db, op));
    var other := w.attempts[t].job;
    var view := w.db.jobs[other].payload.view;
    assert AttemptInv(w, t);
    StepKeepsJob(cfg, w.db, op, other);
    assert ActiveIncremental(w.db, w.db.jobs[op.id].payload.view, op.id);
    if Current(next, t) {
      SuccessEndsLease(cfg, w.db, op, other);
      assert ActiveIncremental(w.db, view, other);
      WatermarkMoves(cfg, w.db, op, view);
    }
  }

  /** A job that still carries its token after a success is another job, and carried it before. */
  lemma SuccessEndsLease(cfg: Settings, db: Database, op: Op, other: JobId)
    requires LeaseInv(db) && op.OpSucceed? && Owns(db, op.id, op.token, op.now) && other in db.jobs
    requires IsIncremental(db.jobs[op.id]) && Reserved(db, db.jobs[op.id].payload.view, op.id)
    requires Step(cfg, db, op).jobs[other].leaseToken.Some?
    ensures other != op.id && Step(cfg, db, op).jobs[other] == db.jobs[other] && IsActive(db.jobs[other].status)
  {
    assert JobLease(db.issued, other, db.jobs[other]);
  }

  lemma FinishKeepsInv(cfg: Settings, w: World, token: Token, freshness: Option<Time>, now: Time)
    requires WorldInv(w) && Act(cfg, w, FinishRun(token, freshness, now)) != w
    ensures WorldInv(Act(cfg, w, FinishRun(token, freshness, now)))
  {
    var next := Act(cfg, w, FinishRun(token, freshness, now));
    var op := OpSucceed(w.attempts[token].job, token, None, freshness, now);
    assert next.db == Step(cfg, w.db, op);
    StepKeepsInv(cfg, w.db, op);
    forall t | t in next.attempts
      ensures AttemptInv(next, t)
      ensures Progress(next.online, next.db.jobs[next.attempts[t].job].payload.view, next.attempts[t])
    {
      assert AttemptInv(w, t);
      SuccessKeepsAttempt(cfg, w, op, t);
      assert AttemptInv(w.(db := next.db), t);
    }
  }

  lemma {:induction false} RunKeepsWorldInv(cfg: Settings, actions: seq<Action>)
    ensures WorldInv(Run(cfg, actions))
  {
    if actions != [] {
      RunKeepsWorldInv(cfg, actions[..|actions| - 1]);
      ActKeepsInv(cfg, Run(cfg, actions[..|actions| - 1]), actions[|actions| - 1]);
    }
  }

  // ---- watermark soundness -------------------------------------------------------------------------

  /** Every row before the watermark that the last successful run's table held is dominated online. */
  ghost predicate WatermarkCovered(w: World) {
    forall view, row | row in CoveredBy(w, view) && StateOf(w.db, view).watermark.Some?
                       && row.at < StateOf(w.db, view).watermark.value ::
      Dominated(w.online, view, row)
  }

  /** The run the action ends succeeds. */
  ghost predicate Finishes(cfg: Settings, w: World, a: Action) {
    a.FinishRun? && Act(cfg, w, a).db != w.db
  }

  /**
   * The lookback assumption, on successful runs only: a row of the scanned table that is older than the
   * watermark less the lookback was already in the table the previous successful run scanned.
   */
  ghost predicate Timely(cfg: Settings, w: World, a: Action) {
    Finishes(cfg, w, a) && a.token in w.attempts && w.attempts[a.token].job in w.db.jobs
    && w.db.jobs[w.attempts[a.token].job].payload.IncrementalPayload? ==>
      var attempt := w.attempts[a.token];
      var payload := w.db.jobs[attempt.job].payload;
      attempt.watermark.Some? ==>
        forall row | row in attempt.table && row.at < attempt.watermark.value - Seconds(payload.lookback) ::
          row in CoveredBy(w, payload.view)
  }

  ghost predicate TimelyRun(cfg: Settings, actions: seq<Action>) {
    forall k | 0 <= k < |actions| :: Timely(cfg, Run(cfg, actions[..k]), actions[k])
  }

  lemma OnlineOnlyGrows(cfg: Settings, w: World, a: Action, view: ViewRef, row: Row)
    requires Dominated(w.online, view, row)
    ensures Dominated(Act(cfg, w, a).online, view, row)
  {
    match a
    case WriteOnline(other, written) => UpsertKeepsDominated(w.online, other, written, view, row);
    case UpsertNext(token) =>
      if Act(cfg, w, a) != w {
        UpsertKeepsDominated(w.online, w.db.jobs[w.db.issued[token]].payload.view, w.attempts[token].todo[0], view,
                             row);
      }
    case _ =>
  }

  /** Watermark and coverage of a view move together, and only when a run of that view finishes. */
  lemma CoverageMoves(cfg: Settings, w: World, a: Action, view: ViewRef)
    requires WorldInv(w) && !Finishes(cfg, w, a)
    ensures StateOf(Act(cfg, w, a).db, view).watermark == StateOf(w.db, view).watermark
    ensures StateOf(Act(cfg, w, a).db, view).freshness == StateOf(w.db, view).freshness
    ensures CoveredBy(Act(cfg, w, a), view) == CoveredBy(w, view)
  {
    if a.Transaction? {
      WatermarkMoves(cfg, w.db, a.op, view);
    } else if a.FinishRun? {
      UnfinishedKeeps(cfg, w, a.token, a.freshness, a.now, view);
    }
  }

  lemma UnfinishedKeeps(cfg: Settings, w: World, token: Token, freshness: Option<Time>, now: Time, view: ViewRef)
    requires WorldInv(w) && !Finishes(cfg, w, FinishRun(token, freshness, now))
    ensures Act(cfg, w, FinishRun(token, freshness, now)).db == w.db
    ensures CoveredBy(Act(cfg, w, FinishRun(token, freshness, now)), view) == CoveredBy(w, view)
  {}

  /** A finishing run covers everything below its cutoff: what it scanned, and below its range what came before. */
  lemma FinishCovers(cfg: Settings, w: World, a: Action)
    requires WorldInv(w) && WatermarkCovered(w) && Finishes(cfg, w, a) && Timely(cfg, w, a)
    ensures WatermarkCovered(Act(cfg, w, a))
  {
    var next := Act(cfg, w, a);
    var attempt := w.attempts[a.token];
    assert AttemptInv(w, a.token) && Current(w, a.token);
    var payload := w.db.jobs[attempt.job].payload;
    var op := OpSucceed(attempt.job, a.token, None, a.freshness, a.now);
    assert next.db == Step(cfg, w.db, op);
    forall view, row | row in CoveredBy(next, view) && StateOf(next.db, view).watermark.Some?
                       && row.at < StateOf(next.db, view).watermark.value
      ensures Dominated(next.online, view, row)
    {
      WatermarkMoves(cfg, w.db, op, view);
      if view == payload.view {
        assert row in attempt.table && row.at < payload.end;
        if row !in attempt.scanned {
          assert attempt.watermark.Some? && row.at < attempt.watermark.value - Seconds(payload.lookback);
          assert row in CoveredBy(w, view);
        } else {
          assert Progress(w.online, view, attempt);
        }
      }
    }
  }

  /**
   * Watermark soundness. In every run whose late arrivals stay within the lookback, however attempts
   * crash, lapse, are cancelled and retried, and whether a retry lowers the watermark or not: every row
   * that the last successful run's table held with a timestamp below the current watermark is dominated
   * by its entity's online entry, from that success on.
   */
  lemma {:induction false} WatermarkSound(cfg: Settings, actions: seq<Action>)
    requires TimelyRun(cfg, actions)
    ensures WatermarkCovered(Run(cfg, actions))
  {
    if actions != [] {
      var n := |actions| - 1;
      var init := actions[..n];
      forall k | 0 <= k < n ensures Timely(cfg, Run(cfg, init[..k]), init[k]) {
        assert init[..k] == actions[..k];
      }
      WatermarkSound(cfg, init);
      RunKeepsWorldInv(cfg, init);
      var w := Run(cfg, init);
      var next := Act(cfg, w, actions[n]);
      if Finishes(cfg, w, actions[n]) {
        FinishCovers(cfg, w, actions[n]);
      } else {
        forall view, row | row in CoveredBy(next, view) && StateOf(next.db, view).watermark.Some?
                           && row.at < StateOf(next.db, view).watermark.value
          ensures Dominated(next.online, view, row)
        {
          CoverageMoves(cfg, w, actions[n], view);
          OnlineOnlyGrows(cfg, w, actions[n], view, row);
        }
      }
    }
  }

  /**
   * The same, read at the moment of a success: every row of the table that run scanned, if it lies below
   * the run's cutoff, is dominated by its entity's online entry when the success commits.
   */
  lemma SuccessCoversItsTable(cfg: Settings, actions: seq<Action>, success: Action, row: Row)
    requires TimelyRun(cfg, actions + [success]) && Finishes(cfg, Run(cfg, actions), success)
    ensures success.token in Run(cfg, actions).attempts
    ensures var w := Run(cfg, actions); var attempt := w.attempts[success.token];
            attempt.job in w.db.jobs && IsIncremental(w.db.jobs[attempt.job])
            && (row in attempt.table && row.at < w.db.jobs[attempt.job].payload.end ==>
                  Dominated(Run(cfg, actions + [success]).online, w.db.jobs[attempt.job].payload.view, row))
  {
    WatermarkSound(cfg, actions + [success]);
    assert (actions + [success])[..|actions|] == actions;
  }

  // ---- source freshness ----------------------------------------------------------------------------

  lemma FreshnessStep(cfg: Settings, w: World, a: Action, view: ViewRef)
    requires WorldInv(w)
    ensures FreshnessAtMost(StateOf(w.db, view).freshness, StateOf(Act(cfg, w, a).db, view).freshness)
  {
    if Finishes(cfg, w, a) {
      assert AttemptInv(w, a.token) && Current(w, a.token);
      var op := OpSucceed(w.attempts[a.token].job, a.token, None, a.freshness, a.now);
      assert Act(cfg, w, a).db == Step(cfg, w.db, op);
      WatermarkMoves(cfg, w.db, op, view);
    } else {
      CoverageMoves(cfg, w, a, view);
    }
  }

  /**
   * The published source freshness of a view never goes down between any two moments of any run, stale
   * attempts and watermark-lowering retries included.
   */
  lemma {:induction false} FreshnessMonotone(cfg: Settings, actions: seq<Action>, k: nat, view: ViewRef)
    requires k <= |actions|
    ensures FreshnessAtMost(StateOf(Run(cfg, actions[..k]).db, view).freshness,
                            StateOf(Run(cfg, actions).db, view).freshness)
  {
    if k < |actions| {
      var init := actions[..|actions| - 1];
      assert init[..k] == actions[..k];
      FreshnessMonotone(cfg, init, k, view);
      RunKeepsWorldInv(cfg, init);
      FreshnessStep(cfg, Run(cfg, init), actions[|actions| - 1], view);
    } else {
      assert actions[..k] == actions;
    }
  }
}
