/** The columns of a job row, state by state, and what they say about when the job may be taken, retried or swept. */
module JobRows {
  import opened Common
  import opened Jobs
  import opened JobInvariants
  import JobProtocol

  // ---- columns by status -------------------------------------------------------------------------------

  predicate Leaseless(job: Job) {
    job.leaseToken.None? && job.leaseExpiresAt.None?
  }

  predicate Unfinished(job: Job) {
    job.finishedAt.None? && job.resultUri.None? && job.artifactExpiresAt.None? && job.artifactsCleanedAt.None?
  }

  /** Only an ended historical query has artifacts that expire, a fixed time after it ended. */
  predicate Finished(cfg: Settings, job: Job) {
    && Leaseless(job) && job.nextAttemptAt.None? && job.finishedAt.Some?
    && job.artifactExpiresAt == (if job.kind == HistoricalQuery
                                 then Some(job.finishedAt.value + Seconds(cfg.resultTtl)) else None)
    && (job.artifactsCleanedAt.Some? ==> job.kind == HistoricalQuery)
    && (job.resultUri.Some? ==> job.status == Succeeded)
  }

  /** What every column holds, by status. */
  predicate Columns(cfg: Settings, job: Job) {
    && job.maxAttempts == cfg.maxAttempts && job.attempts <= job.maxAttempts
    && match job.status
       case Pending =>
         Unfinished(job) && Leaseless(job) && job.nextAttemptAt.None? && job.failureKind.None? && job.attempts == 0
       case Running =>
         && Unfinished(job) && job.leaseToken.Some? && job.leaseExpiresAt.Some? && job.nextAttemptAt.None?
         && job.attempts >= 1 && job.failureKind != Some(Terminal)
         && (job.attempts == 1 ==> job.failureKind.None?)
       case Retrying =>
         && Unfinished(job) && Leaseless(job) && job.nextAttemptAt.Some? && job.failureKind == Some(Retryable)
         && 1 <= job.attempts < job.maxAttempts
       case Succeeded => Finished(cfg, job) && job.failureKind.None?
       case Failed => Finished(cfg, job) && job.failureKind == Some(Terminal) && job.attempts >= 1
       case Exhausted =>
         && Finished(cfg, job) && job.attempts == job.maxAttempts
         && (job.failureKind == Some(Retryable) || job.failureKind == Some(LeaseExpired))
       case Cancelled => Finished(cfg, job) && job.failureKind != Some(Terminal)
  }

  lemma CreatedColumns(cfg: Settings, db: Database, op: Op, id: JobId)
    requires Target(op) == Some(id) && id !in db.jobs && id in Step(cfg, db, op).jobs
    ensures Columns(cfg, Step(cfg, db, op).jobs[id])
  {}

  lemma ClaimColumns(cfg: Settings, db: Database, op: Op, id: JobId)
    requires (op.OpClaim? || op.OpExhaust? || op.OpCancel? || op.OpRetry?) && op.id == id
    requires id in db.jobs && Columns(cfg, db.jobs[id])
    ensures id in Step(cfg, db, op).jobs && Columns(cfg, Step(cfg, db, op).jobs[id])
  {}

  lemma WorkerColumns(cfg: Settings, db: Database, op: Op, id: JobId)
    requires !op.OpClaim? && !op.OpExhaust? && !op.OpCancel? && !op.OpRetry? && Target(op) == Some(id)
    requires id in db.jobs && Columns(cfg, db.jobs[id])
    ensures id in Step(cfg, db, op).jobs && Columns(cfg, Step(cfg, db, op).jobs[id])
  {}

  lemma TargetColumns(cfg: Settings, db: Database, op: Op, id: JobId)
    requires Target(op) == Some(id) && id in Step(cfg, db, op).jobs
    requires id in db.jobs ==> Columns(cfg, db.jobs[id])
    ensures Columns(cfg, Step(cfg, db, op).jobs[id])
  {
    if id !in db.jobs {
      CreatedColumns(cfg, db, op, id);
    } else if op.OpClaim? || op.OpExhaust? || op.OpCancel? || op.OpRetry? {
      ClaimColumns(cfg, db, op, id);
    } else {
      WorkerColumns(cfg, db, op, id);
    }
  }

  ghost predicate AllColumns(cfg: Settings, db: Database) {
    forall id | id in db.jobs :: Columns(cfg, db.jobs[id])
  }

  lemma ColumnsStep(cfg: Settings, db: Database, op: Op)
    requires AllColumns(cfg, db)
    ensures AllColumns(cfg, Step(cfg, db, op))
  {
    forall id | id in Step(cfg, db, op).jobs ensures Columns(cfg, Step(cfg, db, op).jobs[id]) {
      if Target(op) == Some(id) { TargetColumns(cfg, db, op, id); } else { StepFrame(cfg, db, op, id); }
    }
  }

  /** In every reachable state every column of every job is what its status says. */
  lemma {:induction false} ReachedColumns(cfg: Settings, ops: seq<Op>)
    ensures AllColumns(cfg, JobProtocol.Reached(cfg, ops))
  {
    if ops != [] {
      ReachedColumns(cfg, ops[..|ops| - 1]);
      ColumnsStep(cfg, JobProtocol.Reached(cfg, ops[..|ops| - 1]), ops[|ops| - 1]);
    }
  }

  /**
   * What may move in a row: never its creation time; its checkpoints only by a checkpoint of the job itself, so
   * they survive crashes, failures, reclaiming and retries; its attempts only by a claim, which adds one, and by
   * a retry, which starts over.
   */
  lemma RowMoves(cfg: Settings, db: Database, op: Op, id: JobId)
    requires id in db.jobs
    ensures var before := db.jobs[id];
            && id in Step(cfg, db, op).jobs
            && var after := Step(cfg, db, op).jobs[id];
               && after.createdAt == before.createdAt
               && (after.checkpoints == before.checkpoints
                   || (op.OpCheckpoint? && op.id == id && after.checkpoints == op.checkpoints))
               && (after.attempts == before.attempts
                   || (op.OpClaim? && op.id == id && after.attempts == before.attempts + 1)
                   || (op.OpRetry? && op.id == id && after.attempts == 0))
  {
    if Target(op) != Some(id) { StepFrame(cfg, db, op, id); }
  }

  // ---- creating ----------------------------------------------------------------------------------------

  /** Creating a ranged job or a historical query adds one pending row with what was asked, and changes nothing else. */
  lemma CreationAddsOneRow(cfg: Settings, db: Database, op: Op)
    requires (op.OpCreate? && (op.kind == Backfill || op.kind == Materialize) && op.start < op.end)
             || op.OpCreateHistorical?
    requires op.id !in db.jobs
    ensures var next := Step(cfg, db, op);
            && next.jobs.Keys == db.jobs.Keys + {op.id}
            && (forall other | other in db.jobs :: next.jobs[other] == db.jobs[other])
            && next.states == db.states && next.ledger == db.ledger && next.issued == db.issued
            && Columns(cfg, next.jobs[op.id]) && next.jobs[op.id].status == Pending
            && next.jobs[op.id].checkpoints == [] && next.jobs[op.id].createdAt == op.now
            && (op.OpCreate? ==>
                  next.jobs[op.id].kind == op.kind
                  && next.jobs[op.id].payload == RangePayload(op.view, op.start, op.end))
            && (op.OpCreateHistorical? ==>
                  next.jobs[op.id].kind == HistoricalQuery
                  && next.jobs[op.id].payload == HistoricalPayload(op.observations))
  {}

  // ---- creating incremental jobs, and retrying -----------------------------------------------------------

  /**
   * What creating an incremental materialization answers, and with what: the active job of the view if there is
   * one, a refusal if the cutoff is before the watermark, and otherwise a pending job with the requested cutoff
   * and lookback or the defaults, which now holds the view.
   */
  lemma CreationExactly(cfg: Settings, db: Database, id: JobId, view: ViewRef, end: Option<Time>,
                        lookback: Option<nat>, now: Time)
    requires Inv(db) && id !in db.jobs
    ensures var tx := CreateIncremental(cfg, db, id, view, end, lookback, now);
            var cutoff := if end.Some? then end.value else now;
            var free := forall other :: !ActiveIncremental(db, view, other);
            var watermark := if view in db.states then db.states[view].watermark else None;
            && (forall other :: tx.reply == Existing(other) <==> ActiveIncremental(db, view, other))
            && (tx.reply == Refused <==> free && watermark.Some? && cutoff < watermark.value)
            && (tx.reply == Accepted <==> free && (watermark.Some? ==> watermark.value <= cutoff))
            && (tx.reply != Accepted ==> tx.db == db)
            && (tx.reply == Accepted ==>
                  && tx.db.jobs.Keys == db.jobs.Keys + {id}
                  && tx.db.jobs[id].kind == Materialize && tx.db.jobs[id].status == Pending
                  && tx.db.jobs[id].payload.IncrementalPayload? && tx.db.jobs[id].payload.view == view
                  && tx.db.jobs[id].payload.end == cutoff
                  && tx.db.jobs[id].payload.lookback == (if lookback.Some? then lookback.value else cfg.lookback)
                  && view in tx.db.states && tx.db.states[view].active == Some(id)
                  && tx.db.states[view].watermark == watermark)
  {
    var tx := CreateIncremental(cfg, db, id, view, end, lookback, now);
    forall other ensures Reserved(db, view, other) <==> ActiveIncremental(db, view, other) {}
    if view in db.states && db.states[view].active.Some? {
      assert Reserved(db, view, db.states[view].active.value);
    }
  }

  /**
   * The update of a retry, exactly: it goes through for an ended job that has not succeeded, unless another
   * incremental job of its view is active.
   */
  lemma RetryExactly(cfg: Settings, db: Database, id: JobId)
    requires Inv(db)
    ensures Retry(cfg, db, id).reply == Accepted <==>
              && id in db.jobs
              && (db.jobs[id].status == Failed || db.jobs[id].status == Exhausted || db.jobs[id].status == Cancelled)
              && (IsIncremental(db.jobs[id]) ==>
                    forall other :: !ActiveIncremental(db, db.jobs[id].payload.view, other))
    ensures Retry(cfg, db, id).reply != Accepted ==> Retry(cfg, db, id).db == db
  {
    if id in db.jobs && IsIncremental(db.jobs[id]) {
      var view := db.jobs[id].payload.view;
      forall other ensures Reserved(db, view, other) <==> ActiveIncremental(db, view, other) {}
      if view in db.states && db.states[view].active.Some? {
        assert Reserved(db, view, db.states[view].active.value);
      }
    }
  }

  /**
   * A retried job is as good as new: in every column it is the row that creating it would give now, except that
   * it keeps its creation time and its checkpoints, so it resumes where it got to and keeps its place in line.
   */
  lemma RetriedIsNew(cfg: Settings, ops: seq<Op>, id: JobId)
    requires Retry(cfg, JobProtocol.Reached(cfg, ops), id).reply == Accepted
    ensures var db := JobProtocol.Reached(cfg, ops);
            id in db.jobs && Retry(cfg, db, id).db.jobs[id]
                             == NewJob(cfg, db.jobs[id].kind, db.jobs[id].payload, db.jobs[id].createdAt)
                                .(checkpoints := db.jobs[id].checkpoints)
  {
    ReachedColumns(cfg, ops + [OpRetry(id)]);
    assert (ops + [OpRetry(id)])[..|ops|] == ops;
  }

  // ---- leases and claims -------------------------------------------------------------------------------

  /** A claim query at this clock would take the job: lease it, or end it because its budget is spent. */
  predicate TakenAt(cfg: Settings, db: Database, id: JobId, unused: Token, t: Time) {
    Step(cfg, db, OpClaim(id, unused, t)) != db || Step(cfg, db, OpExhaust(id, t)) != db
  }

  /**
   * At any clock, a running job either still belongs to its worker or is there to be taken, and never both: the
   * worker's update goes through exactly when no claim query takes the job.
   */
  lemma OwnedOrTaken(cfg: Settings, db: Database, id: JobId, unused: Token, note: string, t: Time)
    requires Inv(db) && id in db.jobs && db.jobs[id].leaseToken.Some? && unused !in db.issued
    ensures var token := db.jobs[id].leaseToken.value;
            && (TakenAt(cfg, db, id, unused, t) <==> Heartbeat(cfg, db, id, token, t).reply == LeaseLost)
            && (TakenAt(cfg, db, id, unused, t) <==> Checkpoint(db, id, token, [note], t).reply == LeaseLost)
            && (TakenAt(cfg, db, id, unused, t) <==> Succeed(cfg, db, id, token, None, None, t).reply == LeaseLost)
            && (TakenAt(cfg, db, id, unused, t) <==> Fail(cfg, db, id, token, false, t).reply == LeaseLost)
  {
    assert JobLease(db.issued, id, db.jobs[id]);
    TakenExactly(cfg, db, id, unused, t);
  }

  /** The jobs a claim query takes: pending ones, retrying ones that are due, running ones whose lease is over. */
  lemma TakenExactly(cfg: Settings, db: Database, id: JobId, unused: Token, t: Time)
    requires LeaseInv(db) && id in db.jobs && unused !in db.issued
    ensures TakenAt(cfg, db, id, unused, t) <==>
              var job := db.jobs[id];
              || job.status == Pending
              || (job.status == Retrying && (job.nextAttemptAt.Some? ==> job.nextAttemptAt.value <= t))
              || (job.status == Running && (job.leaseExpiresAt.Some? ==> job.leaseExpiresAt.value <= t))
  {
    var job := db.jobs[id];
    if Eligible(job, t) {
      if OverBudget(job) {
        assert Exhaust(cfg, db, id, t).jobs[id].status == Exhausted;
      } else {
        assert Claim(cfg, db, id, unused, t).issued[unused] == id;
      }
    }
  }

  lemma {:induction false} UntouchedStays(cfg: Settings, db: Database, ops: seq<Op>, id: JobId)
    requires id in db.jobs && forall k | 0 <= k < |ops| :: Target(ops[k]) != Some(id)
    ensures id in After(cfg, db, ops).jobs && After(cfg, db, ops).jobs[id] == db.jobs[id]
  {
    if ops != [] {
      UntouchedStays(cfg, db, ops[..|ops| - 1], id);
      StepFrame(cfg, After(cfg, db, ops[..|ops| - 1]), ops[|ops| - 1], id);
    }
  }

  /** The base delay, doubled n times. */
  function Doubled(base: nat, n: nat): nat
    decreases n
  {
    if n == 0 then base else Doubled(2 * base, n - 1)
  }

  lemma {:induction false} DoubledIsPower(base: nat, n: nat)
    ensures Doubled(base, n) == base * Pow2(n)
    decreases n
  {
    if n > 0 { DoubledIsPower(2 * base, n - 1); }
  }

  /**
   * Backoff: a job whose attempt failed and may be tried again is claimed at a later clock exactly once the
   * delay has passed, that is the base delay doubled for every earlier attempt, up to the cap, whatever happens
   * to other jobs meanwhile.
   */
  lemma BackoffDelaysClaims(cfg: Settings, db: Database, id: JobId, token: Token, now: Time, later: seq<Op>,
                            unused: Token, t: Time)
    requires Inv(db) && Fail(cfg, db, id, token, false, now).reply == Accepted
    requires db.jobs[id].attempts < db.jobs[id].maxAttempts
    requires forall k | 0 <= k < |later| :: Target(later[k]) != Some(id)
    requires unused !in After(cfg, Fail(cfg, db, id, token, false, now).db, later).issued
    ensures var waiting := After(cfg, Fail(cfg, db, id, token, false, now).db, later);
            var raw := Doubled(cfg.retryBase, db.jobs[id].attempts - 1);
            var due := now + Seconds(if raw <= cfg.retryMax then raw else cfg.retryMax);
            && id in waiting.jobs && waiting.jobs[id].status == Retrying
            && (Step(cfg, waiting, OpClaim(id, unused, t)).jobs[id].status == Running <==> t >= due)
  {
    assert JobBudget(db.jobs[id]);
    WaitsFor(cfg, db, id, token, now);
    UntouchedStays(cfg, Fail(cfg, db, id, token, false, now).db, later, id);
    WaitingIsClaimed(cfg, After(cfg, Fail(cfg, db, id, token, false, now).db, later), id, unused, t);
  }

  lemma WaitsFor(cfg: Settings, db: Database, id: JobId, token: Token, now: Time)
    requires Fail(cfg, db, id, token, false, now).reply == Accepted
    requires 1 <= db.jobs[id].attempts < db.jobs[id].maxAttempts
    ensures var raw := Doubled(cfg.retryBase, db.jobs[id].attempts - 1);
            var job := Fail(cfg, db, id, token, false, now).db.jobs[id];
            && job.status == Retrying && job.attempts < job.maxAttempts
            && job.nextAttemptAt == Some(now + Seconds(if raw <= cfg.retryMax then raw else cfg.retryMax))
  {
    DoubledIsPower(cfg.retryBase, db.jobs[id].attempts - 1);
  }

  lemma WaitingIsClaimed(cfg: Settings, db: Database, id: JobId, unused: Token, t: Time)
    requires id in db.jobs && db.jobs[id].status == Retrying && db.jobs[id].attempts < db.jobs[id].maxAttempts
    requires db.jobs[id].nextAttemptAt.Some? && unused !in db.issued
    ensures var next := Step(cfg, db, OpClaim(id, unused, t));
            id in next.jobs && (next.jobs[id].status == Running <==> t >= db.jobs[id].nextAttemptAt.value)
  {}

  // ---- retention ---------------------------------------------------------------------------------------

  /**
   * The retention window: once a historical query has ended, whether it succeeded, failed, was exhausted or
   * cancelled, its artifacts are swept exactly at clocks a fixed time or more after its end; before that, and only
   * then, one that did not succeed may be retried.
   */
  lemma RetentionWindow(cfg: Settings, ops: seq<Op>, id: JobId, t: Time)
    requires var db := JobProtocol.Reached(cfg, ops);
             id in db.jobs && db.jobs[id].kind == HistoricalQuery && db.jobs[id].finishedAt.Some?
             && db.jobs[id].artifactsCleanedAt.None?
    ensures var db := JobProtocol.Reached(cfg, ops);
            var expiry := db.jobs[id].finishedAt.value + Seconds(cfg.resultTtl);
            && (Step(cfg, db, OpClean(id, t)) != db <==> t >= expiry)
            && (MayRetry(db.jobs[id], t) <==> t < expiry && db.jobs[id].status != Succeeded)
  {
    ReachedColumns(cfg, ops);
    JobProtocol.ReachedInv(cfg, ops);
    var db := JobProtocol.Reached(cfg, ops);
    assert Columns(cfg, db.jobs[id]) && JobBudget(db.jobs[id]);
    if Cleanable(db.jobs[id], t) { assert Clean(db, id, t).jobs[id].artifactsCleanedAt == Some(t); }
  }

  /** A swept job is swept once, and may not be retried. */
  lemma SweptIsFinal(cfg: Settings, db: Database, id: JobId, t: Time, later: Time)
    requires id in db.jobs && Step(cfg, db, OpClean(id, t)) != db
    ensures var next := Step(cfg, db, OpClean(id, t));
            && id in next.jobs && Step(cfg, next, OpClean(id, later)) == next && !MayRetry(next.jobs[id], later)
  {}
}
