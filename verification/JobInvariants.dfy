/** What every run of the job service keeps: leases, budgets, reservations and the ledger. */
module JobInvariants {
  import opened Common
  import opened Jobs

  // ---- one step at a time ------------------------------------------------------------------------

  /** The only job row a transaction may change. */
  function Target(op: Op): Option<JobId> {
    if op.OpRegister? then None else Some(op.id)
  }

  lemma StepFrame(cfg: Settings, db: Database, op: Op, id: JobId)
    requires Target(op) != Some(id)
    ensures id in Step(cfg, db, op).jobs <==> id in db.jobs
    ensures id in db.jobs ==> Step(cfg, db, op).jobs[id] == db.jobs[id]
  {}

  lemma TargetKeepsKind(cfg: Settings, db: Database, op: Op, id: JobId)
    requires Target(op) == Some(id) && id in db.jobs
    ensures id in Step(cfg, db, op).jobs
    ensures Step(cfg, db, op).jobs[id].kind == db.jobs[id].kind
    ensures Step(cfg, db, op).jobs[id].payload == db.jobs[id].payload
  {}

  lemma TargetKeepsSuccess(cfg: Settings, db: Database, op: Op, id: JobId)
    requires Target(op) == Some(id) && id in db.jobs && id in Step(cfg, db, op).jobs
    ensures db.jobs[id].status == Succeeded ==> Step(cfg, db, op).jobs[id].status == Succeeded
    ensures Step(cfg, db, op).jobs[id].status == Succeeded ==> db.jobs[id].status == Succeeded || op.OpSucceed?
  {}

  /** Jobs are never deleted, keep their kind and payload, and never leave `succeeded`. */
  lemma StepKeepsJob(cfg: Settings, db: Database, op: Op, id: JobId)
    requires id in db.jobs
    ensures id in Step(cfg, db, op).jobs
    ensures Step(cfg, db, op).jobs[id].kind == db.jobs[id].kind
    ensures Step(cfg, db, op).jobs[id].payload == db.jobs[id].payload
    ensures db.jobs[id].status == Succeeded ==> Step(cfg, db, op).jobs[id].status == Succeeded
    ensures Step(cfg, db, op).jobs[id].status == Succeeded ==> db.jobs[id].status == Succeeded || op.OpSucceed?
  {
    if Target(op) == Some(id) {
      TargetKeepsKind(cfg, db, op, id);
      TargetKeepsSuccess(cfg, db, op, id);
    } else { StepFrame(cfg, db, op, id); }
  }

  lemma StepKeepsIssued(cfg: Settings, db: Database, op: Op, token: Token)
    requires token in db.issued
    ensures token in Step(cfg, db, op).issued && Step(cfg, db, op).issued[token] == db.issued[token]
  {}

  // ---- leases ----------------------------------------------------------------------------------

  /** A job runs exactly when it carries a token, and a token is only ever carried by the job it was issued for. */
  ghost predicate JobLease(issued: map<Token, JobId>, id: JobId, job: Job) {
    && (job.status == Running <==> job.leaseToken.Some?)
    && (job.status == Running ==> job.leaseExpiresAt.Some?)
    && (job.leaseToken.Some? ==> job.leaseToken.value in issued && issued[job.leaseToken.value] == id)
  }

  ghost predicate LeaseInv(db: Database) {
    forall id | id in db.jobs :: JobLease(db.issued, id, db.jobs[id])
  }

  /** The token was issued once and no job carries it any more. */
  ghost predicate TokenDead(db: Database, token: Token) {
    token in db.issued && forall id | id in db.jobs :: db.jobs[id].leaseToken != Some(token)
  }

  /** A step leaves the token of the row it changes alone, clears it, or replaces it by a fresh one. */
  lemma TargetLease(cfg: Settings, db: Database, op: Op, id: JobId)
    requires Target(op) == Some(id) && id in Step(cfg, db, op).jobs
    requires id in db.jobs ==> JobLease(db.issued, id, db.jobs[id])
    ensures JobLease(Step(cfg, db, op).issued, id, Step(cfg, db, op).jobs[id])
    ensures var token := Step(cfg, db, op).jobs[id].leaseToken;
            token.None? || token.value !in db.issued || (id in db.jobs && token == db.jobs[id].leaseToken)
  {}

  lemma LeaseStep(cfg: Settings, db: Database, op: Op)
    requires LeaseInv(db)
    ensures LeaseInv(Step(cfg, db, op))
  {
    var next := Step(cfg, db, op);
    forall id | id in next.jobs ensures JobLease(next.issued, id, next.jobs[id]) {
      if Target(op) == Some(id) {
        TargetLease(cfg, db, op, id);
      } else {
        StepFrame(cfg, db, op, id);
        if db.jobs[id].leaseToken.Some? { StepKeepsIssued(cfg, db, op, db.jobs[id].leaseToken.value); }
      }
    }
  }

  lemma DeadStep(cfg: Settings, db: Database, op: Op, token: Token)
    requires LeaseInv(db) && TokenDead(db, token)
    ensures TokenDead(Step(cfg, db, op), token)
  {
    var next := Step(cfg, db, op);
    StepKeepsIssued(cfg, db, op, token);
    forall id | id in next.jobs ensures next.jobs[id].leaseToken != Some(token) {
      if Target(op) == Some(id) { TargetLease(cfg, db, op, id); } else { StepFrame(cfg, db, op, id); }
    }
  }

  // ---- budgets ---------------------------------------------------------------------------------

  /** The snapshotted budget is never exceeded, and a job waiting for a retry has budget left. */
  ghost predicate JobBudget(job: Job) {
    && job.attempts <= job.maxAttempts
    && (job.status == Retrying ==> job.attempts < job.maxAttempts)
    && (job.status == Running ==> job.attempts >= 1)
    && (job.finishedAt.Some? <==> !IsActive(job.status))
  }

  ghost predicate BudgetInv(db: Database) {
    forall id | id in db.jobs :: JobBudget(db.jobs[id])
  }

  lemma TargetBudget(cfg: Settings, db: Database, op: Op, id: JobId)
    requires Target(op) == Some(id) && id in Step(cfg, db, op).jobs
    requires id in db.jobs ==> JobBudget(db.jobs[id])
    ensures JobBudget(Step(cfg, db, op).jobs[id])
  {}

  lemma BudgetStep(cfg: Settings, db: Database, op: Op)
    requires BudgetInv(db)
    ensures BudgetInv(Step(cfg, db, op))
  {
    var next := Step(cfg, db, op);
    forall id | id in next.jobs ensures JobBudget(next.jobs[id]) {
      if Target(op) == Some(id) { TargetBudget(cfg, db, op, id); } else { StepFrame(cfg, db, op, id); }
    }
  }

  // ---- reservations ----------------------------------------------------------------------------

  ghost predicate Reserved(db: Database, view: ViewRef, id: JobId) {
    view in db.states && db.states[view].active == Some(id)
  }

  ghost predicate ActiveIncremental(db: Database, view: ViewRef, id: JobId) {
    id in db.jobs && IsIncremental(db.jobs[id]) && db.jobs[id].payload.view == view && IsActive(db.jobs[id].status)
  }

  ghost predicate ReservationInv(db: Database) {
    forall view, id :: Reserved(db, view, id) <==> ActiveIncremental(db, view, id)
  }

  /** A step that changes no reservation and no job's activity. */
  lemma QuietReservation(db: Database, next: Database)
    requires ReservationInv(db)
    requires forall view, id :: Reserved(next, view, id) <==> Reserved(db, view, id)
    requires forall view, id :: ActiveIncremental(next, view, id) <==> ActiveIncremental(db, view, id)
    ensures ReservationInv(next)
  {}

  /** A job that leaves the active states gives up exactly its own reservation. */
  lemma ReleaseReservation(db: Database, next: Database, id: JobId)
    requires ReservationInv(db) && id in db.jobs && id in next.jobs
    requires next.jobs == db.jobs[id := next.jobs[id]] && next.states == Released(db, id, db.jobs[id])
    requires next.jobs[id].kind == db.jobs[id].kind && next.jobs[id].payload == db.jobs[id].payload
    requires IsActive(db.jobs[id].status) && !IsActive(next.jobs[id].status)
    ensures ReservationInv(next)
  {
    forall view, other ensures Reserved(next, view, other) <==> ActiveIncremental(next, view, other) {
      assert Reserved(db, view, other) <==> ActiveIncremental(db, view, other);
      if IsIncremental(db.jobs[id]) {
        assert Reserved(db, db.jobs[id].payload.view, id) <==> ActiveIncremental(db, db.jobs[id].payload.view, id);
      }
    }
  }

  /** A job that becomes active takes a reservation nobody active holds. */
  lemma TakeReservation(db: Database, next: Database, id: JobId, view: ViewRef)
    requires ReservationInv(db) && id in next.jobs
    requires next.jobs == db.jobs[id := next.jobs[id]]
    requires ActiveIncremental(next, view, id)
    requires id in db.jobs ==> !IsActive(db.jobs[id].status)
    requires forall other :: !Reserved(db, view, other) || other == id
    requires view in next.states && next.states == db.states[view := next.states[view]]
    requires next.states[view].active == Some(id)
    ensures ReservationInv(next)
  {
    forall v, other ensures Reserved(next, v, other) <==> ActiveIncremental(next, v, other) {
      assert Reserved(db, v, other) <==> ActiveIncremental(db, v, other);
      assert Reserved(db, v, id) <==> ActiveIncremental(db, v, id);
    }
  }

  lemma CreateIncrementalReservation(cfg: Settings, db: Database, id: JobId, view: ViewRef,
                                     end: Option<Time>, lookback: Option<nat>, now: Time)
    requires ReservationInv(db) && id !in db.jobs
    ensures ReservationInv(CreateIncremental(cfg, db, id, view, end, lookback, now).db)
  {
    var tx := CreateIncremental(cfg, db, id, view, end, lookback, now);
    if tx.reply == Accepted {
      forall other ensures !Reserved(db, view, other) {
        assert Reserved(db, view, other) <==> ActiveIncremental(db, view, other);
      }
      TakeReservation(db, tx.db, id, view);
    }
  }

  lemma RetryReservation(cfg: Settings, db: Database, id: JobId)
    requires ReservationInv(db)
    ensures ReservationInv(Retry(cfg, db, id).db)
  {
    var tx := Retry(cfg, db, id);
    if tx.reply == Accepted {
      if IsIncremental(db.jobs[id]) {
        var view := db.jobs[id].payload.view;
        forall other ensures !Reserved(db, view, other) || other == id {
          assert Reserved(db, view, other) <==> ActiveIncremental(db, view, other);
        }
        TakeReservation(db, tx.db, id, view);
      } else {
        QuietReservation(db, tx.db);
      }
    }
  }

  lemma SucceedReservation(cfg: Settings, db: Database, id: JobId, token: Token,
                           resultUri: Option<Uri>, freshness: Option<Time>, now: Time)
    requires ReservationInv(db)
    ensures ReservationInv(Succeed(cfg, db, id, token, resultUri, freshness, now).db)
    ensures Succeed(cfg, db, id, token, resultUri, freshness, now).reply != ReservationLost
  {
    var tx := Succeed(cfg, db, id, token, resultUri, freshness, now);
    if Owns(db, id, token, now) {
      if IsIncremental(db.jobs[id]) {
        var view := db.jobs[id].payload.view;
        assert Reserved(db, view, id) <==> ActiveIncremental(db, view, id);
        forall v, other ensures Reserved(tx.db, v, other) <==> ActiveIncremental(tx.db, v, other) {
          assert Reserved(db, v, other) <==> ActiveIncremental(db, v, other);
        }
      } else {
        QuietReservation(db, tx.db);
      }
    }
  }

  lemma FailReservation(cfg: Settings, db: Database, id: JobId, token: Token, terminal: bool, now: Time)
    requires ReservationInv(db)
    ensures ReservationInv(Fail(cfg, db, id, token, terminal, now).db)
  {
    var tx := Fail(cfg, db, id, token, terminal, now);
    if Owns(db, id, token, now) {
      if tx.db.jobs[id].status == Retrying {
        QuietReservation(db, tx.db);
      } else {
        ReleaseReservation(db, tx.db, id);
      }
    }
  }

  /** The transactions that never touch a reservation. */
  ghost predicate Quiet(op: Op) {
    !(op.OpCreateIncremental? || op.OpCancel? || op.OpRetry? || op.OpExhaust? || op.OpSucceed? || op.OpFail?)
  }

  lemma QuietStep(cfg: Settings, db: Database, op: Op)
    requires Quiet(op)
    ensures Step(cfg, db, op).states == db.states
    ensures forall view, id :: ActiveIncremental(Step(cfg, db, op), view, id) <==> ActiveIncremental(db, view, id)
  {}

  lemma ReservationStep(cfg: Settings, db: Database, op: Op)
    requires ReservationInv(db)
    ensures ReservationInv(Step(cfg, db, op))
  {
    var next := Step(cfg, db, op);
    if Quiet(op) {
      QuietStep(cfg, db, op);
      QuietReservation(db, next);
    } else if op.OpCreateIncremental? {
      if op.id !in db.jobs {
        CreateIncrementalReservation(cfg, db, op.id, op.view, op.cutoff, op.lookback, op.now);
      }
    } else if op.OpRetry? {
      RetryReservation(cfg, db, op.id);
    } else if op.OpSucceed? {
      SucceedReservation(cfg, db, op.id, op.token, op.resultUri, op.freshness, op.now);
    } else if op.OpFail? {
      FailReservation(cfg, db, op.id, op.token, op.terminal, op.now);
    } else if next != db {
      ReleaseReservation(db, next, op.id);
    }
  }

  // ---- ledger ----------------------------------------------------------------------------------

  ghost predicate RecordInv(db: Database, key: EventKey)
    requires key in db.ledger
  {
    var record := db.ledger[key];
    match record.state
    case EventPending => record.job.None?
    case _ =>
      && record.job.Some? && record.job.value in db.jobs
      && db.jobs[record.job.value].kind == OfflineAppend
      && db.jobs[record.job.value].payload.AppendPayload?
      && db.jobs[record.job.value].payload.view == key.view
      && (record.state == EventApplied <==> db.jobs[record.job.value].status == Succeeded)
  }

  ghost predicate LedgerInv(db: Database) {
    forall key | key in db.ledger :: RecordInv(db, key)
  }

  lemma SucceedLedger(cfg: Settings, db: Database, id: JobId, token: Token,
                      resultUri: Option<Uri>, freshness: Option<Time>, now: Time)
    requires LedgerInv(db)
    ensures LedgerInv(Succeed(cfg, db, id, token, resultUri, freshness, now).db)
  {
    var next := Succeed(cfg, db, id, token, resultUri, freshness, now).db;
    forall key | key in next.ledger ensures RecordInv(next, key) {
      assert RecordInv(db, key);
    }
  }

  lemma StageLedger(cfg: Settings, db: Database, op: Op)
    requires LedgerInv(db) && op.OpStage?
    ensures LedgerInv(Step(cfg, db, op))
  {
    var next := Step(cfg, db, op);
    forall key | key in next.ledger ensures RecordInv(next, key) {
      assert RecordInv(db, key);
    }
  }

  lemma LedgerStep(cfg: Settings, db: Database, op: Op)
    requires LedgerInv(db)
    ensures LedgerInv(Step(cfg, db, op))
  {
    var next := Step(cfg, db, op);
    if op.OpSucceed? {
      SucceedLedger(cfg, db, op.id, op.token, op.resultUri, op.freshness, op.now);
    } else if op.OpStage? {
      StageLedger(cfg, db, op);
    } else {
      forall key | key in next.ledger ensures RecordInv(next, key) {
        if key in db.ledger {
          assert RecordInv(db, key) && next.ledger[key] == db.ledger[key];
          if db.ledger[key].job.Some? { StepKeepsJob(cfg, db, op, db.ledger[key].job.value); }
        }
      }
    }
  }

  // ---- all together ----------------------------------------------------------------------------

  ghost predicate Inv(db: Database) {
    LeaseInv(db) && BudgetInv(db) && ReservationInv(db) && LedgerInv(db)
  }

  lemma StepKeepsInv(cfg: Settings, db: Database, op: Op)
    requires Inv(db)
    ensures Inv(Step(cfg, db, op))
  {
    LeaseStep(cfg, db, op);
    BudgetStep(cfg, db, op);
    ReservationStep(cfg, db, op);
    LedgerStep(cfg, db, op);
  }

  lemma {:induction false} RunKeepsInv(cfg: Settings, db: Database, ops: seq<Op>)
    requires Inv(db)
    ensures Inv(After(cfg, db, ops))
  {
    if ops != [] {
      var init := ops[..|ops| - 1];
      RunKeepsInv(cfg, db, init);
      StepKeepsInv(cfg, After(cfg, db, init), ops[|ops| - 1]);
    }
  }
}
