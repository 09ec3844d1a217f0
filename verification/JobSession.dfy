/**
 * The job service and the executor's transactions, as methods that update the rows in place. Every method
 * keeps the invariants of the protocol and says, besides the transaction it is, what its caller may rely on.
 */
module JobSession {
  import opened Common
  import opened Jobs
  import opened JobInvariants
  import opened Scheduling
  import JobProtocol

  /** The job holds no reservation of any view. */
  ghost predicate Unreserved(db: Database, id: JobId) {
    forall view :: !Reserved(db, view, id)
  }

  /** A job that has been given another token, or none, leaves its old token dead. */
  lemma TokenDies(before: Database, after: Database, id: JobId, token: Token)
    requires LeaseInv(before) && LeaseInv(after) && id in before.jobs && before.jobs[id].leaseToken == Some(token)
    requires token in after.issued && after.issued[token] == id
    requires id in after.jobs && after.jobs[id].leaseToken != Some(token)
    ensures TokenDead(after, token)
  {
    forall other | other in after.jobs ensures after.jobs[other].leaseToken != Some(token) {
      assert JobLease(after.issued, other, after.jobs[other]);
    }
  }

  /** The token a step takes from the job it changes is dead afterwards. */
  lemma StepEndsToken(cfg: Settings, db: Database, op: Op, id: JobId, token: Token)
    requires Inv(db) && id in db.jobs && db.jobs[id].leaseToken == Some(token)
    requires id in Step(cfg, db, op).jobs && Step(cfg, db, op).jobs[id].leaseToken != Some(token)
    ensures TokenDead(Step(cfg, db, op), token)
  {
    assert JobLease(db.issued, id, db.jobs[id]);
    StepKeepsInv(cfg, db, op);
    StepKeepsIssued(cfg, db, op, token);
    TokenDies(db, Step(cfg, db, op), id, token);
  }

  /** A terminal job holds no reservation. */
  lemma EndedIsUnreserved(db: Database, id: JobId)
    requires Inv(db) && id in db.jobs && !IsActive(db.jobs[id].status)
    ensures Unreserved(db, id)
  {
    forall view ensures !Reserved(db, view, id) {
      assert Reserved(db, view, id) <==> ActiveIncremental(db, view, id);
    }
  }

  lemma StateRowStays(cfg: Settings, db: Database, op: Op, view: ViewRef)
    requires view in db.states
    ensures view in Step(cfg, db, op).states
  {}

  /** State rows are never deleted. */
  lemma {:induction false} StatesStay(cfg: Settings, db: Database, ops: seq<Op>, view: ViewRef)
    requires view in db.states
    ensures view in After(cfg, db, ops).states
  {
    if ops != [] {
      StatesStay(cfg, db, ops[..|ops| - 1], view);
      StateRowStays(cfg, After(cfg, db, ops[..|ops| - 1]), ops[|ops| - 1], view);
    }
  }

  lemma {:induction false} AfterJoin(cfg: Settings, db: Database, a: seq<Op>, b: seq<Op>)
    ensures After(cfg, db, a + b) == After(cfg, After(cfg, db, a), b)
  {
    if b == [] {
      assert a + b == a;
    } else {
      assert (a + b)[..|a + b| - 1] == a + b[..|b| - 1];
      AfterJoin(cfg, db, a, b[..|b| - 1]);
    }
  }

  /** The job runs under this token, within its budget, and no other job carries the token. */
  ghost predicate LeasedWith(db: Database, id: JobId, token: Token) {
    && id in db.jobs && db.jobs[id].status == Running && db.jobs[id].leaseToken == Some(token)
    && db.jobs[id].attempts <= db.jobs[id].maxAttempts
    && forall other | other in db.jobs && other != id :: db.jobs[other].leaseToken != Some(token)
  }

  lemma LeaseIsExclusive(db: Database, id: JobId, token: Token)
    requires Inv(db) && id in db.jobs && db.jobs[id].leaseToken == Some(token)
    ensures LeasedWith(db, id, token)
  {
    assert JobLease(db.issued, id, db.jobs[id]) && JobBudget(db.jobs[id]);
    forall other | other in db.jobs && other != id ensures db.jobs[other].leaseToken != Some(token) {
      assert JobLease(db.issued, other, db.jobs[other]);
    }
  }

  /** Every record of a succeeded append job is applied. */
  lemma SucceededRecords(db: Database, id: JobId)
    requires Inv(db) && id in db.jobs && db.jobs[id].status == Succeeded
    ensures forall key | key in db.ledger && db.ledger[key].job == Some(id) :: db.ledger[key].state == EventApplied
  {
    forall key | key in db.ledger && db.ledger[key].job == Some(id) ensures db.ledger[key].state == EventApplied {
      assert RecordInv(db, key);
    }
  }

  /** An ended or waiting incremental job is reserved exactly while it waits. */
  lemma FailedIsReservedWhileRetrying(db: Database, id: JobId)
    requires Inv(db) && id in db.jobs && (IsActive(db.jobs[id].status) ==> db.jobs[id].status == Retrying)
    ensures IsIncremental(db.jobs[id]) ==>
              (Reserved(db, db.jobs[id].payload.view, id) <==> db.jobs[id].status == Retrying)
    ensures db.jobs[id].status == Retrying ==> !OverBudget(db.jobs[id])
  {
    if IsIncremental(db.jobs[id]) {
      var view := db.jobs[id].payload.view;
      assert Reserved(db, view, id) <==> ActiveIncremental(db, view, id);
    }
    assert JobBudget(db.jobs[id]);
  }

  /** Creation keeps the invariants and leaves an active job on the view, the new one or the one it found. */
  lemma CreationKeeps(cfg: Settings, db: Database, id: JobId, view: ViewRef, end: Option<Time>, lookback: Option<nat>,
                      now: Time)
    requires Inv(db) && id !in db.jobs
    ensures var tx := CreateIncremental(cfg, db, id, view, end, lookback, now);
            && Inv(tx.db)
            && (tx.reply == Accepted ==> ActiveIncremental(tx.db, view, id) && Reserved(tx.db, view, id))
            && (tx.reply.Existing? ==> ActiveIncremental(db, view, tx.reply.job))
  {
    StepKeepsInv(cfg, db, OpCreateIncremental(id, view, end, lookback, now));
    var tx := CreateIncremental(cfg, db, id, view, end, lookback, now);
    if tx.reply.Existing? { assert Reserved(db, view, tx.reply.job); }
  }

  /** What the row of a job that a claim may pick looks like. */
  ghost predicate MayBePicked(job: Job, now: Time) {
    match job.status
    case Pending => true
    case Retrying => forall due | job.nextAttemptAt == Some(due) :: due <= now
    case Running => forall end | job.leaseExpiresAt == Some(end) :: end <= now
    case _ => false
  }

  /** What the rows say about an outcome of a claim. */
  lemma PickedByRows(cfg: Settings, before: Database, token: Token, now: Time, after: Database, pick: Option<JobId>)
    requires token !in before.issued && ClaimOutcome(cfg, before, token, now, after, pick)
    ensures pick.Some? ==> pick.value in before.jobs && MayBePicked(before.jobs[pick.value], now)
                           && before.jobs[pick.value].attempts < before.jobs[pick.value].maxAttempts
    ensures pick.None? ==> forall id | id in before.jobs && MayBePicked(before.jobs[id], now) ::
              before.jobs[id].attempts >= before.jobs[id].maxAttempts
    ensures pick.Some? ==> forall id | id in before.jobs && MayBePicked(before.jobs[id], now)
                                       && before.jobs[id].attempts < before.jobs[id].maxAttempts ::
              before.jobs[pick.value].createdAt < before.jobs[id].createdAt
              || (before.jobs[pick.value].createdAt == before.jobs[id].createdAt && pick.value <= id)
  {
    EligibleByRows(before, now);
  }

  lemma EligibleByRows(db: Database, now: Time)
    ensures forall id | id in db.jobs :: MayBePicked(db.jobs[id], now) <==> id in EligibleJobs(db, now)
  {}

  class Session {
    const cfg: Settings
    var jobs: map<JobId, Job>
    var states: map<ViewRef, MatState>
    var ledger: map<EventKey, EventRecord>
    ghost var issued: map<Token, JobId>

    ghost function Db(): Database
      reads this
    {
      Database(jobs, states, ledger, issued)
    }

    ghost predicate Valid()
      reads this
    {
      Inv(Db())
    }

    constructor (cfg: Settings)
      ensures Valid() && this.cfg == cfg && Db() == EMPTY_DATABASE
    {
      this.cfg := cfg;
      jobs, states, ledger, issued := map[], map[], map[], map[];
    }

    /** Whatever other sessions commit between two statements of this one; only the contract matters here. */
    method Others() returns (ghost ops: seq<Op>)
      requires Valid()
      modifies this
      ensures Valid() && Db() == After(cfg, old(Db()), ops)
    {
      ops := [];
    }

    /** `_release_incremental_reservation`: one guarded update of the job's own state row. */
    method ReleaseReservation(id: JobId, job: Job)
      requires ReservationInv(Db()) && id in jobs && job == jobs[id]
      modifies this`states
      ensures states == Released(old(Db()), id, job)
      ensures forall view, other :: Reserved(Db(), view, other) <==> old(Reserved(Db(), view, other)) && other != id
      ensures states.Keys == old(states).Keys
      ensures forall view | view in states :: states[view] == old(states)[view].(active := states[view].active)
    {
      forall view | Reserved(Db(), view, id) ensures IsIncremental(job) && job.payload.view == view {
        assert ActiveIncremental(Db(), view, id);
      }
      if IsIncremental(job) && job.payload.view in states && states[job.payload.view].active == Some(id) {
        states := states[job.payload.view := states[job.payload.view].(active := None)];
      }
    }

    method NewId() returns (id: JobId)
      ensures id !in jobs
    {
      id := 0;
      var rest := jobs.Keys;
      while rest != {}
        invariant rest <= jobs.Keys && forall other | other in jobs && other !in rest :: other < id
        decreases rest
      {
        var some :| some in rest;
        if some >= id { id := some + 1; }
        rest := rest - {some};
      }
    }

    /**
     * `create_incremental_materialization`, both attempts. A missing state row cannot be locked, so another
     * transaction may insert it first and the commit then fails; the second attempt finds the row, which is
     * never deleted, so the loop always ends in an answer.
     */
    method CreateIncrementalMaterialization(view: ViewRef, end: Option<Time>, lookback: Option<nat>, now: Time)
      returns (id: JobId, reply: Reply, ghost between: seq<Op>)
      requires Valid()
      modifies this
      ensures Valid() && id !in After(cfg, old(Db()), between).jobs
      ensures Tx(Db(), reply) == CreateIncremental(cfg, After(cfg, old(Db()), between), id, view, end, lookback, now)
      ensures reply == Accepted ==> id in jobs && ActiveIncremental(Db(), view, id) && Reserved(Db(), view, id)
      ensures reply.Existing? ==>
                reply.job in jobs && ActiveIncremental(Db(), view, reply.job) && Db() == After(cfg, old(Db()), between)
    {
      between := [];
      if view !in states {
        between := Others();
        if view !in states {
          id := NewId();
          CreationKeeps(cfg, Db(), id, view, end, lookback, now);
          InsertJob(id, view, end, lookback, MatState(None, None, None, None), now);
          return id, Accepted, between;
        }
        ghost var start, mid := old(Db()), Db();            // integrity error: roll back and read again
        ghost var more := Others();
        StatesStay(cfg, mid, more, view);
        AfterJoin(cfg, start, between, more);
        between := between + more;
      }
      id := NewId();
      reply := CreateLocked(id, view, end, lookback, now);
    }

    method InsertJob(id: JobId, view: ViewRef, end: Option<Time>, lookback: Option<nat>, state: MatState, now: Time)
      requires id !in jobs
      modifies this`jobs, this`states
      ensures var payload := IncrementalPayload(view, end.GetOr(now), lookback.GetOr(cfg.lookback));
              jobs == old(jobs)[id := NewJob(cfg, Materialize, payload, now)]
      ensures states == old(states)[view := state.(active := Some(id))]
    {
      var payload := IncrementalPayload(view, end.GetOr(now), lookback.GetOr(cfg.lookback));
      jobs := jobs[id := NewJob(cfg, Materialize, payload, now)];
      states := states[view := state.(active := Some(id))];
    }

    /** One attempt, with the state row found and locked. */
    method CreateLocked(id: JobId, view: ViewRef, end: Option<Time>, lookback: Option<nat>, now: Time)
      returns (reply: Reply)
      requires Valid() && id !in jobs && view in states
      modifies this
      ensures Valid() && Tx(Db(), reply) == CreateIncremental(cfg, old(Db()), id, view, end, lookback, now)
      ensures reply == Accepted ==> ActiveIncremental(Db(), view, id) && Reserved(Db(), view, id)
      ensures reply.Existing? ==> ActiveIncremental(Db(), view, reply.job)
    {
      CreationKeeps(cfg, Db(), id, view, end, lookback, now);
      var state := states[view];
      if state.active.Some? {
        var active := state.active.value;
        if active in jobs && IsActive(jobs[active].status) {
          assert Reserved(Db(), view, active);
          return Existing(active);
        }
        state := state.(active := None);
      }
      if state.watermark.Some? && end.GetOr(now) < state.watermark.value {
        return Refused;
      }
      InsertJob(id, view, end, lookback, state, now);
      reply := Accepted;
    }

    /** `cancel`: afterwards the job runs nowhere, its token is dead and its view is free. */
    method CancelJob(id: JobId, now: Time) returns (reply: Reply)
      requires Valid()
      modifies this
      ensures Valid() && Tx(Db(), reply) == Cancel(cfg, old(Db()), id, now)
      ensures reply == Accepted <==> id in old(jobs) && IsActive(old(jobs)[id].status)
      ensures reply == Accepted ==> jobs[id].status == Cancelled && Unreserved(Db(), id)
      ensures reply == Accepted && old(jobs)[id].leaseToken.Some? ==> TokenDead(Db(), old(jobs)[id].leaseToken.value)
    {
      StepKeepsInv(cfg, Db(), OpCancel(id, now));
      if id !in jobs || !IsActive(jobs[id].status) {
        return Refused;
      }
      var job := jobs[id];
      ghost var before := Db();
      ReleaseReservation(id, job);
      jobs := jobs[id := job.(status := Cancelled, finishedAt := Some(now), nextAttemptAt := None,
                              leaseToken := None, leaseExpiresAt := None,
                              artifactExpiresAt := Expiry(cfg, job, now))];
      reply := Accepted;
      assert Db() == Step(cfg, before, OpCancel(id, now));
      EndedIsUnreserved(Db(), id);
      if job.leaseToken.Some? { StepEndsToken(cfg, before, OpCancel(id, now), id, job.leaseToken.value); }
    }

    /**
     * `retry`: the check is made on an unlocked read, and other transactions may commit before the guarded
     * update lands. A refused check changes nothing; an accepted update leaves a fresh pending job that holds
     * its view.
     */
    method RetryJob(id: JobId, now: Time) returns (reply: Reply, ghost between: seq<Op>)
      requires Valid()
      modifies this
      ensures Valid()
      ensures !(id in old(jobs) && MayRetry(old(jobs)[id], now)) ==> reply == Refused && Db() == old(Db())
      ensures id in old(jobs) && MayRetry(old(jobs)[id], now) ==>
                Tx(Db(), reply) == Retry(cfg, After(cfg, old(Db()), between), id)
      ensures reply == Accepted ==> jobs[id].status == Pending && jobs[id].attempts == 0 && jobs[id].leaseToken.None?
      ensures reply == Accepted && IsIncremental(jobs[id]) ==> Reserved(Db(), jobs[id].payload.view, id)
    {
      between := [];
      if id !in jobs || !RetryableStatus(jobs[id]) {
        return Refused, between;
      }
      var job := jobs[id];
      if job.artifactsCleanedAt.Some? || (job.artifactExpiresAt.Some? && job.artifactExpiresAt.value <= now) {
        return Refused, between;
      }
      ghost var start := Db();
      between := Others();
      JobProtocol.KeepsPayload(cfg, start, between, id);
      StepKeepsInv(cfg, Db(), OpRetry(id));
      reply := LandRetry(id);
    }

    /** The state row of the job's view, its lock, and the guarded update. */
    method LandRetry(id: JobId) returns (reply: Reply)
      requires id in jobs
      modifies this`jobs, this`states
      ensures Tx(Db(), reply) == Retry(cfg, old(Db()), id)
      ensures reply == Accepted ==> jobs[id] == Reset(cfg, old(jobs)[id])
      ensures reply == Accepted && IsIncremental(jobs[id]) ==> Reserved(Db(), jobs[id].payload.view, id)
    {
      var job := jobs[id];
      var reserved := states;
      if IsIncremental(job) {
        var view := job.payload.view;
        var state := MatState(None, None, None, None);
        if view in states { state := states[view]; }
        if state.active.Some? && state.active.value != id {
          var active := state.active.value;
          if active in jobs && IsActive(jobs[active].status) {
            return Refused;
          }
        }
        reserved := states[view := state.(active := Some(id))];
      }
      if !Revivable(job.status) {
        return Refused;
      }
      states := reserved;
      jobs := jobs[id := Reset(cfg, job)];
      reply := Accepted;
    }

    /**
     * The claim query: the first by creation time and id of the rows that are pending, retrying and due, or
     * running with their lease over.
     */
    method SelectCandidate(now: Time) returns (candidate: Option<JobId>)
      ensures candidate.Some? ==> candidate.value in jobs && MayBePicked(jobs[candidate.value], now)
      ensures candidate.None? ==> forall id | id in jobs :: !MayBePicked(jobs[id], now)
      ensures candidate.Some? ==> forall id | id in jobs && MayBePicked(jobs[id], now) ::
                jobs[candidate.value].createdAt < jobs[id].createdAt
                || (jobs[candidate.value].createdAt == jobs[id].createdAt && candidate.value <= id)
      ensures candidate.None? ==> EligibleJobs(Db(), now) == {}
      ensures candidate.Some? ==> IsFirst(Db(), EligibleJobs(Db(), now), candidate.value)
    {
      var candidates := set id | id in jobs
        && (|| jobs[id].status == Pending
            || (jobs[id].status == Retrying && (jobs[id].nextAttemptAt.None? || jobs[id].nextAttemptAt.value <= now))
            || (jobs[id].status == Running && (jobs[id].leaseExpiresAt.None? || jobs[id].leaseExpiresAt.value <= now)));
      assert candidates == EligibleJobs(Db(), now);
      EligibleByRows(Db(), now);
      if candidates == {} {
        return None;
      }
      ghost var first := FirstExists(Db(), candidates);
      assert forall other | other in candidates :: other == first || Precedes(Db(), first, other);
      var id :| id in candidates && forall other | other in candidates ::
        other == id || jobs[id].createdAt < jobs[other].createdAt
        || (jobs[id].createdAt == jobs[other].createdAt && id < other);
      candidate := Some(id);
    }

    /**
     * `claim_next`. Every pass is one transaction: it exhausts the first eligible row when its budget is
     * spent and looks again, and otherwise leases it. A claimed job runs under the fresh token, which no other
     * job carries, within its budget, and the token it ran under before is dead.
     */
    method ClaimNext(token: Token, now: Time) returns (claimed: Option<JobId>)
      requires Valid() && token !in issued
      modifies this
      ensures Valid() && ClaimOutcome(cfg, old(Db()), token, now, Db(), claimed)
      ensures claimed.Some? ==> claimed.value in old(jobs) && MayBePicked(old(jobs)[claimed.value], now)
                                && old(jobs)[claimed.value].attempts < old(jobs)[claimed.value].maxAttempts
      ensures claimed.None? ==> forall id | id in old(jobs) && MayBePicked(old(jobs)[id], now) ::
                old(jobs)[id].attempts >= old(jobs)[id].maxAttempts
      ensures claimed.Some? ==> claimed.value in jobs && LeasedWith(Db(), claimed.value, token)
      ensures claimed.Some? ==>
                forall t :: OwnsRow(jobs, claimed.value, token, t) <==> t < now + Seconds(cfg.leaseSeconds)
      ensures claimed.Some? && old(jobs)[claimed.value].leaseToken.Some? ==>
                TokenDead(Db(), old(jobs)[claimed.value].leaseToken.value)
    {
      ghost var before := Db();
      ghost var spent: set<JobId> := {};
      ClaimingStarts(cfg, before, now);
      while true
        invariant Valid() && Claiming(cfg, before, spent, Db(), now)
        decreases EligibleJobs(Db(), now)
      {
        var candidate := SelectCandidate(now);
        if candidate.None? {
          ClaimingEndsEmpty(cfg, before, spent, Db(), token, now);
          PickedByRows(cfg, before, token, now, Db(), None);
          return None;
        }
        var id := candidate.value;
        if jobs[id].attempts >= jobs[id].maxAttempts {
          ClaimingSpends(cfg, before, spent, Db(), id, now);
          spent := spent + {id};
          ExhaustCandidate(id, now);
        } else {
          ClaimingPicks(cfg, before, spent, Db(), id, token, now);
          assert jobs[id] == before.jobs[id];
          Lease(id, token, now);
          PickedByRows(cfg, before, token, now, Db(), Some(id));
          return Some(id);
        }
      }
    }

    /** The leasing pass. */
    method Lease(id: JobId, token: Token, now: Time)
      requires Valid() && id in jobs && Eligible(jobs[id], now) && !OverBudget(jobs[id]) && token !in issued
      modifies this
      ensures Valid() && Db() == Claim(cfg, old(Db()), id, token, now)
      ensures LeasedWith(Db(), id, token) && jobs[id].attempts == old(jobs)[id].attempts + 1
      ensures forall t :: OwnsRow(jobs, id, token, t) <==> t < now + Seconds(cfg.leaseSeconds)
      ensures old(jobs)[id].leaseToken.Some? ==> TokenDead(Db(), old(jobs)[id].leaseToken.value)
    {
      ghost var before := Db();
      StepKeepsInv(cfg, before, OpClaim(id, token, now));
      assert JobLease(issued, id, jobs[id]);
      jobs := jobs[id := ClaimedJob(cfg, jobs[id], token, now)];
      issued := issued[token := id];
      assert Db() == Step(cfg, before, OpClaim(id, token, now));
      LeaseIsExclusive(Db(), id, token);
      if before.jobs[id].leaseToken.Some? {
        StepEndsToken(cfg, before, OpClaim(id, token, now), id, before.jobs[id].leaseToken.value);
      }
    }

    /** The pass over a job whose budget is spent: it ends, frees its view, and its token is dead. */
    method ExhaustCandidate(id: JobId, now: Time)
      requires Valid() && id in jobs && Eligible(jobs[id], now) && OverBudget(jobs[id])
      modifies this
      ensures Valid() && Db() == Exhaust(cfg, old(Db()), id, now)
      ensures jobs[id].status == Exhausted && Unreserved(Db(), id)
      ensures old(jobs)[id].leaseToken.Some? ==> TokenDead(Db(), old(jobs)[id].leaseToken.value)
    {
      ghost var before := Db();
      StepKeepsInv(cfg, before, OpExhaust(id, now));
      var job := jobs[id];
      ReleaseReservation(id, job);
      jobs := jobs[id := ExhaustedJob(cfg, job, now)];
      assert Db() == Step(cfg, before, OpExhaust(id, now));
      EndedIsUnreserved(Db(), id);
      if job.leaseToken.Some? { StepEndsToken(cfg, before, OpExhaust(id, now), id, job.leaseToken.value); }
    }

    /**
     * `heartbeat`: it holds exactly for the owner, who then owns the job for a whole lease; a dead token
     * changes nothing.
     */
    method Beat(id: JobId, token: Token, now: Time) returns (held: bool)
      requires Valid()
      modifies this
      ensures Valid() && Tx(Db(), if held then Accepted else LeaseLost) == Heartbeat(cfg, old(Db()), id, token, now)
      ensures held <==> OwnsRow(old(jobs), id, token, now)
      ensures held ==> forall t :: OwnsRow(jobs, id, token, t) <==> t < now + Seconds(cfg.leaseSeconds)
      ensures TokenDead(old(Db()), token) ==> !held && Db() == old(Db())
    {
      StepKeepsInv(cfg, Db(), OpHeartbeat(id, token, now));
      held := OwnsRow(jobs, id, token, now);
      if held {
        jobs := jobs[id := jobs[id].(leaseExpiresAt := Some(now + Seconds(cfg.leaseSeconds)))];
      }
    }

    /** `_commit_checkpoints`: only the owner writes, and goes on owning the job. */
    method CommitCheckpoints(id: JobId, token: Token, checkpoints: seq<string>, now: Time) returns (reply: Reply)
      requires Valid()
      modifies this
      ensures Valid() && Tx(Db(), reply) == Checkpoint(old(Db()), id, token, checkpoints, now)
      ensures reply == Accepted <==> OwnsRow(old(jobs), id, token, now)
      ensures reply == Accepted ==> OwnsRow(jobs, id, token, now) && jobs[id].checkpoints == checkpoints
      ensures TokenDead(old(Db()), token) ==> reply == LeaseLost && Db() == old(Db())
    {
      StepKeepsInv(cfg, Db(), OpCheckpoint(id, token, checkpoints, now));
      if !OwnsRow(jobs, id, token, now) {
        return LeaseLost;
      }
      jobs := jobs[id := jobs[id].(checkpoints := checkpoints)];
      reply := Accepted;
    }

    /** `_mark_stream_events_applied`: walks the staged records of the job one by one. */
    method MarkStreamEventsApplied(id: JobId)
      modifies this`ledger
      ensures ledger == MarkApplied(old(ledger), id)
    {
      var records := set key | key in ledger && ledger[key].job == Some(id) && ledger[key].state == EventStaged;
      ghost var all := records;
      while records != {}
        invariant records <= all && ledger.Keys == old(ledger).Keys
        invariant forall key | key in ledger :: ledger[key] ==
                    if key in all - records then old(ledger)[key].(state := EventApplied) else old(ledger)[key]
        decreases records
      {
        var key :| key in records;
        ledger := ledger[key := ledger[key].(state := EventApplied)];
        records := records - {key};
      }
    }

    /**
     * `_finalize_success`. It never finds its reservation gone; it ends the token, publishes the cutoff as the
     * watermark and frees the view, and applies every record staged for the job.
     */
    method FinalizeSuccess(id: JobId, token: Token, resultUri: Option<Uri>, freshness: Option<Time>, now: Time)
      returns (reply: Reply)
      requires Valid()
      modifies this
      ensures Valid() && Tx(Db(), reply) == Succeed(cfg, old(Db()), id, token, resultUri, freshness, now)
      ensures reply != ReservationLost && (reply == Accepted <==> OwnsRow(old(jobs), id, token, now))
      ensures reply == Accepted ==> jobs[id].status == Succeeded && TokenDead(Db(), token) && Unreserved(Db(), id)
      ensures reply == Accepted && IsIncremental(jobs[id]) ==>
                StateOf(Db(), jobs[id].payload.view).watermark == Some(jobs[id].payload.end)
      ensures reply == Accepted && jobs[id].kind == OfflineAppend ==>
                forall key | key in ledger && ledger[key].job == Some(id) :: ledger[key].state == EventApplied
      ensures TokenDead(old(Db()), token) ==> reply == LeaseLost && Db() == old(Db())
    {
      ghost var before := Db();
      ghost var op := OpSucceed(id, token, resultUri, freshness, now);
      StepKeepsInv(cfg, before, op);
      SucceedReservation(cfg, before, id, token, resultUri, freshness, now);
      reply := RunSuccess(id, token, resultUri, freshness, now);
      if reply == Accepted {
        EndedIsUnreserved(Db(), id);
        StepEndsToken(cfg, before, op, id, token);
        SucceededRecords(Db(), id);
      }
    }

    /** The updates of the success transaction, and its two ways to roll back. */
    method RunSuccess(id: JobId, token: Token, resultUri: Option<Uri>, freshness: Option<Time>, now: Time)
      returns (reply: Reply)
      modifies this`jobs, this`states, this`ledger
      ensures Tx(Db(), reply) == Succeed(cfg, old(Db()), id, token, resultUri, freshness, now)
    {
      if !OwnsRow(jobs, id, token, now) {
        return LeaseLost;
      }
      var job := jobs[id];
      if IsIncremental(job) {
        var view := job.payload.view;
        if view !in states || states[view].active != Some(id) {
          return ReservationLost;
        }
        states := states[view := MatState(Some(job.payload.end), freshness, None, Some(id))];
      }
      jobs := jobs[id := SucceededJob(cfg, job, resultUri, now)];
      if job.kind == OfflineAppend {
        MarkStreamEventsApplied(id);
      }
      reply := Accepted;
    }

    /**
     * `_finalize_failure`. It ends the token; a job that waits for another attempt has budget left and keeps
     * its reservation, any other gives it up.
     */
    method FinalizeFailure(id: JobId, token: Token, terminal: bool, now: Time) returns (reply: Reply)
      requires Valid()
      modifies this
      ensures Valid() && Tx(Db(), reply) == Fail(cfg, old(Db()), id, token, terminal, now)
      ensures reply == Accepted <==> OwnsRow(old(jobs), id, token, now)
      ensures reply == Accepted ==> TokenDead(Db(), token) && (jobs[id].status == Failed <==> terminal)
      ensures reply == Accepted && jobs[id].status == Retrying ==> !OverBudget(jobs[id])
      ensures reply == Accepted && IsIncremental(jobs[id]) ==>
                (Reserved(Db(), jobs[id].payload.view, id) <==> jobs[id].status == Retrying)
      ensures TokenDead(old(Db()), token) ==> reply == LeaseLost && Db() == old(Db())
    {
      ghost var before := Db();
      ghost var op := OpFail(id, token, terminal, now);
      StepKeepsInv(cfg, before, op);
      if !OwnsRow(jobs, id, token, now) {
        return LeaseLost;
      }
      var job := jobs[id];
      var failed := FailedJob(cfg, job, terminal, now);
      if failed.status == Failed || failed.status == Exhausted {
        ReleaseReservation(id, job);
      }
      jobs := jobs[id := failed];
      reply := Accepted;
      assert Db() == Step(cfg, before, op);
      StepEndsToken(cfg, before, op, id, token);
      FailedIsReservedWhileRetrying(Db(), id);
    }

    /** `StreamEventLedger.register`: new, an exact duplicate, or a conflict on the same identity. */
    method RegisterEvent(key: EventKey, payload: EventPayload) returns (isNew: bool, conflict: bool)
      modifies this`ledger
      ensures old(Valid()) ==> Valid()
      ensures Db() == Register(old(Db()), key, payload)
      ensures isNew <==> key !in old(ledger)
      ensures conflict <==> key in old(ledger) && old(ledger)[key].payload != payload
    {
      if Valid() { StepKeepsInv(cfg, Db(), OpRegister(key, payload)); }
      if key in ledger {
        return false, ledger[key].payload != payload;
      }
      ledger := ledger[key := EventRecord(payload, EventPending, None)];
      return true, false;
    }

    /** `StreamEventLedger.mark_staged`: walks the records of the batch one by one. */
    method MarkStaged(keys: set<EventKey>, id: JobId)
      requires keys <= ledger.Keys
      modifies this`ledger
      ensures ledger == map key | key in old(ledger) ::
                if key in keys then old(ledger)[key].(state := EventStaged, job := Some(id)) else old(ledger)[key]
    {
      var rest := keys;
      while rest != {}
        invariant rest <= keys && ledger.Keys == old(ledger).Keys
        invariant forall key | key in ledger :: ledger[key] ==
                    if key in keys - rest then old(ledger)[key].(state := EventStaged, job := Some(id))
                    else old(ledger)[key]
        decreases rest
      {
        var key :| key in rest;
        ledger := ledger[key := ledger[key].(state := EventStaged, job := Some(id))];
        rest := rest - {key};
      }
    }

    /** The staging transaction of a flush: create the append job, mark every record staged. */
    method StageEvents(id: JobId, view: ViewRef, staging: Uri, keys: set<EventKey>, now: Time) returns (reply: Reply)
      requires id !in jobs && forall key | key in keys :: key.view == view
      modifies this
      ensures old(Valid()) ==> Valid()
      ensures Tx(Db(), reply) == Stage(cfg, old(Db()), id, view, staging, keys, now)
    {
      if Valid() { StepKeepsInv(cfg, Db(), OpStage(id, view, staging, keys, now)); }
      var pending := set key | key in keys && key in ledger && ledger[key].state == EventPending;
      if !(keys <= pending) {
        assert AllPending(Db(), keys) ==> forall key | key in keys :: key in pending;
        return Refused;
      }
      jobs := jobs[id := NewJob(cfg, OfflineAppend, AppendPayload(view, staging), now)];
      MarkStaged(keys, id);
      reply := Accepted;
    }
  }
}
