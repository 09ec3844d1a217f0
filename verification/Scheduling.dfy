/** Claim order, attempt budgets and backoff. */
module Scheduling {
  import opened Common
  import opened Jobs
  import opened JobInvariants
  import JobProtocol
  import Orders

  // ---- claim order -------------------------------------------------------------------------------

  /** The order of the claim query: creation time, then id. */
  predicate Precedes(db: Database, a: JobId, b: JobId)
    requires a in db.jobs && b in db.jobs
  {
    db.jobs[a].createdAt < db.jobs[b].createdAt || (db.jobs[a].createdAt == db.jobs[b].createdAt && a < b)
  }

  function EligibleJobs(db: Database, now: Time): set<JobId> {
    set id | id in db.jobs && Eligible(db.jobs[id], now)
  }

  ghost predicate IsFirst(db: Database, candidates: set<JobId>, id: JobId)
    requires candidates <= db.jobs.Keys
  {
    id in candidates && forall other | other in candidates :: other == id || Precedes(db, id, other)
  }

  lemma FirstExists(db: Database, candidates: set<JobId>) returns (id: JobId)
    requires candidates <= db.jobs.Keys && candidates != {}
    ensures IsFirst(db, candidates, id)
  {
    id := Orders.LeastExists(candidates, (a: JobId, b: JobId) => a in db.jobs && b in db.jobs && Precedes(db, a, b));
  }

  /** The reservations after the given jobs have been exhausted. */
  function ReleasedAll(db: Database, ids: set<JobId>): map<ViewRef, MatState>
    requires ids <= db.jobs.Keys
  {
    map view | view in db.states ::
      if db.states[view].active.Some? && db.states[view].active.value in ids
         && IsIncremental(db.jobs[db.states[view].active.value])
         && db.jobs[db.states[view].active.value].payload.view == view
      then db.states[view].(active := None) else db.states[view]
  }

  function ExhaustAll(cfg: Settings, db: Database, ids: set<JobId>, now: Time): Database
    requires ids <= db.jobs.Keys
  {
    db.(jobs := map id | id in db.jobs :: if id in ids then ExhaustedJob(cfg, db.jobs[id], now) else db.jobs[id],
        states := ReleasedAll(db, ids))
  }

  lemma ExhaustOneMore(cfg: Settings, db: Database, ids: set<JobId>, id: JobId, now: Time)
    requires ids <= db.jobs.Keys && id in db.jobs && id !in ids
    requires Eligible(db.jobs[id], now) && OverBudget(db.jobs[id])
    ensures Exhaust(cfg, ExhaustAll(cfg, db, ids, now), id, now) == ExhaustAll(cfg, db, ids + {id}, now)
  {
    var one := Exhaust(cfg, ExhaustAll(cfg, db, ids, now), id, now);
    var all := ExhaustAll(cfg, db, ids + {id}, now);
    assert one.jobs == all.jobs;
    assert one.states == all.states;
  }

  /** The eligible jobs whose budget is spent and that the claim query meets before `limit`. */
  function SpentBefore(db: Database, now: Time, limit: Option<JobId>): set<JobId>
    requires limit.Some? ==> limit.value in db.jobs
  {
    set id | id in EligibleJobs(db, now) && OverBudget(db.jobs[id])
             && (limit.Some? ==> Precedes(db, id, limit.value))
  }

  /**
   * What a claim does. It picks the first eligible job with budget left, or nothing when there is none;
   * on the way it exhausts exactly the spent eligible jobs that come before its pick (all of them when
   * there is no pick), releases their reservations, and changes nothing else.
   */
  ghost predicate ClaimOutcome(cfg: Settings, before: Database, token: Token, now: Time,
                               after: Database, pick: Option<JobId>)
    requires token !in before.issued
  {
    match pick
    case None =>
      && (forall id | id in EligibleJobs(before, now) :: OverBudget(before.jobs[id]))
      && after == ExhaustAll(cfg, before, SpentBefore(before, now, None), now)
    case Some(id) =>
      && id in EligibleJobs(before, now) && !OverBudget(before.jobs[id])
      && (forall other | other in EligibleJobs(before, now) && !OverBudget(before.jobs[other]) ::
            other == id || Precedes(before, id, other))
      && after == ExhaustAll(cfg, before, SpentBefore(before, now, pick), now)
                  .(jobs := after.jobs, issued := before.issued[token := id])
      && after.jobs == ExhaustAll(cfg, before, SpentBefore(before, now, pick), now)
                       .jobs[id := ClaimedJob(cfg, before.jobs[id], token, now)]
  }

  /** The outcome is determined by the database, the clock and the fresh token alone. */
  lemma ClaimOutcomeUnique(cfg: Settings, before: Database, token: Token, now: Time,
                           a: Database, pickA: Option<JobId>, b: Database, pickB: Option<JobId>)
    requires token !in before.issued
    requires ClaimOutcome(cfg, before, token, now, a, pickA)
    requires ClaimOutcome(cfg, before, token, now, b, pickB)
    ensures pickA == pickB && a == b
  {
  }

  /** The loop invariant of `claim_next`: the spent jobs met so far are exhausted, and all lie before the rest. */
  ghost predicate Claiming(cfg: Settings, before: Database, spent: set<JobId>, current: Database, now: Time) {
    && spent <= EligibleJobs(before, now)
    && current == ExhaustAll(cfg, before, spent, now)
    && (forall id | id in spent :: OverBudget(before.jobs[id]))
    && (forall id, other | id in spent && other in EligibleJobs(before, now) - spent :: Precedes(before, id, other))
  }

  lemma ClaimingStarts(cfg: Settings, before: Database, now: Time)
    ensures Claiming(cfg, before, {}, before, now)
  {
    var same := ExhaustAll(cfg, before, {}, now);
    assert same.jobs == before.jobs;
    assert same.states == before.states;
  }

  lemma ClaimingRemaining(cfg: Settings, before: Database, spent: set<JobId>, current: Database, now: Time)
    requires Claiming(cfg, before, spent, current, now)
    ensures EligibleJobs(current, now) == EligibleJobs(before, now) - spent
    ensures forall id | id in EligibleJobs(current, now) :: current.jobs[id] == before.jobs[id]
  {}

  lemma ClaimingSpends(cfg: Settings, before: Database, spent: set<JobId>, current: Database, id: JobId, now: Time)
    requires Claiming(cfg, before, spent, current, now)
    requires IsFirst(current, EligibleJobs(current, now), id) && OverBudget(current.jobs[id])
    ensures Claiming(cfg, before, spent + {id}, Exhaust(cfg, current, id, now), now)
    ensures EligibleJobs(Exhaust(cfg, current, id, now), now) == EligibleJobs(current, now) - {id}
  {
    ClaimingRemaining(cfg, before, spent, current, now);
    ExhaustOneMore(cfg, before, spent, id, now);
    forall other | other in EligibleJobs(before, now) - (spent + {id}) ensures Precedes(before, id, other) {
      assert Precedes(current, id, other);
    }
  }

  lemma ClaimingEndsEmpty(cfg: Settings, before: Database, spent: set<JobId>, current: Database, token: Token,
                          now: Time)
    requires Claiming(cfg, before, spent, current, now) && token !in before.issued
    requires EligibleJobs(current, now) == {}
    ensures ClaimOutcome(cfg, before, token, now, current, None)
  {
    ClaimingRemaining(cfg, before, spent, current, now);
    assert spent == SpentBefore(before, now, None);
  }

  lemma ClaimingPicks(cfg: Settings, before: Database, spent: set<JobId>, current: Database, id: JobId,
                      token: Token, now: Time)
    requires Claiming(cfg, before, spent, current, now) && token !in before.issued
    requires IsFirst(current, EligibleJobs(current, now), id) && !OverBudget(current.jobs[id])
    ensures ClaimOutcome(cfg, before, token, now, Claim(cfg, current, id, token, now), Some(id))
  {
    ClaimingRemaining(cfg, before, spent, current, now);
    forall other | other in EligibleJobs(before, now) - spent && other != id
      ensures Precedes(before, id, other) && !Precedes(before, other, id)
    {
      assert Precedes(current, id, other);
    }
    var earlier := SpentBefore(before, now, Some(id));
    forall other ensures other in spent <==> other in earlier {
      assert id in EligibleJobs(before, now) - spent;
      assert other in spent || other !in EligibleJobs(before, now) || other in EligibleJobs(before, now) - spent;
      if other in spent { assert Precedes(before, other, id); }
    }
    assert spent == earlier;
  }

  // ---- attempt budgets ---------------------------------------------------------------------------

  /**
   * In every reachable state no job has used more attempts than its snapshotted budget, and a retrying one has
   * some left.
   */
  lemma AttemptsWithinBudget(cfg: Settings, ops: seq<Op>)
    ensures var db := JobProtocol.Reached(cfg, ops);
            forall id | id in db.jobs ::
              && db.jobs[id].attempts <= db.jobs[id].maxAttempts
              && (db.jobs[id].status == Retrying ==> !OverBudget(db.jobs[id]))
  {
    JobProtocol.ReachedInv(cfg, ops);
    var db := JobProtocol.Reached(cfg, ops);
    forall id | id in db.jobs ensures JobBudget(db.jobs[id]) {}
  }

  /** What is left of a job's life: two moves per remaining attempt. */
  ghost function Remaining(job: Job): nat
    requires JobBudget(job)
  {
    if !IsActive(job.status) then 0
    else 1 + 2 * (job.maxAttempts - job.attempts) + (if job.status == Running then 1 else 0)
  }

  /** The step changed the status of the job or started another attempt of it. */
  ghost predicate Moved(cfg: Settings, db: Database, op: Op, id: JobId)
    requires id in db.jobs
  {
    StepKeepsJob(cfg, db, op, id);
    var next := Step(cfg, db, op);
    next.jobs[id].status != db.jobs[id].status || next.jobs[id].attempts != db.jobs[id].attempts
  }

  lemma MoveSpends(cfg: Settings, db: Database, op: Op, id: JobId)
    requires BudgetInv(db) && id in db.jobs && !(op.OpRetry? && op.id == id)
    ensures id in Step(cfg, db, op).jobs && JobBudget(Step(cfg, db, op).jobs[id])
    ensures Remaining(Step(cfg, db, op).jobs[id]) <= Remaining(db.jobs[id])
    ensures Moved(cfg, db, op, id) ==> Remaining(Step(cfg, db, op).jobs[id]) < Remaining(db.jobs[id])
  {
    if Target(op) == Some(id) { OwnMoveSpends(cfg, db, op, id); } else { StepFrame(cfg, db, op, id); }
  }

  lemma OwnMoveSpends(cfg: Settings, db: Database, op: Op, id: JobId)
    requires BudgetInv(db) && id in db.jobs && Target(op) == Some(id) && !op.OpRetry?
    ensures id in Step(cfg, db, op).jobs && JobBudget(Step(cfg, db, op).jobs[id])
    ensures Remaining(Step(cfg, db, op).jobs[id]) <= Remaining(db.jobs[id])
    ensures Moved(cfg, db, op, id) ==> Remaining(Step(cfg, db, op).jobs[id]) < Remaining(db.jobs[id])
  {
    StepKeepsJob(cfg, db, op, id);
    BudgetStep(cfg, db, op);
    assert JobBudget(db.jobs[id]);
  }

  /** How many times the job moved in a run. */
  ghost function Moves(cfg: Settings, db: Database, ops: seq<Op>, id: JobId): nat
    requires id in db.jobs
  {
    if ops == [] then 0
    else
      JobProtocol.KeepsPayload(cfg, db, ops[..|ops| - 1], id);
      Moves(cfg, db, ops[..|ops| - 1], id)
      + if Moved(cfg, After(cfg, db, ops[..|ops| - 1]), ops[|ops| - 1], id) then 1 else 0
  }

  /**
   * Without a manual retry of it, a job's history is finite: it moves at most `Remaining` times, which
   * is at most twice its budget plus two, however its workers crash, lapse and compete.
   */
  lemma {:induction false} HistoryTerminates(cfg: Settings, db: Database, ops: seq<Op>, id: JobId)
    requires Inv(db) && id in db.jobs
    requires forall k | 0 <= k < |ops| :: !(ops[k].OpRetry? && ops[k].id == id)
    ensures id in After(cfg, db, ops).jobs && JobBudget(After(cfg, db, ops).jobs[id])
    ensures JobBudget(db.jobs[id])
    ensures Moves(cfg, db, ops, id) + Remaining(After(cfg, db, ops).jobs[id]) <= Remaining(db.jobs[id])
    ensures Moves(cfg, db, ops, id) <= 2 * db.jobs[id].maxAttempts + 2
  {
    if ops != [] {
      var init := ops[..|ops| - 1];
      HistoryTerminates(cfg, db, init, id);
      RunKeepsInv(cfg, db, init);
      MoveSpends(cfg, After(cfg, db, init), ops[|ops| - 1], id);
    } else {
      assert JobBudget(db.jobs[id]);
    }
  }

  // ---- backoff -----------------------------------------------------------------------------------

  lemma {:induction false} Pow2Monotone(a: nat, b: nat)
    requires a <= b
    ensures 1 <= Pow2(a) <= Pow2(b)
    decreases b
  {
    if a < b { Pow2Monotone(a, b - 1); } else if a > 0 { Pow2Monotone(a - 1, b - 1); }
  }

  /** The delay never shrinks from one attempt to a later one and never exceeds the cap; below the cap it doubles. */
  lemma BackoffMonotone(cfg: Settings, a: nat, b: nat)
    requires 1 <= a <= b
    ensures Backoff(cfg, a) <= Backoff(cfg, b) <= cfg.retryMax
    ensures Backoff(cfg, a + 1) < cfg.retryMax ==> Backoff(cfg, a + 1) == 2 * Backoff(cfg, a)
  {
    Pow2Monotone(a - 1, b - 1);
    Scale(cfg.retryBase, Pow2(a - 1), Pow2(b - 1));
    assert Pow2(a) == 2 * Pow2(a - 1);
    Scale(cfg.retryBase, Pow2(a - 1), Pow2(a));
    assert cfg.retryBase * Pow2(a) == 2 * (cfg.retryBase * Pow2(a - 1));
  }

  lemma Scale(k: nat, a: nat, b: nat)
    requires a <= b
    ensures k * a <= k * b
  {}
}
