/** The guarantees of the job protocol, over every run from an empty database. */
module JobProtocol {
  import opened Common
  import opened Jobs
  import opened JobInvariants

  function Reached(cfg: Settings, ops: seq<Op>): Database {
    After(cfg, EMPTY_DATABASE, ops)
  }

  lemma ReachedInv(cfg: Settings, ops: seq<Op>)
    ensures Inv(Reached(cfg, ops))
  {
    RunKeepsInv(cfg, EMPTY_DATABASE, ops);
  }

  lemma AfterAppend(cfg: Settings, db: Database, ops: seq<Op>, k: nat)
    requires k < |ops|
    ensures After(cfg, db, ops[..k + 1]) == Step(cfg, After(cfg, db, ops[..k]), ops[k])
  {
    assert ops[..k + 1][..k] == ops[..k];
  }

  // ---- lease fencing -----------------------------------------------------------------------------

  /** The worker transactions that present a lease token. */
  ghost predicate Presents(op: Op, token: Token) {
    match op
    case OpHeartbeat(_, t, _) => t == token
    case OpCheckpoint(_, t, _, _) => t == token
    case OpSucceed(_, t, _, _, _) => t == token
    case OpFail(_, t, _, _) => t == token
    case _ => false
  }

  lemma {:induction false} DeadForever(cfg: Settings, db: Database, ops: seq<Op>, token: Token)
    requires Inv(db) && TokenDead(db, token)
    ensures TokenDead(After(cfg, db, ops), token)
  {
    if ops != [] {
      var init := ops[..|ops| - 1];
      DeadForever(cfg, db, init, token);
      RunKeepsInv(cfg, db, init);
      DeadStep(cfg, After(cfg, db, init), ops[|ops| - 1], token);
    }
  }

  lemma DeadTokenIsIgnored(cfg: Settings, db: Database, op: Op, token: Token)
    requires TokenDead(db, token) && Presents(op, token)
    ensures Step(cfg, db, op) == db
  {}

  /**
   * Fencing: once the job a token was issued for no longer carries it, nothing presenting that token
   * changes a job, a materialization state or a ledger record, now or after any continuation of the
   * run, whatever job id and clock it presents.
   */
  lemma LeaseFencing(cfg: Settings, before: seq<Op>, later: seq<Op>, stale: Op, token: Token)
    requires token in Reached(cfg, before).issued
    requires Reached(cfg, before).issued[token] in Reached(cfg, before).jobs ==>
               Reached(cfg, before).jobs[Reached(cfg, before).issued[token]].leaseToken != Some(token)
    requires Presents(stale, token)
    ensures var db := After(cfg, Reached(cfg, before), later); Step(cfg, db, stale) == db
  {
    ReachedInv(cfg, before);
    DeadForever(cfg, Reached(cfg, before), later, token);
    DeadTokenIsIgnored(cfg, After(cfg, Reached(cfg, before), later), stale, token);
  }

  /** Running and holding a token are the same thing in every reachable state, and no two jobs share a token. */
  lemma RunningMeansLeased(cfg: Settings, ops: seq<Op>)
    ensures var db := Reached(cfg, ops);
            && (forall id | id in db.jobs :: db.jobs[id].status == Running <==> db.jobs[id].leaseToken.Some?)
            && (forall a, b | a in db.jobs && b in db.jobs && db.jobs[a].leaseToken.Some? ::
                  db.jobs[a].leaseToken == db.jobs[b].leaseToken ==> a == b)
  {
    ReachedInv(cfg, ops);
    var db := Reached(cfg, ops);
    forall a, b | a in db.jobs && b in db.jobs && db.jobs[a].leaseToken.Some?
        && db.jobs[a].leaseToken == db.jobs[b].leaseToken
      ensures a == b
    {
      assert JobLease(db.issued, a, db.jobs[a]) && JobLease(db.issued, b, db.jobs[b]);
    }
  }

  lemma {:induction false} SucceededIsForever(cfg: Settings, db: Database, ops: seq<Op>, id: JobId)
    requires id in db.jobs && db.jobs[id].status == Succeeded
    ensures id in After(cfg, db, ops).jobs && After(cfg, db, ops).jobs[id].status == Succeeded
  {
    if ops != [] {
      var init := ops[..|ops| - 1];
      SucceededIsForever(cfg, db, init, id);
      StepKeepsJob(cfg, After(cfg, db, init), ops[|ops| - 1], id);
    }
  }

  // ---- reservations ------------------------------------------------------------------------------

  /**
   * In every reachable state the reservation of a view names exactly the incremental job of that view
   * that is pending, retrying or running; so at most one is, and a fenced success never finds its
   * reservation gone.
   */
  lemma ReservationExactness(cfg: Settings, ops: seq<Op>)
    ensures var db := Reached(cfg, ops);
            && (forall view, id :: Reserved(db, view, id) <==> ActiveIncremental(db, view, id))
            && (forall view, a, b :: ActiveIncremental(db, view, a) && ActiveIncremental(db, view, b) ==> a == b)
            && (forall id, token, uri, seen, now ::
                  Succeed(cfg, db, id, token, uri, seen, now).reply != ReservationLost)
  {
    var db := Reached(cfg, ops);
    ReachedInv(cfg, ops);
    forall view, a, b | ActiveIncremental(db, view, a) && ActiveIncremental(db, view, b) ensures a == b {
      assert Reserved(db, view, a) && Reserved(db, view, b);
    }
    forall id, token, uri, seen, now
      ensures Succeed(cfg, db, id, token, uri, seen, now).reply != ReservationLost
    {
      SucceedReservation(cfg, db, id, token, uri, seen, now);
    }
  }

  // ---- watermarks --------------------------------------------------------------------------------

  predicate NotBelow(a: Option<Time>, b: Option<Time>) {
    b.None? || (a.Some? && a.value >= b.value)
  }

  /** A watermark only moves in the success of the job that holds the reservation, and then to its cutoff. */
  lemma WatermarkMoves(cfg: Settings, db: Database, op: Op, view: ViewRef)
    ensures var old' := StateOf(db, view); var new' := StateOf(Step(cfg, db, op), view);
            (old'.watermark != new'.watermark || old'.freshness != new'.freshness
             || old'.lastSuccess != new'.lastSuccess) ==>
              && op.OpSucceed? && Owns(db, op.id, op.token, op.now) && IsIncremental(db.jobs[op.id])
              && db.jobs[op.id].payload.view == view && Reserved(db, view, op.id)
              && new' == MatState(Some(db.jobs[op.id].payload.end), op.freshness, None, Some(op.id))
  {}

  /** While a job stays active on its view, nothing moves the watermark or the freshness of that view. */
  lemma {:induction false} ReservationFreezesState(cfg: Settings, db: Database, ops: seq<Op>, view: ViewRef, id: JobId)
    requires Inv(db)
    requires StaysActive(cfg, db, ops, view, id)
    ensures StateOf(After(cfg, db, ops), view).watermark == StateOf(db, view).watermark
    ensures StateOf(After(cfg, db, ops), view).freshness == StateOf(db, view).freshness
  {
    if ops != [] {
      var n := |ops| - 1;
      var init := ops[..n];
      forall k | 0 <= k <= n ensures ActiveIncremental(After(cfg, db, init[..k]), view, id) {
        assert init[..k] == ops[..k];
      }
      ReservationFreezesState(cfg, db, init, view, id);
      RunKeepsInv(cfg, db, init);
      var mid := After(cfg, db, init);
      assert ActiveIncremental(mid, view, id) by { assert ops[..n] == init; }
      assert ActiveIncremental(Step(cfg, mid, ops[n]), view, id) by { assert ops[..|ops|] == ops; }
      WatermarkMoves(cfg, mid, ops[n], view);
      if ops[n].OpSucceed? && Reserved(mid, view, ops[n].id) {
        assert ActiveIncremental(mid, view, ops[n].id) && Reserved(mid, view, id);
      }
    }
  }

  /**
   * What a manual retry does to the watermark, exactly: when the retried job finally succeeds, without
   * having left the active states in between, the watermark is the job's own cutoff; so it has not gone
   * down if and only if that cutoff was not below the watermark when the retry was accepted.
   */
  lemma RetriedSuccessWatermark(cfg: Settings, before: seq<Op>, id: JobId, later: seq<Op>, success: Op)
    requires var db := Reached(cfg, before); id in db.jobs && IsIncremental(db.jobs[id])
    requires Retry(cfg, Reached(cfg, before), id).reply == Accepted
    requires var db := Reached(cfg, before);
             && StaysActive(cfg, Retry(cfg, db, id).db, later, db.jobs[id].payload.view, id)
             && success.OpSucceed? && success.id == id
             && Owns(After(cfg, Retry(cfg, db, id).db, later), id, success.token, success.now)
    ensures var db := Reached(cfg, before); var job := db.jobs[id];
            var done := Step(cfg, After(cfg, Retry(cfg, db, id).db, later), success);
            && StateOf(done, job.payload.view).watermark == Some(job.payload.end)
            && (NotBelow(StateOf(done, job.payload.view).watermark, StateOf(db, job.payload.view).watermark)
                <==> NotBelow(Some(job.payload.end), StateOf(db, job.payload.view).watermark))
  {
    ReachedInv(cfg, before);
    var db := Reached(cfg, before);
    StepKeepsInv(cfg, db, OpRetry(id));
    ActiveUntilSuccess(cfg, Step(cfg, db, OpRetry(id)), id, later, success);
  }

  /** The job is active on the view at every moment of the run. */
  ghost predicate StaysActive(cfg: Settings, db: Database, ops: seq<Op>, view: ViewRef, id: JobId) {
    forall k | 0 <= k <= |ops| :: ActiveIncremental(After(cfg, db, ops[..k]), view, id)
  }

  lemma ActiveUntilSuccess(cfg: Settings, db: Database, id: JobId, later: seq<Op>, success: Op)
    requires Inv(db) && id in db.jobs && IsIncremental(db.jobs[id])
    requires StaysActive(cfg, db, later, db.jobs[id].payload.view, id)
    requires success.OpSucceed? && success.id == id && Owns(After(cfg, db, later), id, success.token, success.now)
    ensures StateOf(Step(cfg, After(cfg, db, later), success), db.jobs[id].payload.view).watermark
            == Some(db.jobs[id].payload.end)
  {
    RunKeepsInv(cfg, db, later);
    assert ActiveIncremental(After(cfg, db, later), db.jobs[id].payload.view, id) by {
      assert later[..|later|] == later;
    }
    KeepsPayload(cfg, db, later, id);
    SuccessSetsWatermark(cfg, After(cfg, db, later), db.jobs[id].payload.view, success);
  }

  lemma SuccessSetsWatermark(cfg: Settings, db: Database, view: ViewRef, success: Op)
    requires Inv(db) && success.OpSucceed? && Owns(db, success.id, success.token, success.now)
    requires ActiveIncremental(db, view, success.id)
    ensures StateOf(Step(cfg, db, success), view).watermark == Some(db.jobs[success.id].payload.end)
  {
    assert Reserved(db, view, success.id);
  }

  lemma {:induction false} KeepsPayload(cfg: Settings, db: Database, ops: seq<Op>, id: JobId)
    requires id in db.jobs
    ensures id in After(cfg, db, ops).jobs
    ensures After(cfg, db, ops).jobs[id].kind == db.jobs[id].kind
    ensures After(cfg, db, ops).jobs[id].payload == db.jobs[id].payload
  {
    if ops != [] {
      KeepsPayload(cfg, db, ops[..|ops| - 1], id);
      StepKeepsJob(cfg, After(cfg, db, ops[..|ops| - 1]), ops[|ops| - 1], id);
    }
  }

  /** The operation is not an accepted retry of an incremental job whose cutoff the watermark has passed. */
  ghost predicate RetryRespectsWatermark(cfg: Settings, db: Database, op: Op) {
    op.OpRetry? && Retry(cfg, db, op.id).reply == Accepted && IsIncremental(db.jobs[op.id]) ==>
      NotBelow(Some(db.jobs[op.id].payload.end), StateOf(db, db.jobs[op.id].payload.view).watermark)
  }

  ghost predicate RetriesRespectWatermark(cfg: Settings, ops: seq<Op>) {
    forall k | 0 <= k < |ops| :: RetryRespectsWatermark(cfg, Reached(cfg, ops[..k]), ops[k])
  }

  /** The cutoff of every active incremental job is at or above the watermark of its view. */
  ghost predicate CutoffsAhead(db: Database) {
    forall view, id | ActiveIncremental(db, view, id) ::
      NotBelow(Some(db.jobs[id].payload.end), StateOf(db, view).watermark)
  }

  lemma CutoffsStep(cfg: Settings, db: Database, op: Op)
    requires Inv(db) && CutoffsAhead(db) && RetryRespectsWatermark(cfg, db, op)
    ensures CutoffsAhead(Step(cfg, db, op))
  {
    var next := Step(cfg, db, op);
    StepKeepsInv(cfg, db, op);
    forall view, id | ActiveIncremental(next, view, id)
      ensures NotBelow(Some(next.jobs[id].payload.end), StateOf(next, view).watermark)
    {
      WatermarkMoves(cfg, db, op, view);
      assert Reserved(next, view, id);
      if ActiveIncremental(db, view, id) {
        StepKeepsJob(cfg, db, op, id);
      } else {
        Activation(cfg, db, op, view, id);
      }
    }
  }

  /** An incremental job becomes active only by being created ahead of the watermark or by a retry. */
  lemma Activation(cfg: Settings, db: Database, op: Op, view: ViewRef, id: JobId)
    requires !ActiveIncremental(db, view, id) && ActiveIncremental(Step(cfg, db, op), view, id)
    ensures (op.OpRetry? && op.id == id && id in db.jobs && IsIncremental(db.jobs[id])
             && db.jobs[id].payload == Step(cfg, db, op).jobs[id].payload)
            || NotBelow(Some(Step(cfg, db, op).jobs[id].payload.end), StateOf(db, view).watermark)
  {
    if Target(op) != Some(id) { StepFrame(cfg, db, op, id); }
  }

  lemma RespectPrefix(cfg: Settings, ops: seq<Op>, n: nat)
    requires RetriesRespectWatermark(cfg, ops) && n <= |ops|
    ensures RetriesRespectWatermark(cfg, ops[..n])
  {
    forall k | 0 <= k < n ensures RetryRespectsWatermark(cfg, Reached(cfg, ops[..n][..k]), ops[..n][k]) {
      assert ops[..n][..k] == ops[..k];
    }
  }

  lemma {:induction false} CutoffsRun(cfg: Settings, ops: seq<Op>)
    requires RetriesRespectWatermark(cfg, ops)
    ensures CutoffsAhead(Reached(cfg, ops))
  {
    if ops != [] {
      var n := |ops| - 1;
      var init := ops[..n];
      RespectPrefix(cfg, ops, n);
      CutoffsRun(cfg, init);
      ReachedInv(cfg, init);
      CutoffsStep(cfg, Reached(cfg, init), ops[n]);
    }
  }

  lemma MonotoneStep(cfg: Settings, db: Database, op: Op, view: ViewRef)
    requires Inv(db) && CutoffsAhead(db)
    ensures NotBelow(StateOf(Step(cfg, db, op), view).watermark, StateOf(db, view).watermark)
  {
    WatermarkMoves(cfg, db, op, view);
    if op.OpSucceed? && Reserved(db, view, op.id) {
      assert ActiveIncremental(db, view, op.id);
    }
  }

  /** Without such a retry a watermark never goes down between any two moments of a run. */
  lemma {:induction false} WatermarkMonotone(cfg: Settings, ops: seq<Op>, k: nat, view: ViewRef)
    requires RetriesRespectWatermark(cfg, ops) && k <= |ops|
    ensures NotBelow(StateOf(Reached(cfg, ops), view).watermark, StateOf(Reached(cfg, ops[..k]), view).watermark)
  {
    if k < |ops| {
      var n := |ops| - 1;
      var init := ops[..n];
      RespectPrefix(cfg, ops, n);
      assert init[..k] == ops[..k];
      WatermarkMonotone(cfg, init, k, view);
      CutoffsRun(cfg, init);
      ReachedInv(cfg, init);
      MonotoneStep(cfg, Reached(cfg, init), ops[n], view);
    } else {
      assert ops[..k] == ops;
    }
  }

  /** An old failed job, a newer successful one, and then the manual retry of the old one. */
  function LoweringRun(view: ViewRef): seq<Op> {
    [OpCreateIncremental(1, view, Some(10), Some(0), 0), OpClaim(1, 1, 0), OpFail(1, 1, true, 0),
     OpCreateIncremental(2, view, Some(20), Some(0), 0), OpClaim(2, 2, 0), OpSucceed(2, 2, None, None, 0),
     OpRetry(1), OpClaim(1, 3, 0), OpSucceed(1, 3, None, None, 0)]
  }

  /** A pending incremental job that holds its reservation, claimed and finished at once. */
  lemma ClaimedAndDone(cfg: Settings, db: Database, view: ViewRef, id: JobId, token: Token)
    requires cfg.leaseSeconds >= 1 && token !in db.issued && Reserved(db, view, id)
    requires ActiveIncremental(db, view, id) && db.jobs[id].status == Pending && !OverBudget(db.jobs[id])
    ensures var done := Step(cfg, Step(cfg, db, OpClaim(id, token, 0)), OpSucceed(id, token, None, None, 0));
            && StateOf(done, view) == MatState(Some(db.jobs[id].payload.end), None, None, Some(id))
            && done.issued == db.issued[token := id]
            && done.jobs.Keys == db.jobs.Keys
            && (forall other | other in db.jobs && other != id :: done.jobs[other] == db.jobs[other])
  {
    assert Step(cfg, db, OpClaim(id, token, 0)) == Claim(cfg, db, id, token, 0);
  }

  lemma ClaimedAndFailed(cfg: Settings, db: Database, view: ViewRef, id: JobId, token: Token)
    requires cfg.leaseSeconds >= 1 && token !in db.issued && Reserved(db, view, id)
    requires ActiveIncremental(db, view, id) && db.jobs[id].status == Pending && !OverBudget(db.jobs[id])
    ensures var done := Step(cfg, Step(cfg, db, OpClaim(id, token, 0)), OpFail(id, token, true, 0));
            && StateOf(done, view) == StateOf(db, view).(active := None)
            && done.issued == db.issued[token := id]
            && done.jobs.Keys == db.jobs.Keys
            && done.jobs[id] == FailedJob(cfg, ClaimedJob(cfg, db.jobs[id], token, 0), true, 0)
  {
    assert Step(cfg, db, OpClaim(id, token, 0)) == Claim(cfg, db, id, token, 0);
  }

  /** The failed first job, as the rest of the run finds it. */
  ghost predicate OldJobFailed(cfg: Settings, db: Database, view: ViewRef) {
    && db.issued.Keys <= {1, 2} && StateOf(db, view).active.None? && view in db.states
    && 1 in db.jobs && db.jobs[1].status == Failed && db.jobs[1].kind == Materialize
    && db.jobs[1].payload == IncrementalPayload(view, 10, 0)
    && db.jobs[1].artifactsCleanedAt.None? && db.jobs[1].artifactExpiresAt.None?
  }

  lemma CreatedFirst(cfg: Settings, view: ViewRef)
    requires cfg.maxAttempts >= 1
    ensures var d1 := Reached(cfg, LoweringRun(view)[..1]);
            && d1.issued == map[] && d1.jobs.Keys == {1} && Reserved(d1, view, 1) && ActiveIncremental(d1, view, 1)
            && d1.jobs[1] == NewJob(cfg, Materialize, IncrementalPayload(view, 10, 0), 0)
            && StateOf(d1, view).watermark.None?
  {
    AfterAppend(cfg, EMPTY_DATABASE, LoweringRun(view), 0);
    assert Reached(cfg, LoweringRun(view)[..1])
        == CreateIncremental(cfg, EMPTY_DATABASE, 1, view, Some(10), Some(0), 0).db;
  }

  lemma FirstFails(cfg: Settings, d1: Database, view: ViewRef)
    requires cfg.maxAttempts >= 1 && cfg.leaseSeconds >= 1
    requires d1.issued == map[] && d1.jobs.Keys == {1} && Reserved(d1, view, 1) && ActiveIncremental(d1, view, 1)
    requires d1.jobs[1] == NewJob(cfg, Materialize, IncrementalPayload(view, 10, 0), 0)
             && StateOf(d1, view).watermark.None?
    ensures var d3 := Step(cfg, Step(cfg, d1, OpClaim(1, 1, 0)), OpFail(1, 1, true, 0));
            OldJobFailed(cfg, d3, view) && d3.issued.Keys == {1} && d3.jobs.Keys == {1}
            && StateOf(d3, view).watermark.None?
  {
    ClaimedAndFailed(cfg, d1, view, 1, 1);
  }

  lemma LoweringFirst(cfg: Settings, view: ViewRef)
    requires cfg.maxAttempts >= 1 && cfg.leaseSeconds >= 1
    ensures var d3 := Reached(cfg, LoweringRun(view)[..3]);
            OldJobFailed(cfg, d3, view) && d3.issued.Keys == {1} && d3.jobs.Keys == {1}
            && StateOf(d3, view).watermark.None?
  {
    var ops := LoweringRun(view);
    CreatedFirst(cfg, view);
    AfterAppend(cfg, EMPTY_DATABASE, ops, 1);
    AfterAppend(cfg, EMPTY_DATABASE, ops, 2);
    FirstFails(cfg, Reached(cfg, ops[..1]), view);
  }

  lemma LoweringSecond(cfg: Settings, view: ViewRef)
    requires cfg.maxAttempts >= 1 && cfg.leaseSeconds >= 1
    ensures var d6 := Reached(cfg, LoweringRun(view)[..6]);
            OldJobFailed(cfg, d6, view) && d6.issued.Keys == {1, 2} && StateOf(d6, view).watermark == Some(20)
  {
    var ops := LoweringRun(view);
    LoweringFirst(cfg, view);
    var d3 := Reached(cfg, ops[..3]);
    AfterAppend(cfg, EMPTY_DATABASE, ops, 3); AfterAppend(cfg, EMPTY_DATABASE, ops, 4);
    AfterAppend(cfg, EMPTY_DATABASE, ops, 5);
    var d4 := CreateIncremental(cfg, d3, 2, view, Some(20), Some(0), 0).db;
    assert Reached(cfg, ops[..4]) == d4;
    ClaimedAndDone(cfg, d4, view, 2, 2);
  }

  /** Watermarks are not monotone over all runs: this one goes from 20 back to 10. */
  lemma RetryCanLowerWatermark(cfg: Settings, view: ViewRef)
    requires cfg.maxAttempts >= 1 && cfg.leaseSeconds >= 1
    ensures StateOf(Reached(cfg, LoweringRun(view)[..6]), view).watermark == Some(20)
    ensures 1 in Reached(cfg, LoweringRun(view)[..6]).jobs && MayRetry(Reached(cfg, LoweringRun(view)[..6]).jobs[1], 0)
    ensures StateOf(Reached(cfg, LoweringRun(view)), view).watermark == Some(10)
  {
    var ops := LoweringRun(view);
    LoweringSecond(cfg, view);
    var d6 := Reached(cfg, ops[..6]);
    AfterAppend(cfg, EMPTY_DATABASE, ops, 6); AfterAppend(cfg, EMPTY_DATABASE, ops, 7);
    AfterAppend(cfg, EMPTY_DATABASE, ops, 8);
    var d7 := Retry(cfg, d6, 1).db;
    assert Reached(cfg, ops[..7]) == d7;
    ClaimedAndDone(cfg, d7, view, 1, 3);
    assert ops[..9] == ops;
  }

  // ---- ledger lifecycle --------------------------------------------------------------------------

  function Rank(s: EventState): nat {
    match s case EventPending => 0 case EventStaged => 1 case EventApplied => 2
  }

  /** How one record may change: never its payload, its state only forward, its job only once. */
  ghost predicate RecordMoves(a: EventRecord, b: EventRecord) {
    && a.payload == b.payload
    && Rank(a.state) <= Rank(b.state)
    && (a.job.Some? ==> b.job == a.job)
  }

  lemma RecordStep(cfg: Settings, db: Database, op: Op, key: EventKey)
    requires LedgerInv(db) && key in db.ledger
    ensures key in Step(cfg, db, op).ledger
    ensures RecordMoves(db.ledger[key], Step(cfg, db, op).ledger[key])
  {
    assert RecordInv(db, key);
  }

  /**
   * Over any run and between any two of its moments: a ledger record keeps its first payload, moves
   * only pending, staged, applied, and is staged for at most one job; it is applied exactly when that
   * job has succeeded.
   */
  lemma {:induction false} LedgerLifecycle(cfg: Settings, ops: seq<Op>, k: nat, key: EventKey)
    requires k <= |ops| && key in Reached(cfg, ops[..k]).ledger
    ensures key in Reached(cfg, ops).ledger
    ensures RecordMoves(Reached(cfg, ops[..k]).ledger[key], Reached(cfg, ops).ledger[key])
    ensures var db := Reached(cfg, ops); var record := db.ledger[key];
            && (record.state == EventPending <==> record.job.None?)
            && (record.job.Some? ==> record.job.value in db.jobs)
            && (record.job.Some? ==>
                  (record.state == EventApplied <==> db.jobs[record.job.value].status == Succeeded))
  {
    ReachedInv(cfg, ops);
    if k < |ops| {
      var init := ops[..|ops| - 1];
      assert init[..k] == ops[..k];
      LedgerLifecycle(cfg, init, k, key);
      ReachedInv(cfg, init);
      RecordStep(cfg, Reached(cfg, init), ops[|ops| - 1], key);
    } else {
      assert ops[..k] == ops;
    }
    assert RecordInv(Reached(cfg, ops), key);
  }
}
