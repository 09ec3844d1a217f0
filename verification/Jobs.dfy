/**
 * The control-plane database of the job service: job rows, one materialization row per feature view
 * and the stream-event ledger, with one function per database transaction.
 * A transaction that the source rolls back returns the database it was given.
 */
module Jobs {
  import opened Common

  /** uuid4 values; job ids are ordered the way their text is. */
  type JobId = nat
  type Token = nat
  type Uri = nat

  datatype JobKind = Backfill | Materialize | OfflineAppend | HistoricalQuery

  datatype Status = Pending | Running | Retrying | Succeeded | Failed | Exhausted | Cancelled

  datatype FailureKind = Retryable | Terminal | LeaseExpired

  datatype Payload =
    | RangePayload(view: ViewRef, start: Time, end: Time)
    | IncrementalPayload(view: ViewRef, end: Time, lookback: nat)
    | AppendPayload(view: ViewRef, staging: Uri)
    | HistoricalPayload(observations: nat)

  datatype Job = Job(
    kind: JobKind, status: Status, payload: Payload, checkpoints: seq<string>,
    attempts: nat, maxAttempts: nat, nextAttemptAt: Option<Time>,
    leaseToken: Option<Token>, leaseExpiresAt: Option<Time>, failureKind: Option<FailureKind>,
    createdAt: Time, finishedAt: Option<Time>, resultUri: Option<Uri>,
    artifactExpiresAt: Option<Time>, artifactsCleanedAt: Option<Time>)

  datatype MatState = MatState(
    watermark: Option<Time>, freshness: Option<Time>,
    active: Option<JobId>, lastSuccess: Option<JobId>)

  /** The durable identity of a stream event. */
  datatype EventKey = EventKey(view: ViewRef, eventId: string)

  /** The canonical payload of a stream event; equal payloads are those with equal fingerprints. */
  datatype EventPayload = EventPayload(entity: map<string, string>, at: Time, values: map<string, string>)

  datatype EventState = EventPending | EventStaged | EventApplied

  datatype EventRecord = EventRecord(payload: EventPayload, state: EventState, job: Option<JobId>)

  /** `issued` is history: the job each lease token was ever issued for. */
  datatype Database = Database(
    jobs: map<JobId, Job>, states: map<ViewRef, MatState>,
    ledger: map<EventKey, EventRecord>, issued: map<Token, JobId>)

  const EMPTY_DATABASE := Database(map[], map[], map[], map[])

  datatype Settings = Settings(
    maxAttempts: nat, leaseSeconds: nat, retryBase: nat, retryMax: nat, resultTtl: nat, lookback: nat)

  /** What a transaction tells its caller. */
  datatype Reply = Accepted | Existing(job: JobId) | Refused | LeaseLost | ReservationLost

  datatype Tx = Tx(db: Database, reply: Reply)

  predicate IsActive(s: Status) {
    s == Pending || s == Retrying || s == Running
  }

  predicate IsIncremental(job: Job) {
    job.kind == Materialize && job.payload.IncrementalPayload?
  }

  function NewJob(cfg: Settings, kind: JobKind, payload: Payload, now: Time): Job {
    Job(kind, Pending, payload, [], 0, cfg.maxAttempts, None, None, None, None, now, None, None, None, None)
  }

  function Expiry(cfg: Settings, job: Job, now: Time): Option<Time> {
    if job.kind == HistoricalQuery then Some(now + Seconds(cfg.resultTtl)) else job.artifactExpiresAt
  }

  /** The columns every transition out of `running` clears. */
  function Unleased(job: Job): Job {
    job.(nextAttemptAt := None, leaseToken := None, leaseExpiresAt := None)
  }

  function WithJob(db: Database, id: JobId, job: Job): Database {
    db.(jobs := db.jobs[id := job])
  }

  // ---- clients -------------------------------------------------------------------------------

  function Create(cfg: Settings, db: Database, id: JobId, kind: JobKind, payload: Payload, now: Time): Database
    requires id !in db.jobs
  {
    WithJob(db, id, NewJob(cfg, kind, payload, now))
  }

  function StateOf(db: Database, view: ViewRef): MatState {
    if view in db.states then db.states[view] else MatState(None, None, None, None)
  }

  /** The job that holds the reservation of a view and still deserves it. */
  predicate HoldsReservation(db: Database, view: ViewRef, id: JobId) {
    && view in db.states && db.states[view].active == Some(id)
    && id in db.jobs && IsActive(db.jobs[id].status)
  }

  function CreateIncremental(cfg: Settings, db: Database, id: JobId, view: ViewRef,
                             end: Option<Time>, lookback: Option<nat>, now: Time): Tx
    requires id !in db.jobs
  {
    var state := StateOf(db, view);
    var cutoff := end.GetOr(now);
    if state.active.Some? && HoldsReservation(db, view, state.active.value) then
      Tx(db, Existing(state.active.value))
    else if state.watermark.Some? && cutoff < state.watermark.value then
      Tx(db, Refused)
    else
      var payload := IncrementalPayload(view, cutoff, lookback.GetOr(cfg.lookback));
      var created := Create(cfg, db, id, Materialize, payload, now);
      Tx(created.(states := db.states[view := state.(active := Some(id))]), Accepted)
  }

  /** Gives the reservation up when the job is the one that holds it. */
  function Released(db: Database, id: JobId, job: Job): map<ViewRef, MatState> {
    if IsIncremental(job) && job.payload.view in db.states && db.states[job.payload.view].active == Some(id) then
      db.states[job.payload.view := db.states[job.payload.view].(active := None)]
    else
      db.states
  }

  function Cancel(cfg: Settings, db: Database, id: JobId, now: Time): Tx {
    if id !in db.jobs || !IsActive(db.jobs[id].status) then
      Tx(db, Refused)
    else
      var job := db.jobs[id];
      var cancelled := Unleased(job).(status := Cancelled, finishedAt := Some(now),
                                      artifactExpiresAt := Expiry(cfg, job, now));
      Tx(WithJob(db, id, cancelled).(states := Released(db, id, job)), Accepted)
  }

  predicate RetryableStatus(job: Job) {
    || job.status == Failed || job.status == Exhausted
    || (job.status == Cancelled && (job.kind == HistoricalQuery || IsIncremental(job)))
  }

  predicate ArtifactsExpired(job: Job, now: Time) {
    job.artifactsCleanedAt.Some? || (job.artifactExpiresAt.Some? && job.artifactExpiresAt.value <= now)
  }

  function Reset(cfg: Settings, job: Job): Job {
    Unleased(job).(status := Pending, failureKind := None, attempts := 0, maxAttempts := cfg.maxAttempts,
                   finishedAt := None, resultUri := None, artifactExpiresAt := None, artifactsCleanedAt := None)
  }

  /** The check of a manual retry, on a row read without a lock. */
  predicate MayRetry(job: Job, now: Time) {
    RetryableStatus(job) && !ArtifactsExpired(job, now)
  }

  /** The statuses the guarded update of a retry accepts; it looks neither at the kind nor at the expiry again. */
  predicate Revivable(s: Status) {
    s == Failed || s == Exhausted || s == Cancelled
  }

  /**
   * The update of a manual retry, which lands some time after its check. Nothing here compares the cutoff of
   * the job with the watermark.
   */
  function Retry(cfg: Settings, db: Database, id: JobId): Tx {
    if id !in db.jobs || !Revivable(db.jobs[id].status) then
      Tx(db, Refused)
    else
      var job := db.jobs[id];
      var reset := WithJob(db, id, Reset(cfg, job));
      if !IsIncremental(job) then
        Tx(reset, Accepted)
      else
        var view := job.payload.view;
        var state := StateOf(db, view);
        if state.active.Some? && state.active.value != id && HoldsReservation(db, view, state.active.value) then
          Tx(db, Refused)
        else
          Tx(reset.(states := db.states[view := state.(active := Some(id))]), Accepted)
  }

  // ---- workers -------------------------------------------------------------------------------

  /** The rows `claim_next` may pick: pending, due retries and lapsed leases. */
  predicate Eligible(job: Job, now: Time) {
    || job.status == Pending
    || (job.status == Retrying && (job.nextAttemptAt.None? || job.nextAttemptAt.value <= now))
    || (job.status == Running && (job.leaseExpiresAt.None? || job.leaseExpiresAt.value <= now))
  }

  predicate OverBudget(job: Job) {
    job.attempts >= job.maxAttempts
  }

  function ExhaustedJob(cfg: Settings, job: Job, now: Time): Job {
    var kind := if job.status == Running then LeaseExpired else job.failureKind.GetOr(Retryable);
    Unleased(job).(status := Exhausted, failureKind := Some(kind), finishedAt := Some(now),
                   artifactExpiresAt := Expiry(cfg, job, now))
  }

  function ClaimedJob(cfg: Settings, job: Job, token: Token, now: Time): Job {
    job.(status := Running, attempts := job.attempts + 1, finishedAt := None, nextAttemptAt := None,
         leaseToken := Some(token), leaseExpiresAt := Some(now + Seconds(cfg.leaseSeconds)),
         failureKind := if job.status == Running then Some(LeaseExpired) else job.failureKind)
  }

  /** One pass of the claim loop over a candidate whose budget is spent. */
  function Exhaust(cfg: Settings, db: Database, id: JobId, now: Time): Database
    requires id in db.jobs && Eligible(db.jobs[id], now) && OverBudget(db.jobs[id])
  {
    var job := db.jobs[id];
    WithJob(db, id, ExhaustedJob(cfg, job, now)).(states := Released(db, id, job))
  }

  /** The pass of the claim loop that issues a lease. */
  function Claim(cfg: Settings, db: Database, id: JobId, token: Token, now: Time): Database
    requires id in db.jobs && Eligible(db.jobs[id], now) && !OverBudget(db.jobs[id])
    requires token !in db.issued
  {
    WithJob(db, id, ClaimedJob(cfg, db.jobs[id], token, now)).(issued := db.issued[token := id])
  }

  /** The guard of every worker update. */
  predicate OwnsRow(jobs: map<JobId, Job>, id: JobId, token: Token, now: Time) {
    && id in jobs && jobs[id].status == Running && jobs[id].leaseToken == Some(token)
    && jobs[id].leaseExpiresAt.Some? && jobs[id].leaseExpiresAt.value > now
  }

  predicate Owns(db: Database, id: JobId, token: Token, now: Time) {
    OwnsRow(db.jobs, id, token, now)
  }

  function Heartbeat(cfg: Settings, db: Database, id: JobId, token: Token, now: Time): Tx {
    if !Owns(db, id, token, now) then
      Tx(db, LeaseLost)
    else
      Tx(WithJob(db, id, db.jobs[id].(leaseExpiresAt := Some(now + Seconds(cfg.leaseSeconds)))), Accepted)
  }

  function Checkpoint(db: Database, id: JobId, token: Token, checkpoints: seq<string>, now: Time): Tx {
    if !Owns(db, id, token, now) then
      Tx(db, LeaseLost)
    else
      Tx(WithJob(db, id, db.jobs[id].(checkpoints := checkpoints)), Accepted)
  }

  /** Moves the staged records of a job to applied. */
  function MarkApplied(ledger: map<EventKey, EventRecord>, id: JobId): map<EventKey, EventRecord> {
    map key | key in ledger ::
      if ledger[key].job == Some(id) && ledger[key].state == EventStaged
      then ledger[key].(state := EventApplied) else ledger[key]
  }

  function SucceededJob(cfg: Settings, job: Job, resultUri: Option<Uri>, now: Time): Job {
    Unleased(job).(status := Succeeded, failureKind := None, finishedAt := Some(now),
                   resultUri := resultUri, artifactExpiresAt := Expiry(cfg, job, now))
  }

  /** The success transaction: the job, its watermark and its ledger records move together or not at all. */
  function Succeed(cfg: Settings, db: Database, id: JobId, token: Token,
                   resultUri: Option<Uri>, freshness: Option<Time>, now: Time): Tx
  {
    if !Owns(db, id, token, now) then
      Tx(db, LeaseLost)
    else
      var job := db.jobs[id];
      var done := WithJob(db, id, SucceededJob(cfg, job, resultUri, now));
      if IsIncremental(job) then
        var view := job.payload.view;
        if view in db.states && db.states[view].active == Some(id) then
          Tx(done.(states := db.states[view := MatState(Some(job.payload.end), freshness, None, Some(id))]), Accepted)
        else
          Tx(db, ReservationLost)
      else if job.kind == OfflineAppend then
        Tx(done.(ledger := MarkApplied(db.ledger, id)), Accepted)
      else
        Tx(done, Accepted)
  }

  function Pow2(n: nat): nat {
    if n == 0 then 1 else 2 * Pow2(n - 1)
  }

  /** Bounded exponential backoff, in seconds, after the given attempt. */
  function Backoff(cfg: Settings, attempt: nat): nat
    requires attempt >= 1
  {
    var raw := cfg.retryBase * Pow2(attempt - 1);
    if raw < cfg.retryMax then raw else cfg.retryMax
  }

  function FailedJob(cfg: Settings, job: Job, terminal: bool, now: Time): Job {
    var ended := Unleased(job);
    if terminal then
      ended.(status := Failed, failureKind := Some(Terminal), finishedAt := Some(now),
             artifactExpiresAt := if job.kind == HistoricalQuery then Some(now + Seconds(cfg.resultTtl)) else None)
    else if OverBudget(job) then
      ended.(status := Exhausted, failureKind := Some(Retryable), finishedAt := Some(now),
             artifactExpiresAt := if job.kind == HistoricalQuery then Some(now + Seconds(cfg.resultTtl)) else None)
    else
      var delay := if job.attempts >= 1 then Backoff(cfg, job.attempts) else 0;
      ended.(status := Retrying, failureKind := Some(Retryable), finishedAt := None,
             nextAttemptAt := Some(now + Seconds(delay)), artifactExpiresAt := None)
  }

  function Fail(cfg: Settings, db: Database, id: JobId, token: Token, terminal: bool, now: Time): Tx {
    if !Owns(db, id, token, now) then
      Tx(db, LeaseLost)
    else
      var job := db.jobs[id];
      var failed := FailedJob(cfg, job, terminal, now);
      var states := if failed.status == Retrying then db.states else Released(db, id, job);
      Tx(WithJob(db, id, failed).(states := states), Accepted)
  }

  /** The jobs an artifact sweep may clean. */
  predicate Cleanable(job: Job, now: Time) {
    && job.kind == HistoricalQuery && !IsActive(job.status)
    && job.artifactExpiresAt.Some? && job.artifactExpiresAt.value <= now
    && job.artifactsCleanedAt.None?
  }

  function Clean(db: Database, id: JobId, now: Time): Database
    requires id in db.jobs && Cleanable(db.jobs[id], now)
  {
    WithJob(db, id, db.jobs[id].(artifactsCleanedAt := Some(now)))
  }

  // ---- stream ledger -------------------------------------------------------------------------

  /** The write-ahead registration of one event; the stored record never changes on a repeat. */
  function Register(db: Database, key: EventKey, payload: EventPayload): Database {
    if key in db.ledger then db
    else db.(ledger := db.ledger[key := EventRecord(payload, EventPending, None)])
  }

  /** The records of a flushed buffer are all still pending (otherwise the flush raises). */
  predicate AllPending(db: Database, keys: set<EventKey>) {
    forall key | key in keys :: key in db.ledger && db.ledger[key].state == EventPending
  }

  /** The staging transaction: it creates the append job and marks the records staged. */
  function Stage(cfg: Settings, db: Database, id: JobId, view: ViewRef, staging: Uri,
                 keys: set<EventKey>, now: Time): Tx
    requires id !in db.jobs
  {
    if !AllPending(db, keys) then
      Tx(db, Refused)
    else
      var created := Create(cfg, db, id, OfflineAppend, AppendPayload(view, staging), now);
      Tx(created.(ledger := map key | key in db.ledger ::
           if key in keys then db.ledger[key].(state := EventStaged, job := Some(id)) else db.ledger[key]),
         Accepted)
  }

  // ---- runs ----------------------------------------------------------------------------------

  /** Every transaction any client, worker, sweep or stream consumer can commit. */
  datatype Op =
    | OpCreate(id: JobId, kind: JobKind, view: ViewRef, start: Time, end: Time, now: Time)
    | OpCreateHistorical(id: JobId, observations: nat, now: Time)
    | OpCreateIncremental(id: JobId, view: ViewRef, cutoff: Option<Time>, lookback: Option<nat>, now: Time)
    | OpCancel(id: JobId, now: Time)
    | OpRetry(id: JobId)
    | OpExhaust(id: JobId, now: Time)
    | OpClaim(id: JobId, token: Token, now: Time)
    | OpHeartbeat(id: JobId, token: Token, now: Time)
    | OpCheckpoint(id: JobId, token: Token, checkpoints: seq<string>, now: Time)
    | OpSucceed(id: JobId, token: Token, resultUri: Option<Uri>, freshness: Option<Time>, now: Time)
    | OpFail(id: JobId, token: Token, terminal: bool, now: Time)
    | OpClean(id: JobId, now: Time)
    | OpRegister(key: EventKey, payload: EventPayload)
    | OpStage(id: JobId, view: ViewRef, staging: Uri, keys: set<EventKey>, now: Time)

  /**
   * One transaction. A retry may land without its check having been made just before, so runs include those in
   * which other transactions fall between the two. A step whose uuid is not fresh does nothing, so that runs
   * over arbitrary operation sequences are exactly the runs in which uuid4 never repeats.
   */
  function Step(cfg: Settings, db: Database, op: Op): Database {
    match op
    case OpCreate(id, kind, view, start, end, now) =>
      if id !in db.jobs && (kind == Backfill || kind == Materialize) && start < end
      then Create(cfg, db, id, kind, RangePayload(view, start, end), now) else db
    case OpCreateHistorical(id, n, now) =>
      if id !in db.jobs then Create(cfg, db, id, HistoricalQuery, HistoricalPayload(n), now) else db
    case OpCreateIncremental(id, view, cutoff, lookback, now) =>
      if id !in db.jobs then CreateIncremental(cfg, db, id, view, cutoff, lookback, now).db else db
    case OpCancel(id, now) => Cancel(cfg, db, id, now).db
    case OpRetry(id) => Retry(cfg, db, id).db
    case OpExhaust(id, now) =>
      if id in db.jobs && Eligible(db.jobs[id], now) && OverBudget(db.jobs[id])
      then Exhaust(cfg, db, id, now) else db
    case OpClaim(id, token, now) =>
      if id in db.jobs && Eligible(db.jobs[id], now) && !OverBudget(db.jobs[id]) && token !in db.issued
      then Claim(cfg, db, id, token, now) else db
    case OpHeartbeat(id, token, now) => Heartbeat(cfg, db, id, token, now).db
    case OpCheckpoint(id, token, checkpoints, now) => Checkpoint(db, id, token, checkpoints, now).db
    case OpSucceed(id, token, resultUri, freshness, now) =>
      Succeed(cfg, db, id, token, resultUri, freshness, now).db
    case OpFail(id, token, terminal, now) => Fail(cfg, db, id, token, terminal, now).db
    case OpClean(id, now) =>
      if id in db.jobs && Cleanable(db.jobs[id], now) then Clean(db, id, now) else db
    case OpRegister(key, payload) => Register(db, key, payload)
    case OpStage(id, view, staging, keys, now) =>
      if id !in db.jobs && (forall key | key in keys :: key.view == view)
      then Stage(cfg, db, id, view, staging, keys, now).db else db
  }

  /** The database after a run of transactions. */
  function After(cfg: Settings, db: Database, ops: seq<Op>): Database {
    if ops == [] then db
    else Step(cfg, After(cfg, db, ops[..|ops| - 1]), ops[|ops| - 1])
  }
}
