/**
 * The stream-to-offline pipeline: ledger, volatile buffers, staging tables, append attempts and view
 * tables. The consumer may crash between any two steps; append attempts of one job may overlap, lapse and
 * go on as stale attempts. Reading, comparing and appending is one step of an attempt.
 */
module StreamPipeline {
  import opened Common
  import opened Jobs
  import opened JobInvariants
  import opened JobProtocol
  import opened UnseenRows

  type EventRow = Row<EventPayload>

  type Buffer = map<string, EventPayload>

  datatype AppendPhase = Started | Appended | Recorded | Finished

  datatype AppendAttempt = AppendAttempt(job: JobId, phase: AppendPhase)

  /** A flush that has written its staging table and not yet run the staging transaction. */
  datatype Flush = Flush(view: ViewRef, staging: Uri)

  /** `uris` is history: every staging location ever written. */
  datatype Pipeline = Pipeline(
    db: Database, buffers: map<ViewRef, Buffer>, flush: Option<Flush>,
    staging: map<Uri, seq<EventRow>>, uris: set<Uri>,
    views: map<ViewRef, seq<EventRow>>, attempts: map<Token, AppendAttempt>)

  const EMPTY_PIPELINE := Pipeline(EMPTY_DATABASE, map[], None, map[], {}, map[], map[])

  function RowsIn(views: map<ViewRef, seq<EventRow>>, view: ViewRef): seq<EventRow> {
    if view in views then views[view] else []
  }

  function ViewRows(p: Pipeline, view: ViewRef): seq<EventRow> {
    RowsIn(p.views, view)
  }

  function BufferIn(buffers: map<ViewRef, Buffer>, view: ViewRef): Buffer {
    if view in buffers then buffers[view] else map[]
  }

  function KeysOf(view: ViewRef, buffer: Buffer): set<EventKey> {
    set id | id in buffer :: EventKey(view, id)
  }

  /** The staging rows of a buffer: one row per buffered identity, in some order. */
  ghost predicate RowsOfBuffer(rows: seq<EventRow>, buffer: Buffer) {
    && DistinctIds(rows)
    && (forall i | 0 <= i < |rows| :: rows[i].eventId in buffer && buffer[rows[i].eventId] == rows[i].content)
    && (forall id | id in buffer :: HasId(rows, id))
  }

  ghost predicate DistinctIds(rows: seq<EventRow>) {
    forall i, j | 0 <= i < j < |rows| :: rows[i].eventId != rows[j].eventId
  }

  predicate IsAppend(db: Database, id: JobId) {
    id in db.jobs && db.jobs[id].kind == OfflineAppend && db.jobs[id].payload.AppendPayload?
  }

  predicate SucceedsAppend(db: Database, op: Op) {
    op.OpSucceed? && op.id in db.jobs && db.jobs[op.id].kind == OfflineAppend
  }

  // ---- the actions -----------------------------------------------------------------------------------

  /** `_buffer`, for a registered record that is still pending: one entry per durable identity. */
  function BufferEvent(p: Pipeline, key: EventKey): Pipeline {
    if p.flush.None? && key in p.db.ledger && p.db.ledger[key].state == EventPending
       && key.eventId !in BufferIn(p.buffers, key.view) then
      p.(buffers := p.buffers[key.view := BufferIn(p.buffers, key.view)[key.eventId := p.db.ledger[key].payload]])
    else p
  }

  /** The first half of `_flush_view`: the buffer goes to a fresh staging location. */
  ghost function WriteStaging(p: Pipeline, view: ViewRef, staging: Uri, rows: seq<EventRow>): Pipeline {
    if p.flush.None? && staging !in p.uris && RowsOfBuffer(rows, BufferIn(p.buffers, view)) then
      p.(flush := Some(Flush(view, staging)), staging := p.staging[staging := rows], uris := p.uris + {staging})
    else p
  }

  /** The second half of `_flush_view`: the staging transaction. */
  function CommitStaging(cfg: Settings, p: Pipeline, id: JobId, now: Time): Pipeline {
    if p.flush.Some? && id !in p.db.jobs then
      var f := p.flush.value;
      p.(flush := None,
         db := Stage(cfg, p.db, id, f.view, f.staging, KeysOf(f.view, BufferIn(p.buffers, f.view)), now).db)
    else p
  }

  function StartAppend(p: Pipeline, token: Token): Pipeline {
    if token in p.db.issued && IsAppend(p.db, p.db.issued[token]) && token !in p.attempts then
      p.(attempts := p.attempts[token := AppendAttempt(p.db.issued[token], Started)])
    else p
  }

  /** Load the staging table, keep what the view lacks, append it; a conflict or a missing table raises. */
  ghost function AppendUnseen(p: Pipeline, token: Token): Pipeline {
    if token in p.attempts && p.attempts[token].phase == Started && IsAppend(p.db, p.attempts[token].job)
       && p.db.jobs[p.attempts[token].job].payload.staging in p.staging then
      var payload := p.db.jobs[p.attempts[token].job].payload;
      var existing, rows := ViewRows(p, payload.view), p.staging[payload.staging];
      if Conflicting(existing + rows) then p
      else p.(views := p.views[payload.view := existing + FirstUnseen(existing, rows)],
              attempts := p.attempts[token := p.attempts[token].(phase := Appended)])
    else p
  }

  function RecordAppend(p: Pipeline, token: Token, note: string, now: Time): Pipeline {
    if token in p.attempts && p.attempts[token].phase == Appended
       && Checkpoint(p.db, p.attempts[token].job, token, [note], now).reply == Accepted then
      p.(db := Checkpoint(p.db, p.attempts[token].job, token, [note], now).db,
         attempts := p.attempts[token := p.attempts[token].(phase := Recorded)])
    else p
  }

  function FinishAppend(cfg: Settings, p: Pipeline, token: Token, now: Time): Pipeline {
    if token in p.attempts && p.attempts[token].phase == Recorded
       && Succeed(cfg, p.db, p.attempts[token].job, token, None, None, now).reply == Accepted then
      p.(db := Succeed(cfg, p.db, p.attempts[token].job, token, None, None, now).db,
         attempts := p.attempts[token := p.attempts[token].(phase := Finished)])
    else p
  }

  /** Best-effort cleanup, by the attempt that succeeded. */
  function DeleteStaging(p: Pipeline, token: Token): Pipeline {
    if token in p.attempts && p.attempts[token].phase == Finished && IsAppend(p.db, p.attempts[token].job) then
      p.(staging := p.staging - {p.db.jobs[p.attempts[token].job].payload.staging})
    else p
  }

  datatype Action =
    | DoTransaction(op: Op)                                // any transaction but staging and append success
    | DoBuffer(key: EventKey)                              // after registration, or on recovery
    | DoDropBuffer(view: ViewRef)                          // after a flush, or part of a crash
    | DoAbandonFlush                                       // a crash or an exception inside the flush
    | DoWriteStaging(view: ViewRef, staging: Uri, rows: seq<EventRow>)
    | DoCommitStaging(id: JobId, now: Time)
    | DoStart(token: Token)
    | DoAppend(token: Token)
    | DoRecord(token: Token, note: string, now: Time)
    | DoFinish(token: Token, now: Time)
    | DoDelete(token: Token)

  ghost function Act(cfg: Settings, p: Pipeline, a: Action): Pipeline {
    match a
    case DoTransaction(op) =>
      if op.OpStage? || SucceedsAppend(p.db, op) then p else p.(db := Step(cfg, p.db, op))
    case DoBuffer(key) => BufferEvent(p, key)
    case DoDropBuffer(view) => if p.flush.None? then p.(buffers := p.buffers[view := map[]]) else p
    case DoAbandonFlush => p.(flush := None)
    case DoWriteStaging(view, staging, rows) => WriteStaging(p, view, staging, rows)
    case DoCommitStaging(id, now) => CommitStaging(cfg, p, id, now)
    case DoStart(token) => StartAppend(p, token)
    case DoAppend(token) => AppendUnseen(p, token)
    case DoRecord(token, note, now) => RecordAppend(p, token, note, now)
    case DoFinish(token, now) => FinishAppend(cfg, p, token, now)
    case DoDelete(token) => DeleteStaging(p, token)
  }

  ghost function Run(cfg: Settings, actions: seq<Action>): Pipeline {
    if actions == [] then EMPTY_PIPELINE
    else Act(cfg, Run(cfg, actions[..|actions| - 1]), actions[|actions| - 1])
  }

  // ---- what a run keeps ----------------------------------------------------------------------------

  /** Buffered payloads are the registered ones. */
  ghost predicate BuffersRegistered(ledger: map<EventKey, EventRecord>, buffers: map<ViewRef, Buffer>) {
    forall view, id | view in buffers && id in buffers[view] ::
      EventKey(view, id) in ledger && ledger[EventKey(view, id)].payload == buffers[view][id]
  }

  /** The row is the registered payload of a record of this job. */
  ghost predicate RowOfJob(ledger: map<EventKey, EventRecord>, id: JobId, view: ViewRef, row: EventRow) {
    && EventKey(view, row.eventId) in ledger
    && ledger[EventKey(view, row.eventId)].job == Some(id)
    && ledger[EventKey(view, row.eventId)].payload == row.content
  }

  /** The rows are exactly the registered payloads of the job's records. */
  ghost predicate RowsOfJob(ledger: map<EventKey, EventRecord>, id: JobId, view: ViewRef, rows: seq<EventRow>) {
    && DistinctIds(rows)
    && (forall i | 0 <= i < |rows| :: RowOfJob(ledger, id, view, rows[i]))
    && (forall key | key in ledger && ledger[key].job == Some(id) :: HasId(rows, key.eventId))
  }

  /** While it exists, the staging table of an append job is exactly the rows of the job's records. */
  ghost predicate StagingExact(db: Database, staging: map<Uri, seq<EventRow>>, uris: set<Uri>, id: JobId)
    requires IsAppend(db, id)
  {
    var payload := db.jobs[id].payload;
    && payload.staging in uris
    && (if payload.staging in staging then RowsOfJob(db.ledger, id, payload.view, staging[payload.staging])
        else db.jobs[id].status == Succeeded)
  }

  ghost predicate StagingInv(db: Database, staging: map<Uri, seq<EventRow>>, uris: set<Uri>) {
    && (forall id | IsAppend(db, id) :: StagingExact(db, staging, uris, id))
    && (forall a, b | IsAppend(db, a) && IsAppend(db, b) && a != b ::
          db.jobs[a].payload.staging != db.jobs[b].payload.staging)
  }

  ghost predicate FlushInv(db: Database, flush: Option<Flush>, staging: map<Uri, seq<EventRow>>, uris: set<Uri>,
                           buffers: map<ViewRef, Buffer>) {
    flush.Some? ==>
      var f := flush.value;
      && f.staging in uris && f.staging in staging
      && RowsOfBuffer(staging[f.staging], BufferIn(buffers, f.view))
      && (forall id | IsAppend(db, id) :: db.jobs[id].payload.staging != f.staging)
  }

  /** Every view row is the registered payload of one staged or applied record, and no identity has two rows. */
  ghost predicate ViewsExact(ledger: map<EventKey, EventRecord>, views: map<ViewRef, seq<EventRow>>) {
    forall view | view in views :: RowsExact(ledger, view, views[view])
  }

  ghost predicate RowsExact(ledger: map<EventKey, EventRecord>, view: ViewRef, rows: seq<EventRow>) {
    DistinctIds(rows) && forall i | 0 <= i < |rows| :: RowRecorded(ledger, view, rows[i])
  }

  ghost predicate RowRecorded(ledger: map<EventKey, EventRecord>, view: ViewRef, row: EventRow) {
    && EventKey(view, row.eventId) in ledger
    && ledger[EventKey(view, row.eventId)].payload == row.content
    && ledger[EventKey(view, row.eventId)].state != EventPending
  }

  /** All records of the job have their row in the view. */
  ghost predicate Delivered(ledger: map<EventKey, EventRecord>, views: map<ViewRef, seq<EventRow>>, id: JobId) {
    forall key | key in ledger && ledger[key].job == Some(id) :: HasId(RowsIn(views, key.view), key.eventId)
  }

  ghost predicate AttemptInv(db: Database, views: map<ViewRef, seq<EventRow>>, token: Token, attempt: AppendAttempt) {
    && IsAppend(db, attempt.job)
    && token in db.issued && db.issued[token] == attempt.job
    && (attempt.phase != Started ==> Delivered(db.ledger, views, attempt.job))
    && (attempt.phase == Finished ==> db.jobs[attempt.job].status == Succeeded)
  }

  ghost predicate DeliveryInv(db: Database, views: map<ViewRef, seq<EventRow>>, attempts: map<Token, AppendAttempt>) {
    && (forall token | token in attempts :: AttemptInv(db, views, token, attempts[token]))
    && (forall id | IsAppend(db, id) && db.jobs[id].status == Succeeded :: Delivered(db.ledger, views, id))
  }

  ghost predicate PipelineInv(p: Pipeline) {
    && Inv(p.db)
    && BuffersRegistered(p.db.ledger, p.buffers)
    && StagingInv(p.db, p.staging, p.uris)
    && FlushInv(p.db, p.flush, p.staging, p.uris, p.buffers)
    && ViewsExact(p.db.ledger, p.views)
    && DeliveryInv(p.db, p.views, p.attempts)
  }

  // ---- transactions other than staging ---------------------------------------------------------------

  /** What a ledger keeps for everyone who relies on it: payloads, assignments to jobs, and progress. */
  ghost predicate LedgerKeeps(a: map<EventKey, EventRecord>, b: map<EventKey, EventRecord>) {
    && (forall key | key in a :: key in b && RecordMoves(a[key], b[key]) && b[key].job == a[key].job)
    && (forall key | key in b && key !in a :: b[key].job.None?)
  }

  lemma OtherTransaction(cfg: Settings, db: Database, op: Op)
    requires Inv(db) && !op.OpStage?
    ensures LedgerKeeps(db.ledger, Step(cfg, db, op).ledger)
  {
    var next := Step(cfg, db, op);
    forall key | key in db.ledger ensures key in next.ledger && RecordMoves(db.ledger[key], next.ledger[key]) {
      RecordStep(cfg, db, op, key);
    }
  }

  /** A transaction other than staging creates no append job. */
  lemma SameAppends(cfg: Settings, db: Database, op: Op, id: JobId)
    requires !op.OpStage?
    ensures IsAppend(Step(cfg, db, op), id) <==> IsAppend(db, id)
    ensures IsAppend(db, id) ==> Step(cfg, db, op).jobs[id].payload == db.jobs[id].payload
  {
    if id in db.jobs {
      StepKeepsJob(cfg, db, op, id);
    } else if Target(op) != Some(id) {
      StepFrame(cfg, db, op, id);
    }
  }

  lemma KeptBuffers(a: map<EventKey, EventRecord>, b: map<EventKey, EventRecord>, buffers: map<ViewRef, Buffer>)
    requires LedgerKeeps(a, b) && BuffersRegistered(a, buffers)
    ensures BuffersRegistered(b, buffers)
  {}

  lemma KeptViews(a: map<EventKey, EventRecord>, b: map<EventKey, EventRecord>, views: map<ViewRef, seq<EventRow>>)
    requires (forall key | key in a :: key in b && RecordMoves(a[key], b[key])) && ViewsExact(a, views)
    ensures ViewsExact(b, views)
  {
    forall view, i | view in views && 0 <= i < |views[view]| ensures RowRecorded(b, view, views[view][i]) {
      assert RowsExact(a, view, views[view]) && RowRecorded(a, view, views[view][i]);
    }
    forall view | view in views ensures RowsExact(b, view, views[view]) {
      assert RowsExact(a, view, views[view]);
    }
  }

  lemma KeptRows(a: map<EventKey, EventRecord>, b: map<EventKey, EventRecord>, id: JobId, view: ViewRef,
                 rows: seq<EventRow>)
    requires LedgerKeeps(a, b) && RowsOfJob(a, id, view, rows)
    ensures RowsOfJob(b, id, view, rows)
  {
    forall i | 0 <= i < |rows| ensures RowOfJob(b, id, view, rows[i]) { assert RowOfJob(a, id, view, rows[i]); }
  }

  lemma KeptDelivery(a: map<EventKey, EventRecord>, b: map<EventKey, EventRecord>, views: map<ViewRef, seq<EventRow>>,
                     id: JobId)
    requires LedgerKeeps(a, b) && Delivered(a, views, id)
    ensures Delivered(b, views, id)
  {}

  lemma KeptStaging(cfg: Settings, db: Database, op: Op, staging: map<Uri, seq<EventRow>>, uris: set<Uri>)
    requires Inv(db) && !op.OpStage? && StagingInv(db, staging, uris)
    ensures StagingInv(Step(cfg, db, op), staging, uris)
  {
    var next := Step(cfg, db, op);
    OtherTransaction(cfg, db, op);
    forall id | IsAppend(next, id) ensures StagingExact(next, staging, uris, id) {
      SameAppends(cfg, db, op, id);
      StepKeepsJob(cfg, db, op, id);
      assert StagingExact(db, staging, uris, id);
      var payload := db.jobs[id].payload;
      if payload.staging in staging { KeptRows(db.ledger, next.ledger, id, payload.view, staging[payload.staging]); }
    }
    forall x, y | IsAppend(next, x) && IsAppend(next, y) && x != y
      ensures next.jobs[x].payload.staging != next.jobs[y].payload.staging
    {
      SameAppends(cfg, db, op, x);
      SameAppends(cfg, db, op, y);
    }
  }

  /** Any transaction but staging keeps every part of the invariant that does not speak of attempts. */
  lemma TransactionKeeps(cfg: Settings, p: Pipeline, op: Op)
    requires PipelineInv(p) && !op.OpStage?
    ensures var db := Step(cfg, p.db, op);
            && Inv(db) && BuffersRegistered(db.ledger, p.buffers) && StagingInv(db, p.staging, p.uris)
            && FlushInv(db, p.flush, p.staging, p.uris, p.buffers) && ViewsExact(db.ledger, p.views)
  {
    var db := Step(cfg, p.db, op);
    StepKeepsInv(cfg, p.db, op);
    OtherTransaction(cfg, p.db, op);
    KeptBuffers(p.db.ledger, db.ledger, p.buffers);
    KeptStaging(cfg, p.db, op, p.staging, p.uris);
    KeptViews(p.db.ledger, db.ledger, p.views);
    forall id | IsAppend(db, id) ensures IsAppend(p.db, id) && db.jobs[id].payload == p.db.jobs[id].payload {
      SameAppends(cfg, p.db, op, id);
    }
  }

  lemma AttemptKept(cfg: Settings, db: Database, op: Op, views: map<ViewRef, seq<EventRow>>, token: Token,
                    attempt: AppendAttempt)
    requires Inv(db) && !op.OpStage? && AttemptInv(db, views, token, attempt)
    ensures AttemptInv(Step(cfg, db, op), views, token, attempt)
  {
    OtherTransaction(cfg, db, op);
    SameAppends(cfg, db, op, attempt.job);
    StepKeepsJob(cfg, db, op, attempt.job);
    StepKeepsIssued(cfg, db, op, token);
    if attempt.phase != Started { KeptDelivery(db.ledger, Step(cfg, db, op).ledger, views, attempt.job); }
  }

  /** The job an operation makes succeed has to have been delivered; every other success was one before. */
  lemma SuccessesDelivered(cfg: Settings, db: Database, op: Op, views: map<ViewRef, seq<EventRow>>, id: JobId)
    requires Inv(db) && !op.OpStage?
    requires IsAppend(Step(cfg, db, op), id) && Step(cfg, db, op).jobs[id].status == Succeeded
    requires forall j | IsAppend(db, j) && db.jobs[j].status == Succeeded :: Delivered(db.ledger, views, j)
    requires SucceedsAppend(db, op) ==> Delivered(db.ledger, views, op.id)
    ensures Delivered(Step(cfg, db, op).ledger, views, id)
  {
    SameAppends(cfg, db, op, id);
    StepKeepsJob(cfg, db, op, id);
    OtherTransaction(cfg, db, op);
    if Target(op) != Some(id) { StepFrame(cfg, db, op, id); }
    assert Delivered(db.ledger, views, id);
    KeptDelivery(db.ledger, Step(cfg, db, op).ledger, views, id);
  }

  lemma DeliveryKept(cfg: Settings, db: Database, op: Op, views: map<ViewRef, seq<EventRow>>,
                     attempts: map<Token, AppendAttempt>)
    requires Inv(db) && !op.OpStage? && DeliveryInv(db, views, attempts)
    requires SucceedsAppend(db, op) ==> Delivered(db.ledger, views, op.id)
    ensures DeliveryInv(Step(cfg, db, op), views, attempts)
  {
    var next := Step(cfg, db, op);
    forall token | token in attempts ensures AttemptInv(next, views, token, attempts[token]) {
      AttemptKept(cfg, db, op, views, token, attempts[token]);
    }
    forall id | IsAppend(next, id) && next.jobs[id].status == Succeeded ensures Delivered(next.ledger, views, id) {
      SuccessesDelivered(cfg, db, op, views, id);
    }
  }

  // ---- the consumer ----------------------------------------------------------------------------------

  lemma BufferKeeps(p: Pipeline, key: EventKey)
    requires PipelineInv(p)
    ensures PipelineInv(BufferEvent(p, key))
  {
    var next := BufferEvent(p, key);
    if next != p {
      forall view, id | view in next.buffers && id in next.buffers[view]
        ensures EventKey(view, id) in p.db.ledger && p.db.ledger[EventKey(view, id)].payload == next.buffers[view][id]
      {
        if view == key.view && id != key.eventId { assert id in p.buffers[view]; }
      }
    }
  }

  lemma WriteKeeps(p: Pipeline, view: ViewRef, staging: Uri, rows: seq<EventRow>)
    requires PipelineInv(p)
    ensures PipelineInv(WriteStaging(p, view, staging, rows))
  {
    var next := WriteStaging(p, view, staging, rows);
    forall id | IsAppend(p.db, id)
      ensures StagingExact(next.db, next.staging, next.uris, id)
      ensures next == p || p.db.jobs[id].payload.staging != staging
    {
      assert StagingExact(p.db, p.staging, p.uris, id);
    }
  }

  /** What the staging transaction does to the ledger. */
  lemma StageLedgerMoves(cfg: Settings, db: Database, id: JobId, view: ViewRef, staging: Uri, keys: set<EventKey>,
                         now: Time)
    requires Inv(db) && id !in db.jobs && AllPending(db, keys)
    ensures var next := Stage(cfg, db, id, view, staging, keys, now).db;
            && next.ledger.Keys == db.ledger.Keys
            && (forall key | key in db.ledger :: RecordMoves(db.ledger[key], next.ledger[key]))
            && (forall key | key in db.ledger ::
                  next.ledger[key].job == if key in keys then Some(id) else db.ledger[key].job)
            && (forall key | key in db.ledger :: db.ledger[key].job != Some(id))
  {
    forall key | key in db.ledger ensures RecordInv(db, key) {}
  }

  /** Staging gives the new job exactly the records of the flushed buffer, so exactly the rows already written. */
  lemma NewJobStaged(p: Pipeline, id: JobId, ledger: map<EventKey, EventRecord>)
    requires PipelineInv(p) && p.flush.Some? && ledger.Keys == p.db.ledger.Keys
    requires var keys := KeysOf(p.flush.value.view, BufferIn(p.buffers, p.flush.value.view));
             forall key | key in ledger ::
               (ledger[key].job == Some(id) <==> key in keys) && ledger[key].payload == p.db.ledger[key].payload
    ensures RowsOfJob(ledger, id, p.flush.value.view, p.staging[p.flush.value.staging])
  {
    var f := p.flush.value;
    var rows, buffer := p.staging[f.staging], BufferIn(p.buffers, f.view);
    forall i | 0 <= i < |rows| ensures RowOfJob(ledger, id, f.view, rows[i]) {
      assert rows[i].eventId in buffer;
      assert EventKey(f.view, rows[i].eventId) in KeysOf(f.view, buffer);
    }
  }

  lemma StagingKeeps(cfg: Settings, p: Pipeline, id: JobId, now: Time)
    requires PipelineInv(p)
    ensures PipelineInv(CommitStaging(cfg, p, id, now))
  {
    var next := CommitStaging(cfg, p, id, now);
    if p.flush.Some? && id !in p.db.jobs {
      var f := p.flush.value;
      var keys := KeysOf(f.view, BufferIn(p.buffers, f.view));
      if AllPending(p.db, keys) {
        StageKeepsInv(cfg, p.db, id, f.view, f.staging, keys, now);
        StageLedgerMoves(cfg, p.db, id, f.view, f.staging, keys, now);
        NewJobStaged(p, id, next.db.ledger);
        StagedKeepsRest(cfg, p, next, id, f.view, f.staging, keys, now);
        KeptViews(p.db.ledger, next.db.ledger, p.views);
      }
    }
  }

  lemma StageKeepsInv(cfg: Settings, db: Database, id: JobId, view: ViewRef, staging: Uri, keys: set<EventKey>,
                      now: Time)
    requires Inv(db) && id !in db.jobs && forall key | key in keys :: key.view == view
    ensures Inv(Stage(cfg, db, id, view, staging, keys, now).db)
  {
    StepKeepsInv(cfg, db, OpStage(id, view, staging, keys, now));
  }

  lemma StagedKeepsRest(cfg: Settings, p: Pipeline, next: Pipeline, id: JobId, view: ViewRef, staging: Uri,
                        keys: set<EventKey>, now: Time)
    requires PipelineInv(p) && id !in p.db.jobs && AllPending(p.db, keys)
    requires p.flush == Some(Flush(view, staging)) && keys == KeysOf(view, BufferIn(p.buffers, view))
    requires next == p.(flush := None, db := Stage(cfg, p.db, id, view, staging, keys, now).db)
    requires RowsOfJob(next.db.ledger, id, view, p.staging[staging])
    ensures StagingInv(next.db, next.staging, next.uris)
    ensures DeliveryInv(next.db, next.views, next.attempts)
  {
    StageLedgerMoves(cfg, p.db, id, view, staging, keys, now);
    forall key | key in keys ensures p.db.ledger[key].job.None? { assert RecordInv(p.db, key); }
    forall j | IsAppend(next.db, j) ensures StagingExact(next.db, next.staging, next.uris, j) {
      if j != id {
        assert StagingExact(p.db, p.staging, p.uris, j);
        var payload := p.db.jobs[j].payload;
        if payload.staging in p.staging {
          var rows := p.staging[payload.staging];
          forall i | 0 <= i < |rows| ensures RowOfJob(next.db.ledger, j, payload.view, rows[i]) {
            assert RowOfJob(p.db.ledger, j, payload.view, rows[i]);
          }
        }
      }
    }
    forall j | IsAppend(p.db, j) && Delivered(p.db.ledger, p.views, j) ensures Delivered(next.db.ledger, p.views, j) {}
    forall token | token in p.attempts ensures AttemptInv(next.db, p.views, token, p.attempts[token]) {
      assert AttemptInv(p.db, p.views, token, p.attempts[token]);
    }
  }

  // ---- the appenders ---------------------------------------------------------------------------------

  /** Staging rows and view rows of one identity are equal, so the filter never refuses an append. */
  lemma NeverConflicts(p: Pipeline, id: JobId)
    requires PipelineInv(p) && IsAppend(p.db, id) && p.db.jobs[id].payload.staging in p.staging
    ensures !Conflicting(ViewRows(p, p.db.jobs[id].payload.view) + p.staging[p.db.jobs[id].payload.staging])
  {
    var payload := p.db.jobs[id].payload;
    var all := ViewRows(p, payload.view) + p.staging[payload.staging];
    assert StagingExact(p.db, p.staging, p.uris, id);
    assert payload.view in p.views ==> RowsExact(p.db.ledger, payload.view, p.views[payload.view]);
    forall i | 0 <= i < |all|
      ensures EventKey(payload.view, all[i].eventId) in p.db.ledger
      ensures p.db.ledger[EventKey(payload.view, all[i].eventId)].payload == all[i].content
    {
      if i < |ViewRows(p, payload.view)| {
        assert RowRecorded(p.db.ledger, payload.view, all[i]);
      } else {
        assert RowOfJob(p.db.ledger, id, payload.view, all[i]);
      }
    }
  }

  lemma JoinedIds(existing: seq<EventRow>, unseen: seq<EventRow>)
    requires DistinctIds(existing) && DistinctIds(unseen)
    requires forall row | row in unseen :: !HasId(existing, row.eventId)
    ensures DistinctIds(existing + unseen)
    ensures forall eventId | HasId(existing, eventId) || HasId(unseen, eventId) :: HasId(existing + unseen, eventId)
  {
    var rows := existing + unseen;
    forall i, j | 0 <= i < j < |rows| ensures rows[i].eventId != rows[j].eventId {
      if j >= |existing| {
        assert unseen[j - |existing|] in unseen && !HasId(existing, rows[j].eventId);
      }
    }
    forall eventId | HasId(existing, eventId) || HasId(unseen, eventId) ensures HasId(rows, eventId) {
      if HasId(existing, eventId) {
        var k :| 0 <= k < |existing| && existing[k].eventId == eventId;
        assert rows[k].eventId == eventId;
      } else {
        var k :| 0 <= k < |unseen| && unseen[k].eventId == eventId;
        assert rows[|existing| + k].eventId == eventId;
      }
    }
  }

  lemma AppendKeepsRows(ledger: map<EventKey, EventRecord>, id: JobId, view: ViewRef, existing: seq<EventRow>,
                        staged: seq<EventRow>)
    requires RowsExact(ledger, view, existing) && RowsOfJob(ledger, id, view, staged)
    requires forall key | key in ledger && ledger[key].job.Some? :: ledger[key].state != EventPending
    ensures RowsExact(ledger, view, existing + FirstUnseen(existing, staged))
    ensures forall eventId | HasId(existing, eventId) || HasId(staged, eventId) ::
              HasId(existing + FirstUnseen(existing, staged), eventId)
  {
    var unseen := FirstUnseen(existing, staged);
    var rows := existing + unseen;
    FirstUnseenIds(existing, staged);
    JoinedIds(existing, unseen);
    forall i | 0 <= i < |rows| ensures RowRecorded(ledger, view, rows[i]) {
      if i < |existing| {
        assert RowRecorded(ledger, view, existing[i]);
      } else {
        assert unseen[i - |existing|] in unseen;
        var k :| 0 <= k < |staged| && staged[k] == rows[i];
        assert RowOfJob(ledger, id, view, staged[k]);
      }
    }
  }

  lemma AppendKeeps(p: Pipeline, token: Token)
    requires PipelineInv(p)
    ensures PipelineInv(AppendUnseen(p, token))
  {
    var next := AppendUnseen(p, token);
    if next != p {
      var id := p.attempts[token].job;
      var payload := p.db.jobs[id].payload;
      var existing, staged := ViewRows(p, payload.view), p.staging[payload.staging];
      assert StagingExact(p.db, p.staging, p.uris, id);
      assert RowsExact(p.db.ledger, payload.view, existing);
      forall key | key in p.db.ledger && p.db.ledger[key].job.Some?
        ensures p.db.ledger[key].state != EventPending
        ensures p.db.ledger[key].job == Some(id) ==> key.view == payload.view
      {
        assert RecordInv(p.db, key);
      }
      AppendKeepsRows(p.db.ledger, id, payload.view, existing, staged);
      GrownView(p.views, payload.view, FirstUnseen(existing, staged));
      AppendDelivers(p, next, token);
    }
  }

  /** Appending to one view loses no identity of any. */
  lemma GrownView(views: map<ViewRef, seq<EventRow>>, view: ViewRef, more: seq<EventRow>)
    ensures var next := views[view := RowsIn(views, view) + more];
            forall v, eventId | HasId(RowsIn(views, v), eventId) :: HasId(RowsIn(next, v), eventId)
  {
    var next := views[view := RowsIn(views, view) + more];
    forall v, eventId | HasId(RowsIn(views, v), eventId) ensures HasId(RowsIn(next, v), eventId) {
      var i :| 0 <= i < |RowsIn(views, v)| && RowsIn(views, v)[i].eventId == eventId;
      assert RowsIn(next, v)[i].eventId == eventId;
    }
  }

  lemma AppendDelivers(p: Pipeline, next: Pipeline, token: Token)
    requires PipelineInv(p) && token in p.attempts
    requires next == p.(views := next.views, attempts := p.attempts[token := p.attempts[token].(phase := Appended)])
    requires p.attempts[token].phase == Started
    requires forall view, eventId | HasId(RowsIn(p.views, view), eventId) :: HasId(RowsIn(next.views, view), eventId)
    requires Delivered(p.db.ledger, next.views, p.attempts[token].job)
    ensures DeliveryInv(next.db, next.views, next.attempts)
  {
    forall id | Delivered(p.db.ledger, p.views, id) ensures Delivered(p.db.ledger, next.views, id) {}
    forall t | t in next.attempts ensures AttemptInv(next.db, next.views, t, next.attempts[t]) {
      assert AttemptInv(p.db, p.views, t, p.attempts[t]);
    }
  }

  lemma RecordKeeps(cfg: Settings, p: Pipeline, token: Token, note: string, now: Time)
    requires PipelineInv(p)
    ensures PipelineInv(RecordAppend(p, token, note, now))
  {
    var next := RecordAppend(p, token, note, now);
    if next != p {
      var op := OpCheckpoint(p.attempts[token].job, token, [note], now);
      assert next.db == Step(cfg, p.db, op);
      TransactionKeeps(cfg, p, op);
      DeliveryKept(cfg, p.db, op, p.views, p.attempts);
      AdvancedAttempt(next.db, p.views, p.attempts, token, Recorded);
    }
  }

  lemma AdvancedAttempt(db: Database, views: map<ViewRef, seq<EventRow>>, attempts: map<Token, AppendAttempt>,
                        token: Token, phase: AppendPhase)
    requires DeliveryInv(db, views, attempts) && token in attempts && attempts[token].phase != Started
    requires phase == Finished ==> db.jobs[attempts[token].job].status == Succeeded
    ensures DeliveryInv(db, views, attempts[token := attempts[token].(phase := phase)])
  {
    assert AttemptInv(db, views, token, attempts[token]);
  }

  lemma FinishKeeps(cfg: Settings, p: Pipeline, token: Token, now: Time)
    requires PipelineInv(p)
    ensures PipelineInv(FinishAppend(cfg, p, token, now))
  {
    var next := FinishAppend(cfg, p, token, now);
    if next != p {
      var id := p.attempts[token].job;
      var op := OpSucceed(id, token, None, None, now);
      assert next.db == Step(cfg, p.db, op);
      TransactionKeeps(cfg, p, op);
      assert AttemptInv(p.db, p.views, token, p.attempts[token]);
      DeliveryKept(cfg, p.db, op, p.views, p.attempts);
      AdvancedAttempt(next.db, p.views, p.attempts, token, Finished);
    }
  }

  lemma DeleteKeeps(p: Pipeline, token: Token)
    requires PipelineInv(p)
    ensures PipelineInv(DeleteStaging(p, token))
  {
    var next := DeleteStaging(p, token);
    if next != p {
      assert AttemptInv(p.db, p.views, token, p.attempts[token]);
      forall id | IsAppend(p.db, id) ensures StagingExact(next.db, next.staging, next.uris, id) {
        assert StagingExact(p.db, p.staging, p.uris, id);
      }
    }
  }

  /** Emptying a buffer while nothing is being flushed, or giving up a flush. */
  lemma DropKeeps(cfg: Settings, p: Pipeline, a: Action)
    requires PipelineInv(p) && (a.DoDropBuffer? || a.DoAbandonFlush?)
    ensures PipelineInv(Act(cfg, p, a))
  {}

  lemma StartKeeps(p: Pipeline, token: Token)
    requires PipelineInv(p)
    ensures PipelineInv(StartAppend(p, token))
  {}

  lemma ActKeeps(cfg: Settings, p: Pipeline, a: Action)
    requires PipelineInv(p)
    ensures PipelineInv(Act(cfg, p, a))
  {
    match a
    case DoTransaction(op) =>
      if !op.OpStage? && !SucceedsAppend(p.db, op) {
        TransactionKeeps(cfg, p, op);
        DeliveryKept(cfg, p.db, op, p.views, p.attempts);
      }
    case DoBuffer(key) => BufferKeeps(p, key);
    case DoDropBuffer(view) => DropKeeps(cfg, p, a);
    case DoAbandonFlush => DropKeeps(cfg, p, a);
    case DoWriteStaging(view, staging, rows) => WriteKeeps(p, view, staging, rows);
    case DoCommitStaging(id, now) => StagingKeeps(cfg, p, id, now);
    case DoStart(token) => StartKeeps(p, token);
    case DoAppend(token) => AppendKeeps(p, token);
    case DoRecord(token, note, now) => RecordKeeps(cfg, p, token, note, now);
    case DoFinish(token, now) => FinishKeeps(cfg, p, token, now);
    case DoDelete(token) => DeleteKeeps(p, token);
  }

  lemma {:induction false} RunKeeps(cfg: Settings, actions: seq<Action>)
    ensures PipelineInv(Run(cfg, actions))
  {
    if actions != [] {
      RunKeeps(cfg, actions[..|actions| - 1]);
      ActKeeps(cfg, Run(cfg, actions[..|actions| - 1]), actions[|actions| - 1]);
    }
  }

  // ---- exactly once ------------------------------------------------------------------------------------

  /** The ledger of the pipeline moves by transactions only. */
  ghost predicate LedgerMoves(a: map<EventKey, EventRecord>, b: map<EventKey, EventRecord>) {
    forall key | key in a :: key in b && RecordMoves(a[key], b[key])
  }

  lemma WorkerLedger(cfg: Settings, p: Pipeline, token: Token, note: string, now: Time)
    requires PipelineInv(p)
    ensures RecordAppend(p, token, note, now).db.ledger == p.db.ledger
    ensures LedgerMoves(p.db.ledger, FinishAppend(cfg, p, token, now).db.ledger)
  {
    if FinishAppend(cfg, p, token, now) != p {
      OtherTransaction(cfg, p.db, OpSucceed(p.attempts[token].job, token, None, None, now));
    }
  }

  lemma StagingLedger(cfg: Settings, p: Pipeline, id: JobId, now: Time)
    requires PipelineInv(p)
    ensures LedgerMoves(p.db.ledger, CommitStaging(cfg, p, id, now).db.ledger)
  {
    if p.flush.Some? && id !in p.db.jobs {
      var f := p.flush.value;
      var keys := KeysOf(f.view, BufferIn(p.buffers, f.view));
      if AllPending(p.db, keys) { StageLedgerMoves(cfg, p.db, id, f.view, f.staging, keys, now); }
    }
  }

  /** Every action changes each ledger record only forward. */
  lemma RecordActs(cfg: Settings, p: Pipeline, a: Action, key: EventKey)
    requires PipelineInv(p) && key in p.db.ledger
    ensures key in Act(cfg, p, a).db.ledger && RecordMoves(p.db.ledger[key], Act(cfg, p, a).db.ledger[key])
  {
    if a.DoTransaction? {
      RecordStep(cfg, p.db, a.op, key);
    } else if a.DoCommitStaging? {
      StagingLedger(cfg, p, a.id, a.now);
    } else if a.DoRecord? {
      WorkerLedger(cfg, p, a.token, a.note, a.now);
    } else if a.DoFinish? {
      WorkerLedger(cfg, p, a.token, "", a.now);
    }
  }

  /** One view row carries this identity, and it carries this payload. */
  ghost predicate ExactlyOneRow(rows: seq<EventRow>, eventId: string, payload: EventPayload) {
    exists i :: 0 <= i < |rows| && rows[i] == Row(eventId, payload)
                && forall j | 0 <= j < |rows| && rows[j].eventId == eventId :: j == i
  }

  /**
   * What the invariant says of one record: applied exactly when its job has succeeded, and then delivered
   * exactly once.
   */
  lemma AppliedOnce(p: Pipeline, key: EventKey)
    requires PipelineInv(p) && key in p.db.ledger
    ensures p.db.ledger[key].job.Some? ==> p.db.ledger[key].job.value in p.db.jobs
    ensures p.db.ledger[key].state == EventApplied <==>
              p.db.ledger[key].job.Some? && p.db.jobs[p.db.ledger[key].job.value].status == Succeeded
    ensures p.db.ledger[key].state == EventApplied ==>
              ExactlyOneRow(ViewRows(p, key.view), key.eventId, p.db.ledger[key].payload)
  {
    assert RecordInv(p.db, key);
    if p.db.ledger[key].state == EventApplied {
      assert IsAppend(p.db, p.db.ledger[key].job.value);
      assert Delivered(p.db.ledger, p.views, p.db.ledger[key].job.value);
      var rows := ViewRows(p, key.view);
      var i :| 0 <= i < |rows| && rows[i].eventId == key.eventId;
      assert RowsExact(p.db.ledger, key.view, rows) && RowRecorded(p.db.ledger, key.view, rows[i]);
      assert rows[i] == Row(key.eventId, p.db.ledger[key].payload);
    }
  }

  /**
   * End-to-end exactly once, over every run with crashes, replays and stale attempts, between any moment
   * `k` of the run and its end: the record keeps the payload it was first registered with, its state only
   * moves pending, staged, applied, and it is staged for at most one job; it is applied exactly when that
   * job has succeeded; and then its view holds exactly one row of that identity, with that first payload.
   */
  lemma {:induction false} ExactlyOnce(cfg: Settings, actions: seq<Action>, k: nat, key: EventKey)
    requires k <= |actions| && key in Run(cfg, actions[..k]).db.ledger
    ensures var p := Run(cfg, actions); var first := Run(cfg, actions[..k]).db.ledger[key];
            && key in p.db.ledger && RecordMoves(first, p.db.ledger[key])
            && (p.db.ledger[key].job.Some? ==> p.db.ledger[key].job.value in p.db.jobs)
            && (p.db.ledger[key].state == EventApplied <==>
                  p.db.ledger[key].job.Some? && p.db.jobs[p.db.ledger[key].job.value].status == Succeeded)
            && (p.db.ledger[key].state == EventApplied ==>
                  ExactlyOneRow(ViewRows(p, key.view), key.eventId, first.payload))
  {
    RunKeeps(cfg, actions);
    var p := Run(cfg, actions);
    if k < |actions| {
      var init := actions[..|actions| - 1];
      assert init[..k] == actions[..k];
      ExactlyOnce(cfg, init, k, key);
      RunKeeps(cfg, init);
      RecordActs(cfg, Run(cfg, init), actions[|actions| - 1], key);
    } else {
      assert actions[..k] == actions;
    }
    AppliedOnce(p, key);
  }

  /**
   * Nothing else gets in: every view row is the only row of its identity, carries the registered payload, and
   * was staged.
   */
  lemma NoPhantomRows(cfg: Settings, actions: seq<Action>, view: ViewRef, i: nat)
    requires i < |ViewRows(Run(cfg, actions), view)|
    ensures var p := Run(cfg, actions); var row := ViewRows(p, view)[i];
            && EventKey(view, row.eventId) in p.db.ledger
            && p.db.ledger[EventKey(view, row.eventId)].state != EventPending
            && ExactlyOneRow(ViewRows(p, view), row.eventId, p.db.ledger[EventKey(view, row.eventId)].payload)
  {
    RunKeeps(cfg, actions);
    var p := Run(cfg, actions);
    var row := ViewRows(p, view)[i];
    assert RowsExact(p.db.ledger, view, p.views[view]) && RowRecorded(p.db.ledger, view, row);
    assert ViewRows(p, view)[i] == Row(row.eventId, row.content);
  }

  /** No append of a reachable pipeline is refused for conflicting content. */
  lemma AppendsAreAccepted(cfg: Settings, actions: seq<Action>, token: Token)
    requires var p := Run(cfg, actions);
             token in p.attempts && IsAppend(p.db, p.attempts[token].job)
             && p.db.jobs[p.attempts[token].job].payload.staging in p.staging
    ensures var p := Run(cfg, actions); var payload := p.db.jobs[p.attempts[token].job].payload;
            !Conflicting(ViewRows(p, payload.view) + p.staging[payload.staging])
  {
    RunKeeps(cfg, actions);
    NeverConflicts(Run(cfg, actions), Run(cfg, actions).attempts[token].job);
  }
}
