/** That the pipeline delivers: appends happen, their holder finishes, and a registered event gets into its view. */
module StreamDelivery {
  import opened Common
  import opened Jobs
  import opened JobInvariants
  import opened JobProtocol
  import opened UnseenRows
  import opened StreamPipeline

  // ---- the append ----------------------------------------------------------------------------------------

  /**
   * Appending happens, and adds what is missing: the attempt moves on, the view keeps its rows in front, and every
   * staged identity has exactly one row there, with its registered payload. No other view and no record moves.
   */
  lemma AppendHappens(cfg: Settings, p: Pipeline, token: Token)
    requires PipelineInv(p) && token in p.attempts && p.attempts[token].phase == Started
    requires p.db.jobs[p.attempts[token].job].payload.staging in p.staging
    ensures var next := Act(cfg, p, DoAppend(token));
            var payload := p.db.jobs[p.attempts[token].job].payload;
            && next.db == p.db && next.staging == p.staging
            && next.attempts == p.attempts[token := AppendAttempt(p.attempts[token].job, Appended)]
            && ViewRows(p, payload.view) <= ViewRows(next, payload.view)
            && (forall view | view != payload.view :: ViewRows(next, view) == ViewRows(p, view))
            && (forall i | 0 <= i < |p.staging[payload.staging]| ::
                  var key := EventKey(payload.view, p.staging[payload.staging][i].eventId);
                  key in p.db.ledger
                  && ExactlyOneRow(ViewRows(next, payload.view), key.eventId, p.db.ledger[key].payload))
            && (forall key | key in p.db.ledger && p.db.ledger[key].job == Some(p.attempts[token].job) ::
                  ExactlyOneRow(ViewRows(next, payload.view), key.eventId, p.db.ledger[key].payload))
  {
    var id := p.attempts[token].job;
    assert AttemptInv(p.db, p.views, token, p.attempts[token]);
    var payload, next := p.db.jobs[id].payload, Act(cfg, p, DoAppend(token));
    NeverConflicts(p, id);
    AppendKeeps(p, token);
    AppendedIsDelivered(p, next, token);
    assert StagingExact(p.db, p.staging, p.uris, id);
    var rows := p.staging[payload.staging];
    forall i | 0 <= i < |rows|
      ensures var key := EventKey(payload.view, rows[i].eventId);
              key in p.db.ledger
              && ExactlyOneRow(ViewRows(next, payload.view), key.eventId, p.db.ledger[key].payload)
    {
      assert RowOfJob(p.db.ledger, id, payload.view, rows[i]);
    }
  }

  lemma AppendedIsDelivered(p: Pipeline, next: Pipeline, token: Token)
    requires PipelineInv(p) && PipelineInv(next) && token in p.attempts && token in next.attempts
    requires next.attempts[token].phase == Appended && next.attempts[token].job == p.attempts[token].job
    requires next.db == p.db && IsAppend(p.db, p.attempts[token].job)
    ensures forall key | key in p.db.ledger && p.db.ledger[key].job == Some(p.attempts[token].job) ::
              ExactlyOneRow(ViewRows(next, p.db.jobs[p.attempts[token].job].payload.view), key.eventId,
                            p.db.ledger[key].payload)
  {
    assert AttemptInv(next.db, next.views, token, next.attempts[token]);
    forall key | key in p.db.ledger && p.db.ledger[key].job == Some(p.attempts[token].job)
      ensures ExactlyOneRow(ViewRows(next, p.db.jobs[p.attempts[token].job].payload.view), key.eventId,
                            p.db.ledger[key].payload)
    {
      assert RecordInv(p.db, key);
      DeliveredRow(next, key);
    }
  }

  lemma DeliveredRow(p: Pipeline, key: EventKey)
    requires PipelineInv(p) && key in p.db.ledger && HasId(ViewRows(p, key.view), key.eventId)
    ensures ExactlyOneRow(ViewRows(p, key.view), key.eventId, p.db.ledger[key].payload)
  {
    var rows := ViewRows(p, key.view);
    var i :| 0 <= i < |rows| && rows[i].eventId == key.eventId;
    assert RowsExact(p.db.ledger, key.view, rows) && RowRecorded(p.db.ledger, key.view, rows[i]);
    assert rows[i] == Row(key.eventId, p.db.ledger[key].payload);
  }

  /** The holder of the lease that has appended finishes: its job succeeds and every record of it is applied. */
  lemma HolderFinishes(cfg: Settings, p: Pipeline, token: Token, note: string, now: Time)
    requires PipelineInv(p) && token in p.attempts && p.attempts[token].phase == Appended
    requires Owns(p.db, p.attempts[token].job, token, now)
    ensures var id := p.attempts[token].job;
            var next := Act(cfg, Act(cfg, p, DoRecord(token, note, now)), DoFinish(token, now));
            && PipelineInv(next) && next.views == p.views
            && id in next.db.jobs && next.db.jobs[id].status == Succeeded
            && next.db.ledger.Keys == p.db.ledger.Keys
            && (forall key | key in p.db.ledger ::
                  next.db.ledger[key] == if p.db.ledger[key].job == Some(id)
                                         then p.db.ledger[key].(state := EventApplied) else p.db.ledger[key])
  {
    var id, recorded := p.attempts[token].job, Act(cfg, p, DoRecord(token, note, now));
    Records(cfg, p, token, note, now);
    ActKeeps(cfg, p, DoRecord(token, note, now));
    ActKeeps(cfg, recorded, DoFinish(token, now));
    FinishApplies(cfg, recorded, token, now);
    StagedUntilDone(p, id);
    AppliedLedger(p.db.ledger, id);
  }

  lemma AppliedLedger(ledger: map<EventKey, EventRecord>, id: JobId)
    requires forall key | key in ledger && ledger[key].job == Some(id) :: ledger[key].state == EventStaged
    ensures MarkApplied(ledger, id).Keys == ledger.Keys
    ensures forall key | key in ledger ::
              MarkApplied(ledger, id)[key]
              == if ledger[key].job == Some(id) then ledger[key].(state := EventApplied) else ledger[key]
  {}

  lemma Records(cfg: Settings, p: Pipeline, token: Token, note: string, now: Time)
    requires PipelineInv(p) && token in p.attempts && p.attempts[token].phase == Appended
    requires Owns(p.db, p.attempts[token].job, token, now)
    ensures var id, next := p.attempts[token].job, Act(cfg, p, DoRecord(token, note, now));
            && next == p.(db := next.db, attempts := p.attempts[token := AppendAttempt(id, Recorded)])
            && next.db.ledger == p.db.ledger && Owns(next.db, id, token, now) && IsAppend(next.db, id)
            && next.db.jobs.Keys == p.db.jobs.Keys
  {
    assert AttemptInv(p.db, p.views, token, p.attempts[token]);
  }

  /** Until its job succeeds, a staged record stays staged. */
  lemma StagedUntilDone(p: Pipeline, id: JobId)
    requires PipelineInv(p) && id in p.db.jobs && p.db.jobs[id].status != Succeeded
    ensures forall key | key in p.db.ledger && p.db.ledger[key].job == Some(id) :: p.db.ledger[key].state == EventStaged
  {
    forall key | key in p.db.ledger && p.db.ledger[key].job == Some(id) ensures p.db.ledger[key].state == EventStaged {
      assert RecordInv(p.db, key);
    }
  }

  lemma FinishApplies(cfg: Settings, p: Pipeline, token: Token, now: Time)
    requires token in p.attempts && p.attempts[token].phase == Recorded && IsAppend(p.db, p.attempts[token].job)
    requires Owns(p.db, p.attempts[token].job, token, now)
    ensures var id, next := p.attempts[token].job, Act(cfg, p, DoFinish(token, now));
            && next.views == p.views && id in next.db.jobs && next.db.jobs[id].status == Succeeded
            && next.db.ledger == MarkApplied(p.db.ledger, id)
  {}

  /** Afterwards the worker deletes the staging table of its job, and no other. */
  lemma FinisherCleansUp(cfg: Settings, p: Pipeline, token: Token)
    requires PipelineInv(p) && token in p.attempts && p.attempts[token].phase == Finished
    ensures IsAppend(p.db, p.attempts[token].job)
    ensures Act(cfg, p, DoDelete(token))
            == p.(staging := p.staging - {p.db.jobs[p.attempts[token].job].payload.staging})
  {
    assert AttemptInv(p.db, p.views, token, p.attempts[token]);
  }

  // ---- the flush -----------------------------------------------------------------------------------------

  /** The staging rows of a buffer exist. */
  lemma {:induction false} StagingRows(buffer: Buffer) returns (rows: seq<EventRow>)
    ensures RowsOfBuffer(rows, buffer)
    decreases |buffer|
  {
    if buffer == map[] {
      rows := [];
    } else {
      var id :| id in buffer;
      assert |buffer - {id}| < |buffer| by { assert buffer == (buffer - {id})[id := buffer[id]]; }
      var rest := StagingRows(buffer - {id});
      rows := rest + [Row(id, buffer[id])];
      OneMoreRow(rest, buffer, id);
    }
  }

  lemma OneMoreRow(rest: seq<EventRow>, buffer: Buffer, id: string)
    requires id in buffer && RowsOfBuffer(rest, buffer - {id})
    ensures RowsOfBuffer(rest + [Row(id, buffer[id])], buffer)
  {
    var rows := rest + [Row(id, buffer[id])];
    forall other | other in buffer ensures HasId(rows, other) {
      if other == id {
        assert rows[|rest|].eventId == id;
      } else {
        assert HasId(rest, other);
        var i :| 0 <= i < |rest| && rest[i].eventId == other;
        assert rows[i].eventId == other;
      }
    }
  }

  /**
   * A flush, exactly: when every buffered record is still pending, there is then a pending append job over a staging
   * table with exactly the buffered rows, and exactly the buffered records are staged for it; when one is not
   * pending any more, jobs and records are as they were.
   */
  lemma FlushStages(cfg: Settings, p: Pipeline, view: ViewRef, staging: Uri, rows: seq<EventRow>, id: JobId, now: Time)
    requires PipelineInv(p) && p.flush.None? && staging !in p.uris && id !in p.db.jobs
    requires RowsOfBuffer(rows, BufferIn(p.buffers, view))
    ensures var next := Act(cfg, Act(cfg, p, DoWriteStaging(view, staging, rows)), DoCommitStaging(id, now));
            var pending := forall eventId | eventId in BufferIn(p.buffers, view) ::
                             EventKey(view, eventId) in p.db.ledger
                             && p.db.ledger[EventKey(view, eventId)].state == EventPending;
            && next.flush.None? && next.views == p.views && next.attempts == p.attempts
            && next.staging == p.staging[staging := rows]
            && (!pending ==> next.db == p.db)
            && (pending ==>
                  && next.db.jobs == p.db.jobs[id := NewJob(cfg, OfflineAppend, AppendPayload(view, staging), now)]
                  && next.db.issued == p.db.issued && next.db.ledger.Keys == p.db.ledger.Keys
                  && forall key | key in p.db.ledger ::
                       next.db.ledger[key]
                       == if key.view == view && key.eventId in BufferIn(p.buffers, view)
                          then EventRecord(p.db.ledger[key].payload, EventStaged, Some(id)) else p.db.ledger[key])
  {
    var buffer := BufferIn(p.buffers, view);
    var written := Act(cfg, p, DoWriteStaging(view, staging, rows));
    assert written == p.(flush := Some(Flush(view, staging)), staging := p.staging[staging := rows],
                         uris := p.uris + {staging});
    StagesExactly(cfg, p.db, id, view, staging, buffer, now);
  }

  lemma StagesExactly(cfg: Settings, db: Database, id: JobId, view: ViewRef, staging: Uri, buffer: Buffer, now: Time)
    requires id !in db.jobs
    ensures var tx := Stage(cfg, db, id, view, staging, KeysOf(view, buffer), now);
            var pending := forall eventId | eventId in buffer ::
                             EventKey(view, eventId) in db.ledger
                             && db.ledger[EventKey(view, eventId)].state == EventPending;
            && (!pending ==> tx.db == db)
            && (pending ==>
                  && tx.db.jobs == db.jobs[id := NewJob(cfg, OfflineAppend, AppendPayload(view, staging), now)]
                  && tx.db.issued == db.issued && tx.db.ledger.Keys == db.ledger.Keys
                  && forall key | key in db.ledger ::
                       tx.db.ledger[key]
                       == if key.view == view && key.eventId in buffer
                          then EventRecord(db.ledger[key].payload, EventStaged, Some(id)) else db.ledger[key])
  {
    var keys := KeysOf(view, buffer);
    forall eventId | eventId in buffer ensures EventKey(view, eventId) in keys {}
    forall key: EventKey ensures key in keys <==> key.view == view && key.eventId in buffer {
      assert EventKey(key.view, key.eventId) == key;
    }
  }

  // ---- from the ledger to the view --------------------------------------------------------------------------

  ghost function RunFrom(cfg: Settings, p: Pipeline, actions: seq<Action>): Pipeline {
    if actions == [] then p
    else Act(cfg, RunFrom(cfg, p, actions[..|actions| - 1]), actions[|actions| - 1])
  }

  lemma RunFromMore(cfg: Settings, p: Pipeline, actions: seq<Action>, a: Action)
    ensures RunFrom(cfg, p, actions + [a]) == Act(cfg, RunFrom(cfg, p, actions), a)
  {
    assert (actions + [a])[..|actions|] == actions;
  }

  lemma RunFromTwo(cfg: Settings, p: Pipeline, actions: seq<Action>, a: Action, b: Action)
    ensures RunFrom(cfg, p, actions + [a, b]) == Act(cfg, Act(cfg, RunFrom(cfg, p, actions), a), b)
  {
    var once := actions + [a];
    RunFromMore(cfg, p, actions, a);
    RunFromLast(cfg, p, actions + [a, b], once, b);
  }

  lemma RunFromLast(cfg: Settings, p: Pipeline, all: seq<Action>, init: seq<Action>, last: Action)
    requires all == init + [last]
    ensures RunFrom(cfg, p, all) == Act(cfg, RunFrom(cfg, p, init), last)
  {
    assert all[..|all| - 1] == init;
  }

  lemma {:induction false} RunFromKeeps(cfg: Settings, p: Pipeline, actions: seq<Action>)
    requires PipelineInv(p)
    ensures PipelineInv(RunFrom(cfg, p, actions))
  {
    if actions != [] {
      RunFromKeeps(cfg, p, actions[..|actions| - 1]);
      ActKeeps(cfg, RunFrom(cfg, p, actions[..|actions| - 1]), actions[|actions| - 1]);
    }
  }

  /** Recovery of one pending event: whatever flush was going on is given up, and the event is buffered anew. */
  function Recovering(key: EventKey): seq<Action> {
    [DoAbandonFlush, DoDropBuffer(key.view)] + [DoBuffer(key)]
  }

  lemma Recovers(cfg: Settings, p: Pipeline, key: EventKey)
    requires PipelineInv(p) && key in p.db.ledger && p.db.ledger[key].state == EventPending
    ensures var next := RunFrom(cfg, p, Recovering(key));
            && next.flush.None? && next.db == p.db && next.uris == p.uris
            && next.staging == p.staging && next.views == p.views && next.attempts == p.attempts
            && BufferIn(next.buffers, key.view) == map[key.eventId := p.db.ledger[key].payload]
  {
    RunFromTwo(cfg, p, [], DoAbandonFlush, DoDropBuffer(key.view));
    assert [] + [DoAbandonFlush, DoDropBuffer(key.view)] == [DoAbandonFlush, DoDropBuffer(key.view)];
    RunFromMore(cfg, p, [DoAbandonFlush, DoDropBuffer(key.view)], DoBuffer(key));
  }

  function Flushing(view: ViewRef, staging: Uri, row: EventRow, id: JobId, now: Time): seq<Action> {
    [DoWriteStaging(view, staging, [row]), DoCommitStaging(id, now)]
  }

  function Claiming(id: JobId, token: Token, now: Time): seq<Action> {
    [DoTransaction(OpClaim(id, token, now)), DoStart(token)]
  }

  function Finishing(token: Token, note: string, now: Time): seq<Action> {
    [DoRecord(token, note, now), DoFinish(token, now)]
  }

  lemma Claims(cfg: Settings, p: Pipeline, id: JobId, token: Token, now: Time)
    requires PipelineInv(p) && IsAppend(p.db, id) && p.db.jobs[id].status == Pending
    requires p.db.jobs[id].attempts < p.db.jobs[id].maxAttempts && cfg.leaseSeconds >= 1
    requires token !in p.db.issued && token !in p.attempts
    ensures var next := Act(cfg, Act(cfg, p, DoTransaction(OpClaim(id, token, now))), DoStart(token));
            && next.attempts == p.attempts[token := AppendAttempt(id, Started)] && Owns(next.db, id, token, now)
            && next.db.ledger == p.db.ledger && next.staging == p.staging && next.views == p.views
            && next.db.jobs[id].payload == p.db.jobs[id].payload && IsAppend(next.db, id)
  {
    assert Step(cfg, p.db, OpClaim(id, token, now)) == Claim(cfg, p.db, id, token, now);
  }

  /**
   * Delivery from anywhere: in every reachable state of the pipeline, however it got there, an event that is
   * registered and pending gets into its view by recovering, flushing, claiming, appending and finishing. It is
   * then applied, and its view holds exactly one row of it, with the payload it was registered with.
   */
  lemma PendingGetsDelivered(cfg: Settings, actions: seq<Action>, key: EventKey, staging: Uri, id: JobId, token: Token,
                             note: string, now: Time)
    requires cfg.maxAttempts >= 1 && cfg.leaseSeconds >= 1
    requires key in Run(cfg, actions).db.ledger && Run(cfg, actions).db.ledger[key].state == EventPending
    requires staging !in Run(cfg, actions).uris && id !in Run(cfg, actions).db.jobs
    requires token !in Run(cfg, actions).db.issued
    ensures var p := Run(cfg, actions); var row := Row(key.eventId, p.db.ledger[key].payload);
            var next := RunFrom(cfg, p, Recovering(key) + Flushing(key.view, staging, row, id, now)
                                        + Claiming(id, token, now) + [DoAppend(token)] + Finishing(token, note, now));
            && key in next.db.ledger
            && next.db.ledger[key] == EventRecord(p.db.ledger[key].payload, EventApplied, Some(id))
            && ExactlyOneRow(ViewRows(next, key.view), key.eventId, p.db.ledger[key].payload)
            && ViewRows(p, key.view) <= ViewRows(next, key.view)
  {
    RunKeeps(cfg, actions);
    var p := Run(cfg, actions);
    var row := Row(key.eventId, p.db.ledger[key].payload);
    Recovers(cfg, p, key);
    var a := Recovering(key);
    var b := a + Flushing(key.view, staging, row, id, now);
    var c := b + Claiming(id, token, now);
    RunFromTwo(cfg, p, a, DoWriteStaging(key.view, staging, [row]), DoCommitStaging(id, now));
    RunFromTwo(cfg, p, b, DoTransaction(OpClaim(id, token, now)), DoStart(token));
    RunFromKeeps(cfg, p, a);
    RunFromKeeps(cfg, p, b);
    RunFromKeeps(cfg, p, c);
    FlushesOne(cfg, RunFrom(cfg, p, a), key, staging, id, now);
    AttemptsAreIssued(p);
    Claims(cfg, RunFrom(cfg, p, b), id, token, now);
    RunFromMore(cfg, p, c, DoAppend(token));
    RunFromTwo(cfg, p, c + [DoAppend(token)], DoRecord(token, note, now), DoFinish(token, now));
    AppendedAndFinished(cfg, RunFrom(cfg, p, c), id, token, key, note, now);
  }

  lemma AttemptsAreIssued(p: Pipeline)
    requires PipelineInv(p)
    ensures forall token | token in p.attempts :: token in p.db.issued
  {
    forall token | token in p.attempts ensures token in p.db.issued {
      assert AttemptInv(p.db, p.views, token, p.attempts[token]);
    }
  }

  lemma FlushesOne(cfg: Settings, p: Pipeline, key: EventKey, staging: Uri, id: JobId, now: Time)
    requires PipelineInv(p) && p.flush.None? && staging !in p.uris && id !in p.db.jobs
    requires key in p.db.ledger && p.db.ledger[key].state == EventPending
    requires BufferIn(p.buffers, key.view) == map[key.eventId := p.db.ledger[key].payload]
    ensures var row := Row(key.eventId, p.db.ledger[key].payload);
            var next := Act(cfg, Act(cfg, p, DoWriteStaging(key.view, staging, [row])), DoCommitStaging(id, now));
            && IsAppend(next.db, id)
            && next.db.jobs[id] == NewJob(cfg, OfflineAppend, AppendPayload(key.view, staging), now)
            && staging in next.staging && next.db.issued == p.db.issued && next.attempts == p.attempts
            && key in next.db.ledger
            && next.db.ledger[key] == EventRecord(p.db.ledger[key].payload, EventStaged, Some(id))
            && next.views == p.views
  {
    var rows := [Row(key.eventId, p.db.ledger[key].payload)];
    assert rows[0].eventId == key.eventId && HasId(rows, key.eventId);
    FlushStages(cfg, p, key.view, staging, rows, id, now);
    assert EventKey(key.view, key.eventId) == key;
  }

  lemma AppendedAndFinished(cfg: Settings, p: Pipeline, id: JobId, token: Token, key: EventKey, note: string, now: Time)
    requires PipelineInv(p) && token in p.attempts && p.attempts[token] == AppendAttempt(id, Started)
    requires IsAppend(p.db, id) && Owns(p.db, id, token, now) && p.db.jobs[id].payload.staging in p.staging
    requires key in p.db.ledger && p.db.ledger[key].job == Some(id)
    ensures var next :=
            Act(cfg, Act(cfg, Act(cfg, p, DoAppend(token)), DoRecord(token, note, now)), DoFinish(token, now));
            && key in next.db.ledger && next.db.ledger[key] == p.db.ledger[key].(state := EventApplied)
            && ExactlyOneRow(ViewRows(next, key.view), key.eventId, p.db.ledger[key].payload)
            && ViewRows(p, key.view) <= ViewRows(next, key.view)
  {
    AppendHappens(cfg, p, token);
    ActKeeps(cfg, p, DoAppend(token));
    HolderFinishes(cfg, Act(cfg, p, DoAppend(token)), token, note, now);
    assert RecordInv(p.db, key);
  }
}
