/**
 * The pipeline as its worker really appends: comparing the staging table with the view is one step, appending
 * the rows found missing is a later one, and anything may happen in between.
 */
module SplitAppend {
  import opened Common
  import opened Jobs
  import opened JobInvariants
  import opened JobProtocol
  import opened UnseenRows
  import opened StreamPipeline

  /** What an attempt remembers of its comparison: both sides, and how often its job had been written by then. */
  datatype Compared = Compared(before: seq<EventRow>, rows: seq<EventRow>, landed: nat)

  /** `landed` is history: how often the rows of each append job have been written. */
  datatype Split = Split(p: Pipeline, compared: map<Token, Compared>, landed: map<JobId, nat>)

  const EMPTY_SPLIT := Split(EMPTY_PIPELINE, map[], map[])

  datatype SplitAction =
    | Other(a: StreamPipeline.Action)   // any action of the pipeline but its one-step append
    | Compare(token: Token)
    | Write(token: Token)

  ghost function Missing(c: Compared): seq<EventRow> {
    FirstUnseen(c.before, c.rows)
  }

  function LandedOf(s: Split, id: JobId): nat {
    if id in s.landed then s.landed[id] else 0
  }

  predicate MayStart(p: Pipeline, token: Token) {
    token in p.attempts && p.attempts[token].phase == Started && IsAppend(p.db, p.attempts[token].job)
  }

  function ViewOf(p: Pipeline, token: Token): ViewRef
    requires MayStart(p, token)
  {
    p.db.jobs[p.attempts[token].job].payload.view
  }

  ghost function CompareStep(s: Split, token: Token): Split {
    if MayStart(s.p, token) && token !in s.compared
        && s.p.db.jobs[s.p.attempts[token].job].payload.staging in s.p.staging then
      var existing := ViewRows(s.p, ViewOf(s.p, token));
      var rows := s.p.staging[s.p.db.jobs[s.p.attempts[token].job].payload.staging];
      if Conflicting(existing + rows) then s
      else s.(compared := s.compared[token := Compared(existing, rows, LandedOf(s, s.p.attempts[token].job))])
    else s
  }

  ghost function Written(p: Pipeline, token: Token, rows: seq<EventRow>): Pipeline
    requires MayStart(p, token)
  {
    var view := ViewOf(p, token);
    p.(views := p.views[view := ViewRows(p, view) + rows],
       attempts := p.attempts[token := p.attempts[token].(phase := Appended)])
  }

  ghost function WriteStep(s: Split, token: Token): Split {
    if token in s.compared && MayStart(s.p, token) then
      var id := s.p.attempts[token].job;
      s.(p := Written(s.p, token, Missing(s.compared[token])), landed := s.landed[id := LandedOf(s, id) + 1])
    else s
  }

  ghost function SplitAct(cfg: Settings, s: Split, a: SplitAction): Split {
    match a
    case Other(b) => if b.DoAppend? then s else s.(p := Act(cfg, s.p, b))
    case Compare(token) => CompareStep(s, token)
    case Write(token) => WriteStep(s, token)
  }

  ghost function SplitRun(cfg: Settings, actions: seq<SplitAction>): Split {
    if actions == [] then EMPTY_SPLIT
    else SplitAct(cfg, SplitRun(cfg, actions[..|actions| - 1]), actions[|actions| - 1])
  }

  // ---- one write ---------------------------------------------------------------------------------------

  /** None of the rows found missing has turned up since. */
  ghost predicate Clear(now: seq<EventRow>, c: Compared) {
    forall row | row in Missing(c) :: !HasId(now, row.eventId)
  }

  /**
   * A write keeps the identities of the view distinct exactly when none of its rows has turned up since the
   * comparison.
   */
  lemma DistinctExactly(now: seq<EventRow>, c: Compared)
    requires DistinctIds(now)
    ensures DistinctIds(now + Missing(c)) <==> Clear(now, c)
  {
    FirstUnseenIds(c.before, c.rows);
    if Clear(now, c) {
      JoinedIds(now, Missing(c));
    } else {
      var row :| row in Missing(c) && HasId(now, row.eventId);
      var i :| 0 <= i < |now| && now[i].eventId == row.eventId;
      var k :| 0 <= k < |Missing(c)| && Missing(c)[k] == row;
      var all := now + Missing(c);
      assert all[i].eventId == all[|now| + k].eventId;
    }
  }

  /** And then what it adds is what a comparison made now would find missing. */
  lemma {:induction false} SameMissing(before: seq<EventRow>, now: seq<EventRow>, rows: seq<EventRow>)
    requires forall i | 0 <= i < |rows| :: HasId(before, rows[i].eventId) <==> HasId(now, rows[i].eventId)
    ensures FirstUnseen(before, rows) == FirstUnseen(now, rows)
  {
    if rows != [] { SameMissing(before, now, rows[..|rows| - 1]); }
  }

  lemma ClearMeansSame(now: seq<EventRow>, c: Compared)
    requires c.before <= now && Clear(now, c)
    ensures Missing(c) == FirstUnseen(now, c.rows)
  {
    FirstUnseenIds(c.before, c.rows);
    forall i | 0 <= i < |c.rows| ensures HasId(c.before, c.rows[i].eventId) <==> HasId(now, c.rows[i].eventId) {
      var id := c.rows[i].eventId;
      if HasId(c.before, id) { PrefixHas(c.before, now, id); }
      if !HasId(c.before, id) {
        assert HasId(c.rows, id);
        assert HasId(Missing(c), id);
        var k :| 0 <= k < |Missing(c)| && Missing(c)[k].eventId == id;
        assert Missing(c)[k] in Missing(c);
      }
    }
    SameMissing(c.before, now, c.rows);
  }

  lemma PrefixHas(a: seq<EventRow>, b: seq<EventRow>, id: string)
    requires a <= b && HasId(a, id)
    ensures HasId(b, id)
  {
    var i :| 0 <= i < |a| && a[i].eventId == id;
    assert b[i].eventId == id;
  }

  // ---- what a run keeps ----------------------------------------------------------------------------------

  ghost predicate AllThere(now: seq<EventRow>, rows: seq<EventRow>) {
    forall i | 0 <= i < |rows| :: HasId(now, rows[i].eventId)
  }

  ghost predicate NothingNew(now: seq<EventRow>, c: Compared) {
    forall i | 0 <= i < |c.rows| :: HasId(now, c.rows[i].eventId) ==> HasId(c.before, c.rows[i].eventId)
  }

  /**
   * What an attempt remembers stays true of its job: the view has only grown since, the rows are those of the
   * job's records, and they have turned up exactly if the job has been written since.
   */
  ghost predicate RememberedOk(s: Split, token: Token)
    requires token in s.compared
  {
    var c := s.compared[token];
    && token in s.p.attempts && IsAppend(s.p.db, s.p.attempts[token].job)
    && var id := s.p.attempts[token].job;
       var view := s.p.db.jobs[id].payload.view;
       && c.before <= ViewRows(s.p, view) && RowsOfJob(s.p.db.ledger, id, view, c.rows) && c.landed <= LandedOf(s, id)
       && (c.landed == LandedOf(s, id) ==> NothingNew(ViewRows(s.p, view), c))
       && (c.landed < LandedOf(s, id) ==> AllThere(ViewRows(s.p, view), c.rows))
  }

  ghost predicate SplitInv(s: Split) {
    PipelineInv(s.p) && forall token | token in s.compared :: RememberedOk(s, token)
  }

  /** An action of the pipeline other than an append touches no view. */
  lemma OtherKeepsViews(cfg: Settings, p: Pipeline, a: StreamPipeline.Action)
    requires !a.DoAppend?
    ensures Act(cfg, p, a).views == p.views
  {}

  /** Attempts keep their job, and an append job keeps its payload. */
  lemma OtherKeepsAttempt(cfg: Settings, p: Pipeline, a: StreamPipeline.Action, token: Token)
    requires token in p.attempts && IsAppend(p.db, p.attempts[token].job)
    ensures var next := Act(cfg, p, a); var id := p.attempts[token].job;
            && token in next.attempts && next.attempts[token].job == id
            && SameAppend(p.db, next.db, id)
  {
    var id := p.attempts[token].job;
    match a
    case DoTransaction(op) => AppendStays(cfg, p.db, op, id);
    case DoCommitStaging(created, now) => CommitStays(cfg, p, created, now, id);
    case DoRecord(t, note, now) => RecordStays(cfg, p, t, note, now, id);
    case DoFinish(t, now) => FinishStays(cfg, p, t, now, id);
    case _ =>
  }

  predicate SameAppend(db: Database, next: Database, id: JobId)
    requires IsAppend(db, id)
  {
    IsAppend(next, id) && next.jobs[id].payload == db.jobs[id].payload
  }

  lemma AppendStays(cfg: Settings, db: Database, op: Op, id: JobId)
    requires IsAppend(db, id)
    ensures SameAppend(db, Step(cfg, db, op), id)
  {
    StepKeepsJob(cfg, db, op, id);
  }

  lemma RecordStays(cfg: Settings, p: Pipeline, t: Token, note: string, now: Time, id: JobId)
    requires IsAppend(p.db, id)
    ensures var next := RecordAppend(p, t, note, now);
            SameAppend(p.db, next.db, id) && forall x | x in p.attempts ::
              x in next.attempts && next.attempts[x].job == p.attempts[x].job
  {
    if t in p.attempts { AppendStays(cfg, p.db, OpCheckpoint(p.attempts[t].job, t, [note], now), id); }
  }

  lemma FinishStays(cfg: Settings, p: Pipeline, t: Token, now: Time, id: JobId)
    requires IsAppend(p.db, id)
    ensures var next := FinishAppend(cfg, p, t, now);
            SameAppend(p.db, next.db, id) && forall x | x in p.attempts ::
              x in next.attempts && next.attempts[x].job == p.attempts[x].job
  {
    if t in p.attempts { AppendStays(cfg, p.db, OpSucceed(p.attempts[t].job, t, None, None, now), id); }
  }

  lemma CommitStays(cfg: Settings, p: Pipeline, created: JobId, now: Time, id: JobId)
    requires IsAppend(p.db, id)
    ensures SameAppend(p.db, CommitStaging(cfg, p, created, now).db, id)
    ensures CommitStaging(cfg, p, created, now).attempts == p.attempts
  {}

  /** Only the transaction that creates a job gives it records. */
  lemma RecordsOfJobStay(cfg: Settings, p: Pipeline, a: StreamPipeline.Action, id: JobId, key: EventKey)
    requires PipelineInv(p) && id in p.db.jobs
    requires key in Act(cfg, p, a).db.ledger && Act(cfg, p, a).db.ledger[key].job == Some(id)
    ensures key in p.db.ledger && p.db.ledger[key].job == Some(id)
  {
    if a.DoTransaction? {
      if !a.op.OpStage? { OtherTransaction(cfg, p.db, a.op); }
    } else if a.DoFinish? {
      FinishedRecords(cfg, p, a.token, a.now);
    } else if a.DoRecord? {
      WorkerLedger(cfg, p, a.token, a.note, a.now);
    } else if a.DoCommitStaging? {
      StagedRecords(cfg, p, a.id, a.now, id, key);
    }
  }

  lemma FinishedRecords(cfg: Settings, p: Pipeline, token: Token, now: Time)
    requires PipelineInv(p)
    ensures LedgerKeeps(p.db.ledger, FinishAppend(cfg, p, token, now).db.ledger)
  {
    if FinishAppend(cfg, p, token, now) != p {
      OtherTransaction(cfg, p.db, OpSucceed(p.attempts[token].job, token, None, None, now));
    }
  }

  lemma StagedRecords(cfg: Settings, p: Pipeline, created: JobId, now: Time, id: JobId, key: EventKey)
    requires id in p.db.jobs && key in CommitStaging(cfg, p, created, now).db.ledger
    requires CommitStaging(cfg, p, created, now).db.ledger[key].job == Some(id)
    ensures key in p.db.ledger && p.db.ledger[key].job == Some(id)
  {}

  lemma OtherKeepsRows(cfg: Settings, p: Pipeline, a: StreamPipeline.Action, id: JobId, view: ViewRef,
                       rows: seq<EventRow>)
    requires PipelineInv(p) && id in p.db.jobs && RowsOfJob(p.db.ledger, id, view, rows)
    ensures RowsOfJob(Act(cfg, p, a).db.ledger, id, view, rows)
  {
    var next := Act(cfg, p, a).db.ledger;
    forall i | 0 <= i < |rows| ensures RowOfJob(next, id, view, rows[i]) {
      assert RowOfJob(p.db.ledger, id, view, rows[i]);
      RecordActs(cfg, p, a, EventKey(view, rows[i].eventId));
    }
    forall key | key in next && next[key].job == Some(id) ensures HasId(rows, key.eventId) {
      RecordsOfJobStay(cfg, p, a, id, key);
    }
  }

  lemma OtherKeeps(cfg: Settings, s: Split, a: StreamPipeline.Action)
    requires SplitInv(s) && !a.DoAppend?
    ensures SplitInv(s.(p := Act(cfg, s.p, a)))
  {
    var next := s.(p := Act(cfg, s.p, a));
    ActKeeps(cfg, s.p, a);
    forall token | token in s.compared ensures RememberedOk(next, token) { OtherRemembered(cfg, s, a, token); }
  }

  lemma OtherRemembered(cfg: Settings, s: Split, a: StreamPipeline.Action, token: Token)
    requires SplitInv(s) && !a.DoAppend? && token in s.compared
    ensures RememberedOk(s.(p := Act(cfg, s.p, a)), token)
  {
    assert RememberedOk(s, token);
    var id := s.p.attempts[token].job;
    OtherKeepsViews(cfg, s.p, a);
    OtherKeepsAttempt(cfg, s.p, a, token);
    OtherKeepsRows(cfg, s.p, a, id, s.p.db.jobs[id].payload.view, s.compared[token].rows);
  }

  lemma CompareKeeps(s: Split, token: Token)
    requires SplitInv(s)
    ensures SplitInv(CompareStep(s, token))
  {
    var next := CompareStep(s, token);
    forall t | t in next.compared ensures RememberedOk(next, t) {
      if t in s.compared {
        assert RememberedOk(s, t);
      } else {
        ComparedOk(s, token);
      }
    }
  }

  lemma ComparedOk(s: Split, token: Token)
    requires SplitInv(s) && token !in s.compared && token in CompareStep(s, token).compared
    ensures RememberedOk(CompareStep(s, token), token)
  {
    assert StagingExact(s.p.db, s.p.staging, s.p.uris, s.p.attempts[token].job);
  }

  /** A write whose rows have not turned up since adds exactly what the one-step append would. */
  lemma ClearWriteKeeps(s: Split, token: Token)
    requires SplitInv(s) && token in s.compared && MayStart(s.p, token)
    requires Clear(ViewRows(s.p, ViewOf(s.p, token)), s.compared[token])
    ensures PipelineInv(WriteStep(s, token).p)
    ensures AllThere(ViewRows(WriteStep(s, token).p, ViewOf(s.p, token)), s.compared[token].rows)
  {
    var p, next, c := s.p, WriteStep(s, token).p, s.compared[token];
    var id, view := p.attempts[token].job, ViewOf(p, token);
    var existing := ViewRows(p, view);
    assert RememberedOk(s, token);
    ClearMeansSame(existing, c);
    assert view in p.views ==> RowsExact(p.db.ledger, view, p.views[view]);
    RecordsOfView(p, id);
    AppendKeepsRows(p.db.ledger, id, view, existing, c.rows);
    GrownView(p.views, view, Missing(c));
    AppendDelivers(p, next, token);
    AppendedAll(existing, c.rows);
  }

  lemma AppendedAll(existing: seq<EventRow>, rows: seq<EventRow>)
    requires forall eventId | HasId(rows, eventId) :: HasId(existing + FirstUnseen(existing, rows), eventId)
    ensures AllThere(existing + FirstUnseen(existing, rows), rows)
  {
    forall i | 0 <= i < |rows| ensures HasId(existing + FirstUnseen(existing, rows), rows[i].eventId) {
      assert HasId(rows, rows[i].eventId);
    }
  }

  lemma RecordsOfView(p: Pipeline, id: JobId)
    requires PipelineInv(p) && IsAppend(p.db, id)
    ensures forall key | key in p.db.ledger && p.db.ledger[key].job.Some? :: p.db.ledger[key].state != EventPending
    ensures forall key | key in p.db.ledger && p.db.ledger[key].job == Some(id) ::
              key.view == p.db.jobs[id].payload.view
  {
    forall key | key in p.db.ledger && p.db.ledger[key].job.Some?
      ensures p.db.ledger[key].state != EventPending
      ensures p.db.ledger[key].job == Some(id) ==> key.view == p.db.jobs[id].payload.view
    {
      assert RecordInv(p.db, key);
    }
  }

  /** What other attempts remember survives a clear write. */
  lemma ClearWriteRemembered(s: Split, token: Token, t: Token)
    requires SplitInv(s) && token in s.compared && MayStart(s.p, token) && t in s.compared
    requires Clear(ViewRows(s.p, ViewOf(s.p, token)), s.compared[token])
    ensures RememberedOk(WriteStep(s, token), t)
  {
    assert RememberedOk(s, token) && RememberedOk(s, t);
    var next, c := WriteStep(s, token), s.compared[t];
    var id, other := s.p.attempts[token].job, s.p.attempts[t].job;
    var view := s.p.db.jobs[other].payload.view;
    var before, after := ViewRows(s.p, view), ViewRows(next.p, view);
    ClearWriteKeeps(s, token);
    if other == id {
      SameRows(s.p.db.ledger, id, view, s.compared[token].rows, c.rows, after);
    } else if view == ViewOf(s.p, token) {
      OtherJobsRows(s, token, t, before, after);
    }
    forall i | 0 <= i < |c.rows| && HasId(before, c.rows[i].eventId) ensures HasId(after, c.rows[i].eventId) {
      PrefixHas(before, after, c.rows[i].eventId);
    }
  }

  /** Two staging tables of one job hold the same identities. */
  lemma SameRows(ledger: map<EventKey, EventRecord>, id: JobId, view: ViewRef, a: seq<EventRow>, b: seq<EventRow>,
                 now: seq<EventRow>)
    requires RowsOfJob(ledger, id, view, a) && RowsOfJob(ledger, id, view, b) && AllThere(now, a)
    ensures AllThere(now, b)
  {
    forall i | 0 <= i < |b| ensures HasId(now, b[i].eventId) {
      assert RowOfJob(ledger, id, view, b[i]);
      assert HasId(a, EventKey(view, b[i].eventId).eventId);
      var k :| 0 <= k < |a| && a[k].eventId == b[i].eventId;
    }
  }

  /** The rows a write adds carry no identity of another job. */
  lemma OtherJobsRows(s: Split, token: Token, t: Token, before: seq<EventRow>, after: seq<EventRow>)
    requires SplitInv(s) && token in s.compared && t in s.compared && MayStart(s.p, token)
    requires RememberedOk(s, token) && RememberedOk(s, t) && s.p.attempts[token].job != s.p.attempts[t].job
    requires s.p.db.jobs[s.p.attempts[t].job].payload.view == ViewOf(s.p, token)
    requires before == ViewRows(s.p, ViewOf(s.p, token)) && after == before + Missing(s.compared[token])
    ensures forall i | 0 <= i < |s.compared[t].rows| && HasId(after, s.compared[t].rows[i].eventId) ::
              HasId(before, s.compared[t].rows[i].eventId)
  {
    var rows, added := s.compared[t].rows, Missing(s.compared[token]);
    FirstUnseenIds(s.compared[token].before, s.compared[token].rows);
    forall i | 0 <= i < |rows| && HasId(after, rows[i].eventId) ensures HasId(before, rows[i].eventId) {
      var k :| 0 <= k < |after| && after[k].eventId == rows[i].eventId;
      if k < |before| {
        assert before[k].eventId == rows[i].eventId;
      } else {
        NotOfBoth(s, token, t, added[k - |before|], rows[i]);
      }
    }
  }

  /** Staged rows of two jobs differ in identity. */
  lemma NotOfBoth(s: Split, token: Token, t: Token, a: EventRow, b: EventRow)
    requires token in s.compared && t in s.compared && RememberedOk(s, token) && RememberedOk(s, t)
    requires s.p.attempts[token].job != s.p.attempts[t].job
    requires s.p.db.jobs[s.p.attempts[token].job].payload.view == s.p.db.jobs[s.p.attempts[t].job].payload.view
    requires a in s.compared[token].rows && b in s.compared[t].rows
    ensures a.eventId != b.eventId
  {
    var view := s.p.db.jobs[s.p.attempts[t].job].payload.view;
    assert RowOfJob(s.p.db.ledger, s.p.attempts[token].job, view, a);
    assert RowOfJob(s.p.db.ledger, s.p.attempts[t].job, view, b);
  }

  // ---- exactly when ----------------------------------------------------------------------------------------

  /** No view holds two rows of one identity. */
  ghost predicate ViewsDistinct(p: Pipeline) {
    forall view | view in p.views :: DistinctIds(p.views[view])
  }

  /** A write lands before any other write of the same job since its comparison, or has nothing to add. */
  ghost predicate Undisturbed(s: Split, a: SplitAction) {
    a.Write? && a.token in s.compared && MayStart(s.p, a.token) ==>
      s.compared[a.token].landed == LandedOf(s, s.p.attempts[a.token].job) || Missing(s.compared[a.token]) == []
  }

  /**
   * The rows of an attempt have turned up since exactly if its job has been written since and there was
   * something to add.
   */
  lemma ClearExactly(s: Split, token: Token)
    requires SplitInv(s) && token in s.compared && MayStart(s.p, token)
    ensures Clear(ViewRows(s.p, ViewOf(s.p, token)), s.compared[token]) <==> Undisturbed(s, Write(token))
  {
    var c, now := s.compared[token], ViewRows(s.p, ViewOf(s.p, token));
    assert RememberedOk(s, token);
    ClearByRows(now, c);
  }

  lemma ClearByRows(now: seq<EventRow>, c: Compared)
    ensures NothingNew(now, c) ==> Clear(now, c)
    ensures AllThere(now, c.rows) ==> (Clear(now, c) <==> Missing(c) == [])
  {
    FirstUnseenIds(c.before, c.rows);
    forall row | row in Missing(c)
      ensures NothingNew(now, c) ==> !HasId(now, row.eventId)
      ensures AllThere(now, c.rows) ==> HasId(now, row.eventId)
    {
      var k :| 0 <= k < |c.rows| && c.rows[k] == row;
      assert !HasId(c.before, c.rows[k].eventId);
    }
    if Missing(c) != [] { assert Missing(c)[0] in Missing(c); }
  }

  /** One step, exactly: identities stay distinct if and only if the step is an undisturbed write or no write. */
  lemma StepExactly(cfg: Settings, s: Split, a: SplitAction)
    requires SplitInv(s)
    ensures ViewsDistinct(SplitAct(cfg, s, a).p) <==> Undisturbed(s, a)
    ensures Undisturbed(s, a) ==> SplitInv(SplitAct(cfg, s, a))
  {
    match a
    case Other(b) =>
      if !b.DoAppend? { OtherKeeps(cfg, s, b); }
      InvDistinct(SplitAct(cfg, s, a).p);
    case Compare(token) =>
      CompareKeeps(s, token);
      InvDistinct(s.p);
    case Write(token) =>
      InvDistinct(s.p);
      if token in s.compared && MayStart(s.p, token) { WriteExactly(s, token); }
  }

  lemma InvDistinct(p: Pipeline)
    requires PipelineInv(p)
    ensures ViewsDistinct(p) && forall view :: DistinctIds(ViewRows(p, view))
  {
    forall view | view in p.views
      ensures DistinctIds(p.views[view])
    {
      assert RowsExact(p.db.ledger, view, p.views[view]);
    }
  }

  lemma WriteExactly(s: Split, token: Token)
    requires SplitInv(s) && token in s.compared && MayStart(s.p, token)
    ensures ViewsDistinct(WriteStep(s, token).p) <==> Undisturbed(s, Write(token))
    ensures Undisturbed(s, Write(token)) ==> SplitInv(WriteStep(s, token))
  {
    var view := ViewOf(s.p, token);
    InvDistinct(s.p);
    ClearExactly(s, token);
    DistinctExactly(ViewRows(s.p, view), s.compared[token]);
    assert WriteStep(s, token).p.views[view] == ViewRows(s.p, view) + Missing(s.compared[token]);
    if Undisturbed(s, Write(token)) {
      ClearWriteKeeps(s, token);
      InvDistinct(WriteStep(s, token).p);
      forall t | t in s.compared ensures RememberedOk(WriteStep(s, token), t) { ClearWriteRemembered(s, token, t); }
    }
  }

  ghost predicate DistinctAt(cfg: Settings, actions: seq<SplitAction>, k: nat)
    requires k <= |actions|
  {
    ViewsDistinct(SplitRun(cfg, actions[..k]).p)
  }

  ghost predicate UndisturbedAt(cfg: Settings, actions: seq<SplitAction>, k: nat)
    requires k < |actions|
  {
    Undisturbed(SplitRun(cfg, actions[..k]), actions[k])
  }

  ghost predicate DistinctSoFar(cfg: Settings, actions: seq<SplitAction>) {
    forall k | 0 <= k <= |actions| :: DistinctAt(cfg, actions, k)
  }

  ghost predicate UndisturbedSoFar(cfg: Settings, actions: seq<SplitAction>) {
    forall k | 0 <= k < |actions| :: UndisturbedAt(cfg, actions, k)
  }

  lemma PrefixAt(cfg: Settings, actions: seq<SplitAction>, n: nat, k: nat)
    requires k <= n <= |actions|
    ensures DistinctAt(cfg, actions[..n], k) <==> DistinctAt(cfg, actions, k)
    ensures k < n ==> (UndisturbedAt(cfg, actions[..n], k) <==> UndisturbedAt(cfg, actions, k))
  {
    assert actions[..n][..k] == actions[..k];
  }

  lemma Prefixes(cfg: Settings, actions: seq<SplitAction>, n: nat)
    requires |actions| == n + 1
    ensures DistinctSoFar(cfg, actions) <==> DistinctSoFar(cfg, actions[..n]) && DistinctAt(cfg, actions, n + 1)
    ensures UndisturbedSoFar(cfg, actions) <==> UndisturbedSoFar(cfg, actions[..n]) && UndisturbedAt(cfg, actions, n)
  {
    forall k | 0 <= k <= n
      ensures DistinctAt(cfg, actions[..n], k) <==> DistinctAt(cfg, actions, k)
      ensures k < n ==> (UndisturbedAt(cfg, actions[..n], k) <==> UndisturbedAt(cfg, actions, k))
    {
      PrefixAt(cfg, actions, n, k);
    }
  }

  /**
   * The two-step append, exactly: over any run, no view ever holds two rows of one identity if and only if
   * every write that has something to add lands before any other write of the same job since its comparison.
   */
  lemma {:induction false} SplitExactly(cfg: Settings, actions: seq<SplitAction>)
    ensures DistinctSoFar(cfg, actions) <==> UndisturbedSoFar(cfg, actions)
    ensures UndisturbedSoFar(cfg, actions) ==> SplitInv(SplitRun(cfg, actions))
  {
    if actions == [] {
      assert actions[..0] == [];
      RunKeeps(cfg, []);
    } else {
      var n := |actions| - 1;
      SplitExactly(cfg, actions[..n]);
      Prefixes(cfg, actions, n);
      assert actions[..n + 1] == actions;
      if UndisturbedSoFar(cfg, actions[..n]) { StepExactly(cfg, SplitRun(cfg, actions[..n]), actions[n]); }
    }
  }

  /** In such a run delivery is exactly once, as it is for the one-step append. */
  lemma {:induction false} SplitExactlyOnce(cfg: Settings, actions: seq<SplitAction>, k: nat, key: EventKey)
    requires UndisturbedSoFar(cfg, actions) && k <= |actions| && key in SplitRun(cfg, actions[..k]).p.db.ledger
    ensures var p := SplitRun(cfg, actions).p; var first := SplitRun(cfg, actions[..k]).p.db.ledger[key];
            && key in p.db.ledger && RecordMoves(first, p.db.ledger[key])
            && (p.db.ledger[key].job.Some? ==> p.db.ledger[key].job.value in p.db.jobs)
            && (p.db.ledger[key].state == EventApplied <==>
                  p.db.ledger[key].job.Some? && p.db.jobs[p.db.ledger[key].job.value].status == Succeeded)
            && (p.db.ledger[key].state == EventApplied ==>
                  ExactlyOneRow(ViewRows(p, key.view), key.eventId, first.payload))
  {
    SplitExactly(cfg, actions);
    if k < |actions| {
      var n := |actions| - 1;
      Prefixes(cfg, actions, n);
      assert actions[..n][..k] == actions[..k];
      SplitExactlyOnce(cfg, actions[..n], k, key);
      SplitExactly(cfg, actions[..n]);
      if actions[n].Other? { RecordActs(cfg, SplitRun(cfg, actions[..n]).p, actions[n].a, key); }
    } else {
      assert actions[..k] == actions;
    }
    AppliedOnce(SplitRun(cfg, actions).p, key);
  }

  /** Comparing and writing with nothing in between happens, and is the one-step append. */
  lemma CompareThenWriteAppends(cfg: Settings, s: Split, token: Token)
    requires SplitInv(s) && MayStart(s.p, token) && token !in s.compared
    requires s.p.db.jobs[s.p.attempts[token].job].payload.staging in s.p.staging
    ensures SplitAct(cfg, SplitAct(cfg, s, Compare(token)), Write(token)).p == Act(cfg, s.p, DoAppend(token))
    ensures Act(cfg, s.p, DoAppend(token)).attempts[token].phase == Appended
  {
    NeverConflicts(s.p, s.p.attempts[token].job);
  }

  // ---- the run that goes wrong -------------------------------------------------------------------------------

  /** One event is registered, buffered and staged for an append job. */
  function Staging(key: EventKey, payload: EventPayload): seq<SplitAction> {
    [Other(DoTransaction(OpRegister(key, payload))), Other(DoBuffer(key)),
     Other(DoWriteStaging(key.view, 0, [Row(key.eventId, payload)])), Other(DoCommitStaging(0, 0))]
  }

  /** A worker claims the job and compares, the ownership check behind it; then it stalls. */
  function Stalling(): seq<SplitAction> {
    [Other(DoTransaction(OpClaim(0, 1, 0))), Other(DoStart(1)), Compare(1)]
  }

  /** Its lease lapses, another worker claims the job, compares and writes. */
  function Overtaking(cfg: Settings): seq<SplitAction> {
    [Other(DoTransaction(OpClaim(0, 2, Seconds(cfg.leaseSeconds)))), Other(DoStart(2)), Compare(2), Write(2)]
  }

  lemma RunMore(cfg: Settings, actions: seq<SplitAction>, a: SplitAction)
    ensures SplitRun(cfg, actions + [a]) == SplitAct(cfg, SplitRun(cfg, actions), a)
  {
    assert (actions + [a])[..|actions|] == actions;
  }

  lemma RunTwo(cfg: Settings, actions: seq<SplitAction>, a: SplitAction, b: SplitAction)
    ensures SplitRun(cfg, actions + [a, b]) == SplitAct(cfg, SplitAct(cfg, SplitRun(cfg, actions), a), b)
  {
    RunMore(cfg, actions, a);
    RunMore(cfg, actions + [a], b);
    assert actions + [a] + [b] == actions + [a, b];
  }

  lemma RunThree(cfg: Settings, actions: seq<SplitAction>, a: SplitAction, b: SplitAction, c: SplitAction)
    ensures SplitRun(cfg, actions + [a, b, c])
            == SplitAct(cfg, SplitAct(cfg, SplitAct(cfg, SplitRun(cfg, actions), a), b), c)
  {
    RunTwo(cfg, actions, a, b);
    RunMore(cfg, actions + [a, b], c);
    assert actions + [a, b] + [c] == actions + [a, b, c];
  }

  lemma RunFour(cfg: Settings, actions: seq<SplitAction>, a: SplitAction, b: SplitAction, c: SplitAction,
                d: SplitAction)
    ensures SplitRun(cfg, actions + [a, b, c, d])
            == SplitAct(cfg, SplitAct(cfg, SplitAct(cfg, SplitAct(cfg, SplitRun(cfg, actions), a), b), c), d)
  {
    RunThree(cfg, actions, a, b, c);
    RunMore(cfg, actions + [a, b, c], d);
    assert actions + [a, b, c] + [d] == actions + [a, b, c, d];
  }

  /** The append job is there with its staging table, and the view has no rows. */
  ghost predicate ReadyToAppend(s: Split, view: ViewRef, row: EventRow) {
    && IsAppend(s.p.db, 0) && s.p.db.jobs[0].payload == AppendPayload(view, 0)
    && s.p.staging == map[0 := [row]] && s.p.views == map[]
  }

  lemma Staged(cfg: Settings, key: EventKey, payload: EventPayload)
    ensures var s := SplitRun(cfg, Staging(key, payload));
            && ReadyToAppend(s, key.view, Row(key.eventId, payload))
            && s.p.db.jobs[0] == NewJob(cfg, OfflineAppend, AppendPayload(key.view, 0), 0)
            && s.p.db.issued == map[] && s.p.attempts == map[] && s.compared == map[] && s.landed == map[]
  {
    var a := Staging(key, payload);
    RunFour(cfg, [], a[0], a[1], a[2], a[3]);
    assert [] + [a[0], a[1], a[2], a[3]] == a;
    StagedDb(cfg, key, payload);
  }

  lemma StagedDb(cfg: Settings, key: EventKey, payload: EventPayload)
    ensures var p2 := BufferEvent(EMPTY_PIPELINE.(db := Step(cfg, EMPTY_DATABASE, OpRegister(key, payload))), key);
            var p3 := WriteStaging(p2, key.view, 0, [Row(key.eventId, payload)]);
            var p4 := CommitStaging(cfg, p3, 0, 0);
            && p4.db.jobs == map[0 := NewJob(cfg, OfflineAppend, AppendPayload(key.view, 0), 0)]
            && p4.staging == map[0 := [Row(key.eventId, payload)]] && p4.views == map[] && p4.attempts == map[]
            && p4.db.issued == map[]
  {
    var db := Step(cfg, EMPTY_DATABASE, OpRegister(key, payload));
    var p2 := BufferEvent(EMPTY_PIPELINE.(db := db), key);
    assert p2.buffers == map[key.view := map[key.eventId := payload]];
    var rows := [Row(key.eventId, payload)];
    assert rows[0].eventId == key.eventId && HasId(rows, key.eventId);
    assert RowsOfBuffer(rows, BufferIn(p2.buffers, key.view));
    assert KeysOf(key.view, BufferIn(p2.buffers, key.view)) == {key} by {
      assert key == EventKey(key.view, key.eventId);
    }
  }

  /** One claim, start and comparison: the attempt remembers an empty view and the one staged row. */
  lemma Compares(cfg: Settings, s: Split, token: Token, now: Time, view: ViewRef, row: EventRow)
    requires ReadyToAppend(s, view, row) && Eligible(s.p.db.jobs[0], now) && !OverBudget(s.p.db.jobs[0])
    requires token !in s.p.db.issued && token !in s.p.attempts && token !in s.compared
    ensures var next := SplitAct(cfg, SplitAct(cfg, SplitAct(cfg, s, Other(DoTransaction(OpClaim(0, token, now)))),
                                               Other(DoStart(token))), Compare(token));
            && ReadyToAppend(next, view, row) && next.p.db.jobs[0] == ClaimedJob(cfg, s.p.db.jobs[0], token, now)
            && next.p.db.issued == s.p.db.issued[token := 0]
            && next.p.attempts == s.p.attempts[token := AppendAttempt(0, Started)]
            && next.compared == s.compared[token := Compared([], [row], LandedOf(s, 0))] && next.landed == s.landed
  {
    assert [] + [row] == [row];
    assert !Conflicting([row]);
  }

  lemma Adds(s: Split, token: Token, view: ViewRef, row: EventRow)
    requires token in s.compared && token in s.p.attempts && s.p.attempts[token] == AppendAttempt(0, Started)
    requires IsAppend(s.p.db, 0) && s.p.db.jobs[0].payload.view == view
    requires s.compared[token].before == [] && s.compared[token].rows == [row]
    ensures WriteStep(s, token).p.views == s.p.views[view := ViewRows(s.p, view) + [row]]
  {
    assert [row][..0] == [];
    assert !HasId<EventPayload>([], row.eventId);
    assert FirstUnseen<EventPayload>([], [row]) == [row];
  }

  /**
   * Exactly once fails for the two-step append: a worker compares and stalls, its lease lapses, a second worker
   * compares and writes, and then the first one writes. The view holds the event twice.
   */
  lemma StalledWriterRepeats(cfg: Settings, key: EventKey, payload: EventPayload)
    requires cfg.maxAttempts >= 2
    ensures ViewRows(SplitRun(cfg, Staging(key, payload) + Stalling() + Overtaking(cfg) + [Write(1)]).p, key.view)
            == [Row(key.eventId, payload), Row(key.eventId, payload)]
  {
    var row := Row(key.eventId, payload);
    var first, later := Staging(key, payload), Seconds(cfg.leaseSeconds);
    Staged(cfg, key, payload);
    RunThree(cfg, first, Stalling()[0], Stalling()[1], Stalling()[2]);
    Compares(cfg, SplitRun(cfg, first), 1, 0, key.view, row);
    var s7 := SplitRun(cfg, first + Stalling());
    RunFour(cfg, first + Stalling(), Overtaking(cfg)[0], Overtaking(cfg)[1], Overtaking(cfg)[2], Overtaking(cfg)[3]);
    Compares(cfg, s7, 2, later, key.view, row);
    RunMore(cfg, first + Stalling() + Overtaking(cfg), Write(1));
    Overtaken(cfg, s7, key.view, row);
  }

  lemma Overtaken(cfg: Settings, s: Split, view: ViewRef, row: EventRow)
    requires ReadyToAppend(s, view, row) && s.p.attempts == map[1 := AppendAttempt(0, Started)]
    requires s.compared == map[1 := Compared([], [row], 0)] && s.p.db.issued == map[1 := 0] && s.landed == map[]
    requires Eligible(s.p.db.jobs[0], Seconds(cfg.leaseSeconds)) && !OverBudget(s.p.db.jobs[0])
    ensures var a := Overtaking(cfg);
            var s11 := SplitAct(cfg, SplitAct(cfg, SplitAct(cfg, SplitAct(cfg, s, a[0]), a[1]), a[2]), a[3]);
            ViewRows(SplitAct(cfg, s11, Write(1)).p, view) == [row, row]
  {
    var a := Overtaking(cfg);
    Compares(cfg, s, 2, Seconds(cfg.leaseSeconds), view, row);
    var s10 := SplitAct(cfg, SplitAct(cfg, SplitAct(cfg, s, a[0]), a[1]), a[2]);
    Adds(s10, 2, view, row);
    var s11 := WriteStep(s10, 2);
    Adds(s11, 1, view, row);
  }
}
