/**
 * Artifacts of asynchronous historical queries: the durable input of a job and one result per attempt. No
 * lease protects the artifact store, so stale attempts write and delete in it at any time.
 */
module Artifacts {
  import opened Common
  import opened Jobs
  import opened JobInvariants

  /** One attempt after it has written its result: not yet finalized, finalization failed, or over. */
  datatype Phase = Wrote | Lost | Ended

  type Client = nat

  /**
   * `results` are named by the lease token of their attempt, which is part of their URI. `checked` holds the
   * retries whose check has passed and whose update has not landed. `gone` and `taken` are history: the jobs
   * whose artifacts some sweep has deleted, and the results those sweeps deleted.
   */
  datatype World = World(
    db: Database, inputs: set<JobId>, results: set<Token>, attempts: map<Token, Phase>,
    checked: map<Client, JobId>, gone: set<JobId>, taken: set<Token>)

  const EMPTY_WORLD := World(EMPTY_DATABASE, {}, {}, map[], map[], {}, {})

  datatype Action =
    | WriteInput(id: JobId)                              // creation, before its transaction
    | CreateJob(id: JobId, observations: nat, now: Time) // that transaction
    | DropInput(id: JobId)                               // what follows when it fails
    | Transaction(op: Op)                                // any other transaction of the job service
    | CheckRetry(client: Client, id: JobId, now: Time)   // a retry: its check, on an unlocked read
    | LandRetry(client: Client)                          // and its update, any time later
    | RetryAtOnce(id: JobId, now: Time)                  // both, with nothing in between
    | WriteResult(token: Token)
    | Publish(token: Token, now: Time)                   // the success transaction of the attempt
    | FailToPublish(token: Token)
    | Discard(token: Token)                              // the attempt deletes its own unpublished result
    | Sweep(id: JobId, now: Time)                        // delete and mark, under the row's lock
    | SweepCrash(id: JobId, now: Time)                   // delete, then crash before the commit

  predicate Historical(db: Database, id: JobId) {
    id in db.jobs && db.jobs[id].kind == HistoricalQuery
  }

  /** The transactions modelled by actions of their own. */
  predicate Special(db: Database, op: Op) {
    || op.OpCreateHistorical? || op.OpClean?
    || ((op.OpSucceed? || op.OpRetry?) && Historical(db, op.id))
  }

  function ResultsOf(w: World, id: JobId): set<Token> {
    set token | token in w.results && token in w.db.issued && w.db.issued[token] == id
  }

  /** Deletes the whole directory of a job. */
  function WithoutJob(w: World, id: JobId): World {
    w.(inputs := w.inputs - {id}, results := w.results - ResultsOf(w, id),
       gone := w.gone + {id}, taken := w.taken + ResultsOf(w, id))
  }

  function Act(cfg: Settings, w: World, a: Action): World {
    match a
    case WriteInput(id) => if id in w.db.jobs then w else w.(inputs := w.inputs + {id})
    case CreateJob(id, observations, now) =>
      if id in w.inputs && id !in w.db.jobs then w.(db := Step(cfg, w.db, OpCreateHistorical(id, observations, now)))
      else w
    case DropInput(id) => if id in w.db.jobs then w else w.(inputs := w.inputs - {id})
    case Transaction(op) => if Special(w.db, op) then w else w.(db := Step(cfg, w.db, op))
    case CheckRetry(client, id, now) =>
      if Historical(w.db, id) && MayRetry(w.db.jobs[id], now) then w.(checked := w.checked[client := id]) else w
    case LandRetry(client) =>
      if client in w.checked then
        w.(db := Step(cfg, w.db, OpRetry(w.checked[client])), checked := w.checked - {client})
      else w
    case RetryAtOnce(id, now) =>
      if Historical(w.db, id) && MayRetry(w.db.jobs[id], now) then w.(db := Step(cfg, w.db, OpRetry(id))) else w
    case WriteResult(token) =>
      if token in w.db.issued && Historical(w.db, w.db.issued[token]) && token !in w.attempts then
        w.(results := w.results + {token}, attempts := w.attempts[token := Wrote])
      else w
    case Publish(token, now) =>
      if token in w.attempts && w.attempts[token] == Wrote && token in w.db.issued then
        var tx := Succeed(cfg, w.db, w.db.issued[token], token, Some(token), None, now);
        w.(db := tx.db, attempts := w.attempts[token := if tx.reply == Accepted then Ended else Lost])
      else w
    case FailToPublish(token) =>
      if token in w.attempts && w.attempts[token] == Wrote then w.(attempts := w.attempts[token := Lost]) else w
    case Discard(token) =>
      if token in w.attempts && w.attempts[token] == Lost then
        w.(results := w.results - {token}, attempts := w.attempts[token := Ended])
      else w
    case Sweep(id, now) =>
      if id in w.db.jobs && Cleanable(w.db.jobs[id], now) then
        WithoutJob(w, id).(db := Step(cfg, w.db, OpClean(id, now)))
      else w
    case SweepCrash(id, now) =>
      if id in w.db.jobs && Cleanable(w.db.jobs[id], now) then WithoutJob(w, id) else w
  }

  function Run(cfg: Settings, actions: seq<Action>): World {
    if actions == [] then EMPTY_WORLD
    else Act(cfg, Run(cfg, actions[..|actions| - 1]), actions[|actions| - 1])
  }

  // ---- job rows --------------------------------------------------------------------------------------

  /** Only a retry or the sweep changes a terminal job. */
  lemma TerminalStays(cfg: Settings, db: Database, op: Op, id: JobId)
    requires id in db.jobs && !IsActive(db.jobs[id].status)
    requires !(op.OpRetry? && op.id == id) && !op.OpClean?
    ensures id in Step(cfg, db, op).jobs && Step(cfg, db, op).jobs[id] == db.jobs[id]
  {
    if Target(op) != Some(id) { StepFrame(cfg, db, op, id); }
  }

  lemma NewJobsAreNotHistorical(cfg: Settings, db: Database, op: Op, id: JobId)
    requires id !in db.jobs && id in Step(cfg, db, op).jobs
    ensures Step(cfg, db, op).jobs[id].status == Pending
    ensures Historical(Step(cfg, db, op), id) ==> op.OpCreateHistorical? && op.id == id
  {}

  /** A successful transaction publishes the result it names. */
  lemma PublishedRow(cfg: Settings, db: Database, id: JobId, token: Token, now: Time)
    requires Historical(db, id) && LeaseInv(db)
    ensures var tx := Succeed(cfg, db, id, token, Some(token), None, now);
            if Owns(db, id, token, now)
            then tx.reply == Accepted && tx.db.jobs[id].status == Succeeded && tx.db.jobs[id].resultUri == Some(token)
                 && tx.db.issued == db.issued && tx.db.jobs == db.jobs[id := tx.db.jobs[id]]
                 && tx.db.jobs[id].kind == HistoricalQuery
            else tx.reply == LeaseLost && tx.db == db
  {}

  lemma SucceededRow(cfg: Settings, db: Database, op: Op, id: JobId)
    requires id in db.jobs && db.jobs[id].status == Succeeded
    ensures id in Step(cfg, db, op).jobs && Step(cfg, db, op).jobs[id].resultUri == db.jobs[id].resultUri
  {
    if Target(op) != Some(id) { StepFrame(cfg, db, op, id); }
  }

  // ---- who owns a published result ---------------------------------------------------------------------

  ghost predicate HasResult(db: Database, id: JobId, token: Token) {
    Historical(db, id) && db.jobs[id].status == Succeeded && db.jobs[id].resultUri == Some(token)
  }

  /** The attempts and results known so far belong to historical jobs, and a published one is over. */
  ghost predicate OwnerInv(w: World) {
    && LeaseInv(w.db)
    && (forall token | token in w.attempts :: token in w.db.issued && Historical(w.db, w.db.issued[token]))
    && w.results <= w.attempts.Keys && w.taken <= w.attempts.Keys
    && (forall id, token | HasResult(w.db, id, token) ::
          token in w.attempts && w.attempts[token] == Ended && w.db.issued[token] == id)
  }

  /** A transaction other than a publication leaves results where they are. */
  lemma TransactionOwners(cfg: Settings, w: World, op: Op)
    requires OwnerInv(w) && !(op.OpSucceed? && Historical(w.db, op.id))
    ensures OwnerInv(w.(db := Step(cfg, w.db, op)))
  {
    var next := w.(db := Step(cfg, w.db, op));
    LeaseStep(cfg, w.db, op);
    forall token | token in next.attempts
      ensures token in next.db.issued && next.db.issued[token] == w.db.issued[token]
      ensures Historical(next.db, next.db.issued[token])
    {
      StepKeepsIssued(cfg, w.db, op, token);
      StepKeepsJob(cfg, w.db, op, w.db.issued[token]);
    }
    forall id, token | HasResult(next.db, id, token) ensures HasResult(w.db, id, token) {
      OldResult(cfg, w.db, op, id, token);
    }
  }

  lemma OldResult(cfg: Settings, db: Database, op: Op, id: JobId, token: Token)
    requires HasResult(Step(cfg, db, op), id, token) && !(op.OpSucceed? && Historical(db, op.id))
    ensures HasResult(db, id, token)
  {
    if id in db.jobs {
      StepKeepsJob(cfg, db, op, id);
      if db.jobs[id].status != Succeeded {
        OnlySuccessSucceeds(cfg, db, op, id);
      } else {
        SucceededRow(cfg, db, op, id);
      }
    } else {
      NewJobsAreNotHistorical(cfg, db, op, id);
    }
  }

  lemma OnlySuccessSucceeds(cfg: Settings, db: Database, op: Op, id: JobId)
    requires id in db.jobs && id in Step(cfg, db, op).jobs
    requires db.jobs[id].status != Succeeded && Step(cfg, db, op).jobs[id].status == Succeeded
    ensures op.OpSucceed? && op.id == id
  {
    if Target(op) != Some(id) { StepFrame(cfg, db, op, id); }
  }

  lemma PublishOwners(cfg: Settings, w: World, token: Token, now: Time)
    requires OwnerInv(w)
    ensures OwnerInv(Act(cfg, w, Publish(token, now)))
  {
    var next := Act(cfg, w, Publish(token, now));
    if next != w {
      var id := w.db.issued[token];
      LeaseStep(cfg, w.db, OpSucceed(id, token, Some(token), None, now));
      PublishedRow(cfg, w.db, id, token, now);
      forall other, t | HasResult(next.db, other, t)
        ensures t in next.attempts && next.attempts[t] == Ended && next.db.issued[t] == other
      {
        if !(other == id && Owns(w.db, id, token, now)) { assert HasResult(w.db, other, t); }
      }
    }
  }

  /** Whatever leaves the database alone and only moves attempts that have published nothing. */
  lemma StoreOwners(w: World, next: World)
    requires OwnerInv(w) && next.db == w.db
    requires next.results <= next.attempts.Keys && next.taken <= next.attempts.Keys
    requires forall token | token in next.attempts && token !in w.attempts ::
      token in w.db.issued && Historical(w.db, w.db.issued[token])
    requires forall token | token in w.attempts ::
      token in next.attempts && (w.attempts[token] == Ended ==> next.attempts[token] == Ended)
    ensures OwnerInv(next)
  {
    forall id, token | HasResult(next.db, id, token)
      ensures token in next.attempts && next.attempts[token] == Ended && next.db.issued[token] == id
    {
      assert HasResult(w.db, id, token);
    }
  }

  lemma SweepOwners(cfg: Settings, w: World, id: JobId, now: Time)
    requires OwnerInv(w)
    ensures OwnerInv(Act(cfg, w, Sweep(id, now)))
  {
    StoreOwners(w, WithoutJob(w, id));
    TransactionOwners(cfg, WithoutJob(w, id), OpClean(id, now));
  }

  lemma ActKeepsOwners(cfg: Settings, w: World, a: Action)
    requires OwnerInv(w)
    ensures OwnerInv(Act(cfg, w, a))
  {
    match a
    case CreateJob(id, observations, now) => TransactionOwners(cfg, w, OpCreateHistorical(id, observations, now));
    case Transaction(op) => if !Special(w.db, op) { TransactionOwners(cfg, w, op); }
    case LandRetry(client) => if client in w.checked { TransactionOwners(cfg, w, OpRetry(w.checked[client])); }
    case RetryAtOnce(id, now) => TransactionOwners(cfg, w, OpRetry(id));
    case Publish(token, now) => PublishOwners(cfg, w, token, now);
    case Sweep(id, now) => SweepOwners(cfg, w, id, now);
    case _ => QuietOwners(cfg, w, a);
  }

  lemma QuietOwners(cfg: Settings, w: World, a: Action)
    requires OwnerInv(w) && Act(cfg, w, a).db == w.db && !a.Publish?
    ensures OwnerInv(Act(cfg, w, a))
  {
    StoreOwners(w, Act(cfg, w, a));
  }

  lemma {:induction false} RunKeepsOwners(cfg: Settings, actions: seq<Action>)
    ensures OwnerInv(Run(cfg, actions))
  {
    if actions != [] {
      RunKeepsOwners(cfg, actions[..|actions| - 1]);
      ActKeepsOwners(cfg, Run(cfg, actions[..|actions| - 1]), actions[|actions| - 1]);
    }
  }

  /**
   * A published result disappears only through the sweep, and only once it has expired: no attempt that
   * lost its lease, nor anything else, ever deletes it. This needs nothing of any clock.
   */
  lemma OnlyTheSweepDeletes(cfg: Settings, actions: seq<Action>, a: Action, id: JobId, token: Token)
    requires HasResult(Run(cfg, actions).db, id, token) && token in Run(cfg, actions).results
    ensures token !in Act(cfg, Run(cfg, actions), a).results ==>
              (a.Sweep? || a.SweepCrash?) && a.id == id
              && Run(cfg, actions).db.jobs[id].artifactExpiresAt.Some?
              && Run(cfg, actions).db.jobs[id].artifactExpiresAt.value <= a.now
  {
    RunKeepsOwners(cfg, actions);
  }

  // ---- what is in the store ----------------------------------------------------------------------------

  /** The input of a historical job is there exactly until some sweep deletes it. */
  ghost predicate InputInv(w: World) {
    && (forall id | Historical(w.db, id) :: id in w.inputs <==> id !in w.gone)
    && (forall id | id in w.gone :: Historical(w.db, id))
  }

  lemma TransactionInputs(cfg: Settings, w: World, op: Op)
    requires InputInv(w) && (op.OpCreateHistorical? ==> op.id in w.inputs)
    ensures InputInv(w.(db := Step(cfg, w.db, op)))
  {
    var next := w.(db := Step(cfg, w.db, op));
    forall id | Historical(next.db, id) ensures id in next.inputs <==> id !in next.gone {
      if id in w.db.jobs { StepKeepsJob(cfg, w.db, op, id); } else { NewJobsAreNotHistorical(cfg, w.db, op, id); }
    }
    forall id | id in next.gone ensures Historical(next.db, id) { StepKeepsJob(cfg, w.db, op, id); }
  }

  lemma ActKeepsInputs(cfg: Settings, w: World, a: Action)
    requires InputInv(w)
    ensures InputInv(Act(cfg, w, a))
  {
    match a
    case CreateJob(id, observations, now) =>
      if id in w.inputs { TransactionInputs(cfg, w, OpCreateHistorical(id, observations, now)); }
    case Transaction(op) => if !Special(w.db, op) { TransactionInputs(cfg, w, op); }
    case LandRetry(client) => if client in w.checked { TransactionInputs(cfg, w, OpRetry(w.checked[client])); }
    case RetryAtOnce(id, now) => TransactionInputs(cfg, w, OpRetry(id));
    case Publish(token, now) => PublishInputs(cfg, w, token, now);
    case Sweep(id, now) => SweepInputs(cfg, w, id, now);
    case _ =>
  }

  lemma PublishInputs(cfg: Settings, w: World, token: Token, now: Time)
    requires InputInv(w)
    ensures InputInv(Act(cfg, w, Publish(token, now)))
  {
    if token in w.db.issued {
      TransactionInputs(cfg, w, OpSucceed(w.db.issued[token], token, Some(token), None, now));
    }
  }

  lemma SweepInputs(cfg: Settings, w: World, id: JobId, now: Time)
    requires InputInv(w)
    ensures InputInv(Act(cfg, w, Sweep(id, now)))
  {
    if id in w.db.jobs && Cleanable(w.db.jobs[id], now) {
      TransactionInputs(cfg, WithoutJob(w, id), OpClean(id, now));
    }
  }

  lemma {:induction false} RunKeepsInputs(cfg: Settings, actions: seq<Action>)
    ensures InputInv(Run(cfg, actions))
  {
    if actions != [] {
      RunKeepsInputs(cfg, actions[..|actions| - 1]);
      ActKeepsInputs(cfg, Run(cfg, actions[..|actions| - 1]), actions[|actions| - 1]);
    }
  }

  /** A result that is published, or still to be, is there exactly until some sweep deletes it. */
  ghost predicate ResultInv(w: World) {
    && OwnerInv(w)
    && WroteOk(w)
    && (forall id, token | HasResult(w.db, id, token) :: token in w.results <==> token !in w.taken)
  }

  lemma ActKeepsResults(cfg: Settings, w: World, a: Action)
    requires ResultInv(w)
    ensures ResultInv(Act(cfg, w, a))
  {
    var next := Act(cfg, w, a);
    ActKeepsOwners(cfg, w, a);
    WroteMoves(cfg, w, a);
    forall id, token | HasResult(next.db, id, token) ensures token in next.results <==> token !in next.taken {
      ResultMoves(cfg, w, a, id, token);
    }
  }

  /** A result still to be published is there exactly until some sweep deletes it. */
  ghost predicate WroteOk(w: World) {
    forall token | token in w.attempts && w.attempts[token] == Wrote :: token in w.results <==> token !in w.taken
  }

  lemma WroteMoves(cfg: Settings, w: World, a: Action)
    requires WroteOk(w) && w.taken <= w.attempts.Keys
    ensures WroteOk(Act(cfg, w, a))
  {}

  /** A published result was published before the action or is the one it publishes, and moves only with a sweep. */
  lemma ResultMoves(cfg: Settings, w: World, a: Action, id: JobId, token: Token)
    requires ResultInv(w) && HasResult(Act(cfg, w, a).db, id, token)
    ensures var next := Act(cfg, w, a); token in next.results <==> token !in next.taken
  {
    match a
    case CreateJob(i, n, now) =>
      if Act(cfg, w, a) != w { OldResult(cfg, w.db, OpCreateHistorical(i, n, now), id, token); }
    case Transaction(op) => if !Special(w.db, op) { OldResult(cfg, w.db, op, id, token); }
    case LandRetry(client) => if client in w.checked { OldResult(cfg, w.db, OpRetry(w.checked[client]), id, token); }
    case RetryAtOnce(i, now) => if Act(cfg, w, a) != w { OldResult(cfg, w.db, OpRetry(i), id, token); }
    case Publish(t, now) =>
      if t in w.attempts && w.attempts[t] == Wrote && t in w.db.issued {
        PublishedRow(cfg, w.db, w.db.issued[t], t, now);
        if token != t { assert HasResult(w.db, id, token); }
      }
    case Sweep(i, now) => if Act(cfg, w, a) != w { OldResult(cfg, w.db, OpClean(i, now), id, token); }
    case _ => assert HasResult(w.db, id, token);
  }

  lemma {:induction false} RunKeepsResults(cfg: Settings, actions: seq<Action>)
    ensures ResultInv(Run(cfg, actions))
  {
    if actions != [] {
      RunKeepsResults(cfg, actions[..|actions| - 1]);
      ActKeepsResults(cfg, Run(cfg, actions[..|actions| - 1]), actions[|actions| - 1]);
    }
  }

  /**
   * What the store holds, exactly and for every run, with no assumption on clocks: a historical job has its
   * input until some sweep of it deletes, and the published result of a succeeded one is in place until some
   * sweep takes it. Cancelling, retrying, reclaiming and losing attempts delete neither.
   */
  lemma StoreExactly(cfg: Settings, actions: seq<Action>, id: JobId)
    requires Historical(Run(cfg, actions).db, id)
    ensures var w := Run(cfg, actions);
            && (id in w.inputs <==> id !in w.gone)
            && (forall token | HasResult(w.db, id, token) :: token in w.results <==> token !in w.taken)
  {
    RunKeepsInputs(cfg, actions);
    RunKeepsResults(cfg, actions);
  }

  // ---- retention -----------------------------------------------------------------------------------------

  /** Every historical job that is pending, retrying or running has its input. */
  ghost predicate AllKept(w: World) {
    forall id | Historical(w.db, id) && IsActive(w.db.jobs[id].status) :: id in w.inputs
  }

  /**
   * The update of a retry lands only on a job whose artifacts no sweep, complete or crashed, has deleted by
   * then; a retry made at once is refused for such a job by its own check.
   */
  ghost predicate GuardHolds(w: World, a: Action) {
    match a
    case LandRetry(client) =>
      client in w.checked && w.checked[client] in w.gone && w.checked[client] in w.db.jobs ==>
        !Revivable(w.db.jobs[w.checked[client]].status)
    case RetryAtOnce(id, now) =>
      id in w.gone && id in w.db.jobs && RetryableStatus(w.db.jobs[id]) ==> ArtifactsExpired(w.db.jobs[id], now)
    case _ => true
  }

  /** A transaction that is no retry of it makes no historical job active. */
  lemma OrdinaryNeverRevives(cfg: Settings, db: Database, op: Op, id: JobId)
    requires !op.OpCreateHistorical? && !(op.OpRetry? && op.id == id)
    requires Historical(Step(cfg, db, op), id) && IsActive(Step(cfg, db, op).jobs[id].status)
    ensures Historical(db, id) && IsActive(db.jobs[id].status)
  {
    if id in db.jobs {
      StepKeepsJob(cfg, db, op, id);
      if !IsActive(db.jobs[id].status) {
        if op.OpClean? { CleanKeepsStatus(cfg, db, op, id); } else { TerminalStays(cfg, db, op, id); }
      }
    } else {
      NewJobsAreNotHistorical(cfg, db, op, id);
    }
  }

  lemma CleanKeepsStatus(cfg: Settings, db: Database, op: Op, id: JobId)
    requires op.OpClean? && id in db.jobs
    ensures id in Step(cfg, db, op).jobs && Step(cfg, db, op).jobs[id].status == db.jobs[id].status
  {}

  /** What the update of a retry does to a historical job: it revives it exactly when its status allows. */
  lemma RetriedRow(cfg: Settings, db: Database, id: JobId)
    requires Historical(db, id)
    ensures Historical(Step(cfg, db, OpRetry(id)), id)
    ensures IsActive(Step(cfg, db, OpRetry(id)).jobs[id].status)
            <==> IsActive(db.jobs[id].status) || Revivable(db.jobs[id].status)
  {}

  lemma TransactionRetains(cfg: Settings, w: World, op: Op)
    requires AllKept(w) && !op.OpCreateHistorical?
    ensures forall id | Historical(Step(cfg, w.db, op), id) && IsActive(Step(cfg, w.db, op).jobs[id].status)
                        && !(op.OpRetry? && op.id == id) :: id in w.inputs
  {
    forall id | Historical(Step(cfg, w.db, op), id) && IsActive(Step(cfg, w.db, op).jobs[id].status)
                && !(op.OpRetry? && op.id == id)
      ensures id in w.inputs
    {
      OrdinaryNeverRevives(cfg, w.db, op, id);
    }
  }

  /** The update of a retry keeps every input exactly when it does not revive a job whose input is gone. */
  lemma RetryRetains(cfg: Settings, w: World, id: JobId)
    requires InputInv(w) && AllKept(w) && Historical(w.db, id)
    ensures AllKept(w.(db := Step(cfg, w.db, OpRetry(id)))) <==> (id in w.gone ==> !Revivable(w.db.jobs[id].status))
  {
    RetriedRow(cfg, w.db, id);
    TransactionRetains(cfg, w, OpRetry(id));
  }

  lemma OtherRetry(cfg: Settings, w: World, id: JobId)
    requires AllKept(w) && !Historical(w.db, id)
    ensures AllKept(w.(db := Step(cfg, w.db, OpRetry(id))))
  {
    TransactionRetains(cfg, w, OpRetry(id));
    var next := Step(cfg, w.db, OpRetry(id));
    if Historical(next, id) {
      if id in w.db.jobs { StepKeepsJob(cfg, w.db, OpRetry(id), id); }
    }
  }

  /** One step, exactly: if every active job has its input now, it still does exactly when the guard holds. */
  lemma StepRetains(cfg: Settings, w: World, a: Action)
    requires InputInv(w) && AllKept(w)
    ensures AllKept(Act(cfg, w, a)) <==> GuardHolds(w, a)
  {
    match a
    case LandRetry(client) =>
      if client in w.checked {
        if Historical(w.db, w.checked[client]) {
          RetryRetains(cfg, w, w.checked[client]);
        } else {
          OtherRetry(cfg, w, w.checked[client]);
        }
      }
    case RetryAtOnce(id, now) =>
      if Historical(w.db, id) { RetryRetains(cfg, w, id); }
    case Transaction(op) => if !Special(w.db, op) { OrdinaryRetains(cfg, w, op); }
    case Publish(token, now) =>
      if token in w.db.issued { OrdinaryRetains(cfg, w, OpSucceed(w.db.issued[token], token, Some(token), None, now)); }
    case CreateJob(id, observations, now) =>
      if id in w.inputs && id !in w.db.jobs { CreationRetains(cfg, w, id, observations, now); }
    case Sweep(id, now) =>
      if id in w.db.jobs && Cleanable(w.db.jobs[id], now) {
        SweepRetains(cfg, w, id, now);
        OrdinaryRetains(cfg, WithoutJob(w, id), OpClean(id, now));
      }
    case SweepCrash(id, now) =>
      if id in w.db.jobs && Cleanable(w.db.jobs[id], now) { SweepRetains(cfg, w, id, now); }
    case _ =>
  }

  lemma OrdinaryRetains(cfg: Settings, w: World, op: Op)
    requires AllKept(w) && !op.OpCreateHistorical? && !(op.OpRetry? && Historical(w.db, op.id))
    ensures AllKept(w.(db := Step(cfg, w.db, op)))
  {
    if op.OpRetry? { OtherRetry(cfg, w, op.id); } else { TransactionRetains(cfg, w, op); }
  }

  lemma CreationRetains(cfg: Settings, w: World, id: JobId, observations: nat, now: Time)
    requires AllKept(w) && id in w.inputs && id !in w.db.jobs
    ensures AllKept(w.(db := Step(cfg, w.db, OpCreateHistorical(id, observations, now))))
  {}

  lemma SweepRetains(cfg: Settings, w: World, id: JobId, now: Time)
    requires AllKept(w) && id in w.db.jobs && Cleanable(w.db.jobs[id], now)
    ensures AllKept(WithoutJob(w, id))
  {}

  /**
   * Retention, exactly: over any run, every historical job that is pending, retrying or running has its input
   * at every moment if and only if the guard holds at every step. So the only way to lose an input is the
   * update of a retry that lands on a job whose artifacts a sweep has deleted.
   */
  lemma {:induction false} RetentionExactly(cfg: Settings, actions: seq<Action>)
    ensures (forall k | 0 <= k <= |actions| :: AllKept(Run(cfg, actions[..k])))
            <==> (forall k | 0 <= k < |actions| :: GuardHolds(Run(cfg, actions[..k]), actions[k]))
  {
    if actions == [] {
      assert actions[..0] == [];
    } else {
      var n := |actions| - 1;
      var init := actions[..n];
      RetentionExactly(cfg, init);
      forall k | 0 <= k <= n ensures init[..k] == actions[..k] {}
      assert actions[..n + 1] == actions;
      RunKeepsInputs(cfg, init);
      if AllKept(Run(cfg, init)) { StepRetains(cfg, Run(cfg, init), actions[n]); }
      KeptPrefixes(cfg, actions, n);
      GuardPrefixes(cfg, actions, n);
    }
  }

  lemma KeptPrefixes(cfg: Settings, actions: seq<Action>, n: nat)
    requires |actions| == n + 1
    ensures (forall k | 0 <= k <= n + 1 :: AllKept(Run(cfg, actions[..k])))
            <==> (forall k | 0 <= k <= n :: AllKept(Run(cfg, actions[..n][..k]))) && AllKept(Run(cfg, actions))
  {
    assert actions[..n + 1] == actions;
    assert forall k | 0 <= k <= n :: actions[..n][..k] == actions[..k];
  }

  lemma GuardPrefixes(cfg: Settings, actions: seq<Action>, n: nat)
    requires |actions| == n + 1
    ensures (forall k | 0 <= k < n + 1 :: GuardHolds(Run(cfg, actions[..k]), actions[k]))
            <==> (forall k | 0 <= k < n :: GuardHolds(Run(cfg, actions[..n][..k]), actions[..n][k]))
                 && GuardHolds(Run(cfg, actions[..n]), actions[n])
  {
    assert forall k | 0 <= k <= n :: actions[..n][..k] == actions[..k];
  }

  // ---- when the guard holds --------------------------------------------------------------------------------

  /** No sweep crashes between deleting and committing, and every retry is made at once. */
  ghost predicate Undisturbed(actions: seq<Action>) {
    forall k | 0 <= k < |actions| :: !actions[k].SweepCrash? && !actions[k].CheckRetry?
  }

  /** Whatever has been deleted is marked as cleaned, and no retry is waiting to land. */
  ghost predicate Marked(w: World) {
    w.checked == map[] && forall id | id in w.gone :: id in w.db.jobs && w.db.jobs[id].artifactsCleanedAt.Some?
                                        && !IsActive(w.db.jobs[id].status)
  }

  lemma MarkStays(cfg: Settings, db: Database, op: Op, id: JobId)
    requires id in db.jobs && db.jobs[id].artifactsCleanedAt.Some? && !IsActive(db.jobs[id].status)
    requires !(op.OpRetry? && op.id == id)
    ensures var next := Step(cfg, db, op);
            id in next.jobs && next.jobs[id].artifactsCleanedAt.Some? && !IsActive(next.jobs[id].status)
  {
    if Target(op) != Some(id) { StepFrame(cfg, db, op, id); }
  }

  lemma MarkedStep(cfg: Settings, w: World, a: Action)
    requires InputInv(w) && Marked(w) && !a.SweepCrash? && !a.CheckRetry?
    ensures Marked(Act(cfg, w, a)) && GuardHolds(w, a)
  {
    var next := Act(cfg, w, a);
    forall id | id in next.gone
      ensures id in next.db.jobs && next.db.jobs[id].artifactsCleanedAt.Some? && !IsActive(next.db.jobs[id].status)
    {
      if id in w.gone { MarkedJob(cfg, w, a, id); }
    }
  }

  lemma MarkedJob(cfg: Settings, w: World, a: Action, id: JobId)
    requires InputInv(w) && Marked(w) && id in w.gone
    ensures var next := Act(cfg, w, a).db;
            id in next.jobs && next.jobs[id].artifactsCleanedAt.Some? && !IsActive(next.jobs[id].status)
  {
    match a
    case CreateJob(i, n, now) => MarkStays(cfg, w.db, OpCreateHistorical(i, n, now), id);
    case Transaction(op) => if !Special(w.db, op) { MarkStays(cfg, w.db, op, id); }
    case RetryAtOnce(i, now) => if i != id { MarkStays(cfg, w.db, OpRetry(i), id); }
    case Publish(t, now) =>
      if t in w.db.issued { MarkStays(cfg, w.db, OpSucceed(w.db.issued[t], t, Some(t), None, now), id); }
    case Sweep(i, now) => MarkStays(cfg, w.db, OpClean(i, now), id);
    case _ =>
  }

  lemma {:induction false} UndisturbedMarked(cfg: Settings, actions: seq<Action>)
    requires Undisturbed(actions)
    ensures Marked(Run(cfg, actions))
  {
    if actions != [] {
      UndisturbedMarked(cfg, actions[..|actions| - 1]);
      RunKeepsInputs(cfg, actions[..|actions| - 1]);
      MarkedStep(cfg, Run(cfg, actions[..|actions| - 1]), actions[|actions| - 1]);
    }
  }

  /**
   * When no sweep crashes halfway and every retry is checked and lands at once, no clock matters: every input
   * is kept.
   */
  lemma UndisturbedRunsRetain(cfg: Settings, actions: seq<Action>)
    requires Undisturbed(actions)
    ensures AllKept(Run(cfg, actions))
  {
    forall k | 0 <= k < |actions| ensures GuardHolds(Run(cfg, actions[..k]), actions[k]) {
      UndisturbedMarked(cfg, actions[..k]);
      RunKeepsInputs(cfg, actions[..k]);
      MarkedStep(cfg, Run(cfg, actions[..k]), actions[k]);
    }
    RetentionExactly(cfg, actions);
    assert actions[..|actions|] == actions;
  }

  // ---- two runs in which an input is lost -----------------------------------------------------------------

  lemma CancelledRow(cfg: Settings, id: JobId)
    ensures var w := Run(cfg, [WriteInput(id), CreateJob(id, 1, 0), Transaction(OpCancel(id, 0))]);
            && Historical(w.db, id) && w.checked == map[]
            && w.db.jobs[id].status == Cancelled && w.db.jobs[id].artifactsCleanedAt.None?
            && w.db.jobs[id].artifactExpiresAt == Some(Seconds(cfg.resultTtl))
  {
    var a := [WriteInput(id), CreateJob(id, 1, 0), Transaction(OpCancel(id, 0))];
    assert a[..2][..1] == a[..1] && a[..1][..0] == [];
    assert Run(cfg, a[..1]) == EMPTY_WORLD.(inputs := {id});
    assert Run(cfg, a[..2]) == Act(cfg, Run(cfg, a[..1]), a[1]);
  }

  lemma RunMore(cfg: Settings, actions: seq<Action>, a: Action)
    ensures Run(cfg, actions + [a]) == Act(cfg, Run(cfg, actions), a)
  {
    assert (actions + [a])[..|actions|] == actions;
  }

  /** The job is waiting for a worker and has no input. */
  ghost predicate InputLost(w: World, id: JobId) {
    Historical(w.db, id) && w.db.jobs[id].status == Pending && id !in w.inputs
  }

  /** A sweep crashes after deleting, and a retry whose clock is just behind the expiry revives the job. */
  lemma CrashedSweepLosesInput(cfg: Settings, id: JobId)
    requires cfg.resultTtl >= 1
    ensures InputLost(Run(cfg, [WriteInput(id), CreateJob(id, 1, 0), Transaction(OpCancel(id, 0))]
                               + [SweepCrash(id, Seconds(cfg.resultTtl))]
                               + [RetryAtOnce(id, Seconds(cfg.resultTtl) - 1)]), id)
  {
    var start := [WriteInput(id), CreateJob(id, 1, 0), Transaction(OpCancel(id, 0))];
    CancelledRow(cfg, id);
    RunMore(cfg, start, SweepCrash(id, Seconds(cfg.resultTtl)));
    RunMore(cfg, start + [SweepCrash(id, Seconds(cfg.resultTtl))], RetryAtOnce(id, Seconds(cfg.resultTtl) - 1));
    CrashedThenRetried(cfg, Run(cfg, start), id);
  }

  lemma CrashedThenRetried(cfg: Settings, w: World, id: JobId)
    requires cfg.resultTtl >= 1 && Historical(w.db, id)
    requires w.db.jobs[id].status == Cancelled && w.db.jobs[id].artifactsCleanedAt.None?
    requires w.db.jobs[id].artifactExpiresAt == Some(Seconds(cfg.resultTtl))
    ensures InputLost(Act(cfg, Act(cfg, w, SweepCrash(id, Seconds(cfg.resultTtl))),
                          RetryAtOnce(id, Seconds(cfg.resultTtl) - 1)), id)
  {}

  /** With all clocks right: the check passes, a complete sweep commits, and the update lands and clears the mark. */
  lemma SweepBetweenCheckAndUpdate(cfg: Settings, id: JobId)
    requires cfg.resultTtl >= 1
    ensures var w := Run(cfg, [WriteInput(id), CreateJob(id, 1, 0), Transaction(OpCancel(id, 0))]
                              + [CheckRetry(0, id, Seconds(cfg.resultTtl) - 1)] + [Sweep(id, Seconds(cfg.resultTtl))]
                              + [LandRetry(0)]);
            InputLost(w, id) && w.db.jobs[id].artifactsCleanedAt.None?
  {
    var start := [WriteInput(id), CreateJob(id, 1, 0), Transaction(OpCancel(id, 0))];
    CancelledRow(cfg, id);
    RunMore(cfg, start, CheckRetry(0, id, Seconds(cfg.resultTtl) - 1));
    RunMore(cfg, start + [CheckRetry(0, id, Seconds(cfg.resultTtl) - 1)], Sweep(id, Seconds(cfg.resultTtl)));
    RunMore(cfg, start + [CheckRetry(0, id, Seconds(cfg.resultTtl) - 1)] + [Sweep(id, Seconds(cfg.resultTtl))],
            LandRetry(0));
    SweptThenLanded(cfg, Run(cfg, start).(checked := map[0 := id]), id);
  }

  lemma SweptThenLanded(cfg: Settings, w: World, id: JobId)
    requires w.checked == map[0 := id] && Historical(w.db, id)
    requires w.db.jobs[id].status == Cancelled && w.db.jobs[id].artifactsCleanedAt.None?
    requires w.db.jobs[id].artifactExpiresAt == Some(Seconds(cfg.resultTtl))
    ensures var next := Act(cfg, Act(cfg, w, Sweep(id, Seconds(cfg.resultTtl))), LandRetry(0));
            InputLost(next, id) && next.db.jobs[id].artifactsCleanedAt.None?
  {}

  // ---- the sweep itself --------------------------------------------------------------------------------

  function Expired(db: Database, now: Time): set<JobId> {
    set id | id in db.jobs && Cleanable(db.jobs[id], now)
  }

  function ResultsOfAll(w: World, ids: set<JobId>): set<Token> {
    set token | token in w.results && token in w.db.issued && w.db.issued[token] in ids
  }

  /** The world after the given expired jobs have been swept. */
  function Swept(w: World, ids: set<JobId>, now: Time): World {
    w.(db := w.db.(jobs := map id | id in w.db.jobs ::
                     if id in ids then w.db.jobs[id].(artifactsCleanedAt := Some(now)) else w.db.jobs[id]),
       inputs := w.inputs - ids, results := w.results - ResultsOfAll(w, ids),
       gone := w.gone + ids, taken := w.taken + ResultsOfAll(w, ids))
  }

  /** Sweeping one more job is one more sweep step. */
  lemma SweptOneMore(cfg: Settings, w: World, ids: set<JobId>, id: JobId, now: Time)
    requires id in Expired(w.db, now) && id !in ids
    ensures Act(cfg, Swept(w, ids, now), Sweep(id, now)) == Swept(w, ids + {id}, now)
  {
    var before, after := Swept(w, ids, now), Swept(w, ids + {id}, now);
    var next := Act(cfg, before, Sweep(id, now));
    assert next.db.jobs == after.db.jobs;
    assert next.inputs == after.inputs;
    assert next.results == after.results;
    assert next.gone == after.gone && next.taken == after.taken;
  }

  /** The sweep of `start` so far: the jobs swept, those left, and the count. */
  ghost predicate Sweeping(start: World, now: Time, jobs: set<JobId>, swept: set<JobId>, w: World, count: nat) {
    jobs !! swept && jobs + swept == Expired(start.db, now) && w == Swept(start, swept, now) && count == |swept|
  }

  lemma SweepRound(cfg: Settings, start: World, now: Time, jobs: set<JobId>, swept: set<JobId>, w: World, count: nat,
                   id: JobId)
    requires Sweeping(start, now, jobs, swept, w, count) && id in jobs
    ensures Sweeping(start, now, jobs - {id}, swept + {id}, Act(cfg, w, Sweep(id, now)), count + 1)
  {
    assert id in Expired(start.db, now);
    SweptOneMore(cfg, start, swept, id, now);
  }

  class Store {
    var world: World

    /** `cleanup_expired_artifacts`: it sweeps exactly the expired jobs, each once, and says how many. */
    method CleanupExpired(cfg: Settings, now: Time) returns (count: nat)
      modifies this
      ensures world == Swept(old(world), Expired(old(world).db, now), now)
      ensures count == |Expired(old(world).db, now)|
    {
      var jobs := Expired(world.db, now);
      ghost var swept: set<JobId> := {};
      count := 0;
      SweptNothing(world, now);
      while jobs != {}
        invariant Sweeping(old(world), now, jobs, swept, world, count)
        decreases jobs
      {
        var id :| id in jobs;
        SweepRound(cfg, old(world), now, jobs, swept, world, count, id);
        world := Act(cfg, world, Sweep(id, now));
        count := count + 1;
        jobs := jobs - {id};
        swept := swept + {id};
      }
    }
  }

  lemma SweptNothing(w: World, now: Time)
    ensures Swept(w, {}, now) == w
  {
    assert Swept(w, {}, now).db.jobs == w.db.jobs;
    assert Swept(w, {}, now).inputs == w.inputs;
    assert Swept(w, {}, now).results == w.results;
  }
}
