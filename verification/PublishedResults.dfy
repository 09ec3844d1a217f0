/**
 * Published results of asynchronous historical queries: exactly when each one whose job is not marked as cleaned
 * is in the store.
 */
module PublishedResults {
  import opened Common
  import opened Jobs
  import opened JobInvariants
  import opened Artifacts

  /** Every published result of a job that is not marked as cleaned is in place. */
  ghost predicate ResultsKept(w: World) {
    forall id, token | HasResult(w.db, id, token) && w.db.jobs[id].artifactsCleanedAt.None? :: token in w.results
  }

  /** No sweep of a job with a published result crashes between deleting it and committing the mark. */
  ghost predicate SweepCommits(w: World, a: Action) {
    a.SweepCrash? && a.id in w.db.jobs && Cleanable(w.db.jobs[a.id], a.now) ==>
      w.db.jobs[a.id].status != Succeeded || w.db.jobs[a.id].resultUri.None?
  }

  // ---- deleted results are never published ----------------------------------------------------------------

  /** Whatever a sweep has deleted belongs to an attempt that can no longer publish. */
  ghost predicate TakenDead(w: World) {
    forall token | token in w.taken :: TokenDead(w.db, token)
  }

  lemma TransactionTaken(cfg: Settings, w: World, op: Op)
    requires LeaseInv(w.db) && TakenDead(w)
    ensures TakenDead(w.(db := Step(cfg, w.db, op)))
  {
    forall token | token in w.taken ensures TokenDead(Step(cfg, w.db, op), token) { DeadStep(cfg, w.db, op, token); }
  }

  /** The sweep takes results of terminal jobs only, and their tokens are dead. */
  lemma SweepTaken(w: World, id: JobId, now: Time)
    requires LeaseInv(w.db) && TakenDead(w) && id in w.db.jobs && Cleanable(w.db.jobs[id], now)
    ensures TakenDead(WithoutJob(w, id))
  {
    forall token | token in ResultsOf(w, id) ensures TokenDead(w.db, token) {
      forall other | other in w.db.jobs ensures w.db.jobs[other].leaseToken != Some(token) {
        assert JobLease(w.db.issued, other, w.db.jobs[other]);
      }
    }
  }

  lemma ActKeepsTaken(cfg: Settings, w: World, a: Action)
    requires OwnerInv(w) && TakenDead(w)
    ensures TakenDead(Act(cfg, w, a))
  {
    match a
    case CreateJob(id, observations, now) => TransactionTaken(cfg, w, OpCreateHistorical(id, observations, now));
    case Transaction(op) => TransactionTaken(cfg, w, op);
    case LandRetry(client) => if client in w.checked { TransactionTaken(cfg, w, OpRetry(w.checked[client])); }
    case RetryAtOnce(id, now) => TransactionTaken(cfg, w, OpRetry(id));
    case Publish(token, now) =>
      if token in w.db.issued {
        TransactionTaken(cfg, w, OpSucceed(w.db.issued[token], token, Some(token), None, now));
      }
    case Sweep(id, now) =>
      if id in w.db.jobs && Cleanable(w.db.jobs[id], now) {
        SweepTaken(w, id, now);
        TransactionTaken(cfg, WithoutJob(w, id), OpClean(id, now));
      }
    case SweepCrash(id, now) => if id in w.db.jobs && Cleanable(w.db.jobs[id], now) { SweepTaken(w, id, now); }
    case _ =>
  }

  // ---- one step -------------------------------------------------------------------------------------------

  /** A mark stays on a succeeded job. */
  lemma SucceededMarkStays(cfg: Settings, db: Database, op: Op, id: JobId)
    requires id in db.jobs && db.jobs[id].status == Succeeded && db.jobs[id].artifactsCleanedAt.Some?
    ensures id in Step(cfg, db, op).jobs && Step(cfg, db, op).jobs[id].artifactsCleanedAt.Some?
  {
    if Target(op) != Some(id) { StepFrame(cfg, db, op, id); }
  }

  /** A published, unmarked result was so before the step, unless the step publishes it. */
  lemma OldUnmarked(cfg: Settings, db: Database, op: Op, id: JobId, token: Token)
    requires HasResult(Step(cfg, db, op), id, token) && Step(cfg, db, op).jobs[id].artifactsCleanedAt.None?
    requires !(op.OpSucceed? && Historical(db, op.id))
    ensures HasResult(db, id, token) && db.jobs[id].artifactsCleanedAt.None?
  {
    OldResult(cfg, db, op, id, token);
    if db.jobs[id].artifactsCleanedAt.Some? { SucceededMarkStays(cfg, db, op, id); }
  }

  lemma TransactionKeepsResults(cfg: Settings, w: World, op: Op)
    requires ResultsKept(w) && !(op.OpSucceed? && Historical(w.db, op.id))
    ensures ResultsKept(w.(db := Step(cfg, w.db, op)))
  {
    var next := Step(cfg, w.db, op);
    forall id, token | HasResult(next, id, token) && next.jobs[id].artifactsCleanedAt.None? ensures token in w.results {
      OldUnmarked(cfg, w.db, op, id, token);
    }
  }

  /** A result is in place when it is published: what a sweep has deleted belongs to a dead token. */
  lemma PublishKeepsResults(cfg: Settings, w: World, token: Token, now: Time)
    requires ResultInv(w) && TakenDead(w) && ResultsKept(w)
    ensures ResultsKept(Act(cfg, w, Publish(token, now)))
  {
    var next := Act(cfg, w, Publish(token, now));
    if next != w {
      var id := w.db.issued[token];
      PublishedRow(cfg, w.db, id, token, now);
      forall other, t | HasResult(next.db, other, t) && next.db.jobs[other].artifactsCleanedAt.None?
        ensures t in w.results
      {
        if !(other == id && Owns(w.db, id, token, now)) { assert HasResult(w.db, other, t); }
      }
    }
  }

  /** A complete sweep marks the job whose results it deletes. */
  lemma SweepKeepsResults(cfg: Settings, w: World, id: JobId, now: Time)
    requires OwnerInv(w) && ResultsKept(w) && id in w.db.jobs && Cleanable(w.db.jobs[id], now)
    ensures ResultsKept(Act(cfg, w, Sweep(id, now)))
  {
    var next := Act(cfg, w, Sweep(id, now));
    forall other, t | HasResult(next.db, other, t) && next.db.jobs[other].artifactsCleanedAt.None?
      ensures t in next.results
    {
      OldUnmarked(cfg, w.db, OpClean(id, now), other, t);
      assert other != id && w.db.issued[t] == other;
    }
  }

  /** A crashed one keeps every result in place exactly when it had none of a published job to delete. */
  lemma CrashExactly(w: World, id: JobId, now: Time)
    requires OwnerInv(w) && ResultsKept(w) && id in w.db.jobs && Cleanable(w.db.jobs[id], now)
    ensures ResultsKept(WithoutJob(w, id)) <==> w.db.jobs[id].status != Succeeded || w.db.jobs[id].resultUri.None?
  {
    var next := WithoutJob(w, id);
    if w.db.jobs[id].status == Succeeded && w.db.jobs[id].resultUri.Some? {
      var token := w.db.jobs[id].resultUri.value;
      assert HasResult(w.db, id, token) && token in ResultsOf(w, id);
    } else {
      forall other, t | HasResult(w.db, other, t) && w.db.jobs[other].artifactsCleanedAt.None?
        ensures t in next.results
      {
        assert other != id && w.db.issued[t] == other;
      }
    }
  }

  /** An action that leaves the database alone deletes only results that no job has published. */
  lemma QuietKeepsResults(cfg: Settings, w: World, a: Action)
    requires OwnerInv(w) && ResultsKept(w) && Act(cfg, w, a).db == w.db && !a.Sweep? && !a.SweepCrash? && !a.Publish?
    ensures ResultsKept(Act(cfg, w, a))
  {
    forall id, token | HasResult(w.db, id, token) && w.db.jobs[id].artifactsCleanedAt.None?
      ensures token in Act(cfg, w, a).results
    {
      assert token in w.results && w.attempts[token] == Ended;
    }
  }

  /** One step, exactly. */
  lemma StepExactly(cfg: Settings, w: World, a: Action)
    requires ResultInv(w) && TakenDead(w) && ResultsKept(w)
    ensures ResultsKept(Act(cfg, w, a)) <==> SweepCommits(w, a)
  {
    match a
    case CreateJob(id, observations, now) => TransactionKeepsResults(cfg, w, OpCreateHistorical(id, observations, now));
    case Transaction(op) => if !Special(w.db, op) { TransactionKeepsResults(cfg, w, op); }
    case LandRetry(client) => if client in w.checked { TransactionKeepsResults(cfg, w, OpRetry(w.checked[client])); }
    case RetryAtOnce(id, now) => TransactionKeepsResults(cfg, w, OpRetry(id));
    case Publish(token, now) => PublishKeepsResults(cfg, w, token, now);
    case Sweep(id, now) =>
      if id in w.db.jobs && Cleanable(w.db.jobs[id], now) { SweepKeepsResults(cfg, w, id, now); }
    case SweepCrash(id, now) =>
      if id in w.db.jobs && Cleanable(w.db.jobs[id], now) { CrashExactly(w, id, now); }
    case _ => QuietKeepsResults(cfg, w, a);
  }

  // ---- every run ------------------------------------------------------------------------------------------

  lemma {:induction false} RunKeepsTaken(cfg: Settings, actions: seq<Action>)
    ensures TakenDead(Run(cfg, actions))
  {
    if actions != [] {
      RunKeepsTaken(cfg, actions[..|actions| - 1]);
      RunKeepsOwners(cfg, actions[..|actions| - 1]);
      ActKeepsTaken(cfg, Run(cfg, actions[..|actions| - 1]), actions[|actions| - 1]);
    }
  }

  ghost predicate AlwaysKept(cfg: Settings, actions: seq<Action>) {
    ResultsKept(Run(cfg, actions)) && (actions != [] ==> AlwaysKept(cfg, actions[..|actions| - 1]))
  }

  ghost predicate SweepsCommit(cfg: Settings, actions: seq<Action>) {
    actions != [] ==>
      var init := actions[..|actions| - 1];
      SweepsCommit(cfg, init) && SweepCommits(Run(cfg, init), actions[|actions| - 1])
  }

  /**
   * Retention of results, exactly: over any run, every published result whose job is not marked as cleaned is in
   * place at every moment, if and only if no sweep of a job with a published result crashes between deleting and
   * committing. No clock, cancellation, retry or losing attempt matters.
   */
  lemma {:induction false} ResultsExactly(cfg: Settings, actions: seq<Action>)
    ensures AlwaysKept(cfg, actions) <==> SweepsCommit(cfg, actions)
  {
    if actions != [] {
      var init := actions[..|actions| - 1];
      ResultsExactly(cfg, init);
      RunKeepsTaken(cfg, init);
      RunKeepsResults(cfg, init);
      if ResultsKept(Run(cfg, init)) { StepExactly(cfg, Run(cfg, init), actions[|actions| - 1]); }
    }
  }
}
