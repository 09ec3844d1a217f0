/** That historical queries get done: one that is created, claimed and left alone publishes its result. */
module ArtifactRuns {
  import opened Common
  import opened Jobs
  import opened JobInvariants
  import opened Artifacts

  /** Creation writes the input before the row, so the job never exists without it. */
  lemma CreationHappens(cfg: Settings, w: World, id: JobId, observations: nat, now: Time)
    requires InputInv(w) && id !in w.db.jobs
    ensures var next := Act(cfg, Act(cfg, w, WriteInput(id)), CreateJob(id, observations, now));
            && Historical(next.db, id) && id in next.inputs && next.db.jobs[id].status == Pending
            && next.db.jobs[id].payload == HistoricalPayload(observations)
            && next.db.jobs == w.db.jobs[id := next.db.jobs[id]] && next.results == w.results
  {
    assert id !in w.gone;
  }

  /**
   * The holder of a lease that writes its result and publishes under it succeeds: the job names that result, it is in
   * place, and so is the input.
   */
  lemma HolderPublishes(cfg: Settings, actions: seq<Action>, id: JobId, token: Token, now: Time)
    requires Historical(Run(cfg, actions).db, id) && Owns(Run(cfg, actions).db, id, token, now)
    requires token !in Run(cfg, actions).attempts
    ensures var w := Run(cfg, actions); var next := Act(cfg, Act(cfg, w, WriteResult(token)), Publish(token, now));
            && HasResult(next.db, id, token) && token in next.results
            && (id in next.inputs <==> id !in w.gone)
            && next.attempts == w.attempts[token := Ended]
  {
    RunKeepsOwners(cfg, actions);
    RunKeepsInputs(cfg, actions);
    WritesAndPublishes(cfg, Run(cfg, actions), id, token, now);
  }

  lemma WritesAndPublishes(cfg: Settings, w: World, id: JobId, token: Token, now: Time)
    requires LeaseInv(w.db) && Historical(w.db, id) && Owns(w.db, id, token, now) && token !in w.attempts
    ensures var next := Act(cfg, Act(cfg, w, WriteResult(token)), Publish(token, now));
            && HasResult(next.db, id, token) && token in next.results && next.inputs == w.inputs
            && next.attempts == w.attempts[token := Ended]
  {
    assert JobLease(w.db.issued, id, w.db.jobs[id]);
    PublishedRow(cfg, w.db, id, token, now);
  }

  /** An attempt that has lost its lease publishes nothing, and deletes its own result and no other. */
  lemma LoserCleansUp(cfg: Settings, actions: seq<Action>, token: Token, now: Time)
    requires var w := Run(cfg, actions);
             token in w.attempts && w.attempts[token] == Wrote && token in w.db.issued
             && !Owns(w.db, w.db.issued[token], token, now)
    ensures var w := Run(cfg, actions); var next := Act(cfg, Act(cfg, w, Publish(token, now)), Discard(token));
            next.db == w.db && next.results == w.results - {token} && next.inputs == w.inputs
  {
    RunKeepsOwners(cfg, actions);
    var w := Run(cfg, actions);
    PublishedRow(cfg, w.db, w.db.issued[token], token, now);
  }

  /** A sweep of an expired job deletes its input and every result of its attempts, marks it, and touches no other. */
  lemma SweepHappens(cfg: Settings, w: World, id: JobId, now: Time)
    requires id in w.db.jobs && Step(cfg, w.db, OpClean(id, now)) != w.db
    ensures var next := Act(cfg, w, Sweep(id, now));
            && next.db == w.db.(jobs := w.db.jobs[id := w.db.jobs[id].(artifactsCleanedAt := Some(now))])
            && next.inputs == w.inputs - {id}
            && (forall token :: token in next.results <==>
                  token in w.results && !(token in w.db.issued && w.db.issued[token] == id))
  {}
}
