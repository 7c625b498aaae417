/** Where the status of an export job comes from (backend/app/jobs/consumers/exports.py). */
module ExportOutcomes {
  import opened ExportJobs

  /** Nowhere, committed, flushed or read, does the job have the status. */
  ghost predicate Nowhere(w: World, job: JobId, status: Status) {
    && (job in w.committed ==> w.committed[job].status != status)
    && (job in w.flushed ==> w.flushed[job].payload.status != status)
    && forall id <- w.sessions :: job in w.sessions[id].rows ==> w.sessions[id].rows[job].status != status
  }

  /** A generator returns, without raising, and leaves the job in the status. */
  predicate Generates(w: World, step: Step, job: JobId, status: Status)
    requires Enabled(w, step)
  {
    step.Finish? && w.sessions[step.id].section.job == job && step.outcome.Generated? && step.outcome.payload.status == status
  }

  ghost predicate GeneratedIn(w: World, steps: seq<Step>, job: JobId, status: Status, maxRetries: int)
    requires Possible(w, steps, maxRetries)
    decreases |steps|
  {
    steps != []
    && (Generates(w, steps[0], job, status) || GeneratedIn(Apply(w, steps[0], maxRetries), steps[1..], job, status, maxRetries))
  }

  lemma NowhereStep(w: World, step: Step, job: JobId, status: Status, maxRetries: int)
    requires Nowhere(w, job, status) && Enabled(w, step) && status in {Completed, PendingPurge}
    requires !Generates(w, step, job, status)
    ensures Nowhere(Apply(w, step, maxRetries), job, status)
  {
  }

  lemma {:induction false} NowhereRun(w: World, steps: seq<Step>, job: JobId, status: Status, maxRetries: int)
    requires Nowhere(w, job, status) && Possible(w, steps, maxRetries) && status in {Completed, PendingPurge}
    ensures Nowhere(Run(w, steps, maxRetries), job, status) || GeneratedIn(w, steps, job, status, maxRetries)
    decreases |steps|
  {
    hide Nowhere, Apply, Enabled, Generates;
    if steps != [] && !Generates(w, steps[0], job, status) {
      NowhereStep(w, steps[0], job, status, maxRetries);
      NowhereRun(Apply(w, steps[0], maxRetries), steps[1..], job, status, maxRetries);
    }
  }

  /**
    A job becomes settled only by a generator that returned and left it so:
    neither a raise, nor the ceiling, nor a death makes it look done, so whatever
    failed stays open to a later attempt.
   */
  lemma SettledOnlyByGenerator(start: World, steps: seq<Step>, job: JobId, maxRetries: int)
    requires Fresh(start) && Possible(start, steps, maxRetries)
    requires job in start.committed ==> !Settled(start.committed[job])
    requires job in Run(start, steps, maxRetries).committed && Settled(Run(start, steps, maxRetries).committed[job])
    ensures GeneratedIn(start, steps, job, Run(start, steps, maxRetries).committed[job].status, maxRetries)
  {
    NowhereRun(start, steps, job, Run(start, steps, maxRetries).committed[job].status, maxRetries);
  }
}
