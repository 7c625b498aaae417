/**
  How often the generator of an export job is started
  (backend/app/jobs/consumers/exports.py): an account of every start over whole runs.
 */
module ExportStarts {
  import opened ExportJobs

  /** What a live session read of the job's counter, and how often it has started the job since. */
  datatype Reading = Reading(base: int, own: nat)

  /**
    The starts of a job so far; how many of them were made by sessions that died
    before committing; and by how much commits overwrote counts that other
    sessions had committed since the row was read.
   */
  datatype Ledger = Ledger(readings: map<SessionId, Reading>, starts: nat, lost: nat, overwritten: int)

  const EMPTY := Ledger(map[], 0, 0, 0)

  /** The step passes the ceiling and starts the generator for the job. */
  predicate Starts(w: World, step: Step, job: JobId, maxRetries: int)
    requires Enabled(w, step)
  {
    step.Begin? && w.sessions[step.id].section.job == job && w.sessions[step.id].rows[job].attempts < maxRetries
  }

  predicate Flushes(w: World, id: SessionId, job: JobId) {
    job in w.flushed && w.flushed[job].owner == id
  }

  function Book(ledger: Ledger, w: World, step: Step, job: JobId, maxRetries: int): Ledger
    requires Enabled(w, step) && job in w.committed
  {
    match step
    case Open(id, jobs) =>
      if job in jobs then ledger.(readings := ledger.readings[id := Reading(w.committed[job].attempts, 0)]) else ledger
    case Begin(id) =>
      if Starts(w, step, job, maxRetries) then
        ledger.(starts := ledger.starts + 1,
                readings := if id in ledger.readings
                            then ledger.readings[id := ledger.readings[id].(own := ledger.readings[id].own + 1)]
                            else ledger.readings)
      else ledger
    case Commit(id) =>
      if id !in ledger.readings then ledger
      else
        ledger.(readings := ledger.readings - {id},
                overwritten := ledger.overwritten
                  + if Flushes(w, id, job) then w.committed[job].attempts - ledger.readings[id].base else 0)
    case Die(id, _) =>
      if id !in ledger.readings then ledger
      else ledger.(readings := ledger.readings - {id}, lost := ledger.lost + ledger.readings[id].own)
    case _ => ledger
  }

  lemma StaysCommitted(w: World, step: Step, job: JobId, maxRetries: int)
    requires Enabled(w, step) && job in w.committed
    ensures job in Apply(w, step, maxRetries).committed
  {
  }

  function Audit(ledger: Ledger, w: World, steps: seq<Step>, job: JobId, maxRetries: int): Ledger
    requires Possible(w, steps, maxRetries) && job in w.committed
    decreases |steps|
  {
    if steps == [] then ledger
    else
      StaysCommitted(w, steps[0], job, maxRetries);
      Audit(Book(ledger, w, steps[0], job, maxRetries), Apply(w, steps[0], maxRetries), steps[1..], job, maxRetries)
  }

  /** The counter as it was last written, committed or not. */
  function Latest(w: World, job: JobId): int
    requires job in w.committed
  {
    if job in w.flushed then w.flushed[job].payload.attempts else w.committed[job].attempts
  }

  /** Counts overwritten by commits, or about to be by the one that is pending. */
  function Overlap(ledger: Ledger, w: World, job: JobId): int
    requires job in w.committed
  {
    ledger.overwritten
    + if job in w.flushed && w.flushed[job].owner in ledger.readings
      then w.committed[job].attempts - ledger.readings[w.flushed[job].owner].base else 0
  }

  /** The ledger knows every session that has read the job, and the counters add up. */
  ghost predicate Booked(ledger: Ledger, w: World, job: JobId) {
    && (forall id :: id in ledger.readings <==> id in w.sessions && job in w.sessions[id].rows)
    && (forall id <- ledger.readings ::
          && w.sessions[id].rows[job].attempts == ledger.readings[id].base + ledger.readings[id].own
          && (ledger.readings[id].own > 0 ==> Flushes(w, id, job)))
    && (job in w.flushed ==>
          && w.flushed[job].owner in ledger.readings
          && w.flushed[job].payload == w.sessions[w.flushed[job].owner].rows[job])
  }

  /** A finishing step leaves the counter as the session had it. */
  predicate Keeps(w: World, step: Step) {
    step.Finish? && step.id in w.sessions && w.sessions[step.id].section.Inside? ==>
      var session := w.sessions[step.id];
      session.section.job in session.rows
      && step.outcome.payload.attempts == session.rows[session.section.job].attempts
  }

  ghost predicate Balanced(ledger: Ledger, w: World, job: JobId, initial: int)
    requires job in w.committed
  {
    ledger.starts == Latest(w, job) - initial + ledger.lost + Overlap(ledger, w, job)
  }

  /** One step keeps the books right. */
  ghost predicate StaysBooked(ledger: Ledger, w: World, step: Step, job: JobId, maxRetries: int, initial: int)
    requires job in w.committed && Enabled(w, step)
  {
    var next, booked := Apply(w, step, maxRetries), Book(ledger, w, step, job, maxRetries);
    && job in next.committed && Booked(booked, next, job)
    && (Balanced(ledger, w, job, initial) ==> Balanced(booked, next, job, initial))
  }

  /** Nothing about the job has changed. */
  ghost predicate SameFor(w: World, next: World, job: JobId) {
    && (job in w.flushed <==> job in next.flushed) && (job in w.flushed ==> w.flushed[job] == next.flushed[job])
    && (job in w.committed <==> job in next.committed) && (job in w.committed ==> w.committed[job] == next.committed[job])
    && w.sessions.Keys == next.sessions.Keys
    && forall id <- w.sessions :: SameRow(w.sessions[id], next.sessions[id], job)
  }

  predicate SameRow(session: Session, next: Session, job: JobId) {
    (job in session.rows <==> job in next.rows) && (job in session.rows ==> session.rows[job] == next.rows[job])
  }

  lemma SameBooks(ledger: Ledger, w: World, next: World, job: JobId, initial: int)
    requires Booked(ledger, w, job) && job in w.committed && SameFor(w, next, job)
    ensures Booked(ledger, next, job)
    ensures Balanced(ledger, w, job, initial) ==> Balanced(ledger, next, job, initial)
  {
    forall id | id in ledger.readings ensures SameRow(w.sessions[id], next.sessions[id], job) {
    }
  }

  /** Writing the row flushes it for the session that may. */
  lemma BookedFlush(ledger: Ledger, w: World, id: SessionId, payload: Payload, stage: Stage, job: JobId, own: nat,
                    starts: nat, initial: int)
    requires Booked(ledger, w, job) && job in w.committed && MayFlush(w, id, job)
    requires id in ledger.readings && w.sessions[id].section.Inside? && w.sessions[id].section.job == job
    requires payload.attempts == ledger.readings[id].base + own
    requires own - ledger.readings[id].own == starts - ledger.starts
    ensures
      var booked := ledger.(starts := starts, readings := ledger.readings[id := ledger.readings[id].(own := own)]);
      var next := Flush(w, id, payload, stage);
      Booked(booked, next, job) && (Balanced(ledger, w, job, initial) ==> Balanced(booked, next, job, initial))
  {
    forall other | other in ledger.readings && other != id ensures ledger.readings[other].own == 0 {
    }
  }

  lemma BookedOpen(ledger: Ledger, w: World, id: SessionId, jobs: seq<JobId>, job: JobId, maxRetries: int, initial: int)
    requires Booked(ledger, w, job) && job in w.committed && Enabled(w, Open(id, jobs))
    ensures StaysBooked(ledger, w, Open(id, jobs), job, maxRetries, initial)
  {
    var next, booked := Apply(w, Open(id, jobs), maxRetries), Book(ledger, w, Open(id, jobs), job, maxRetries);
    assert id !in ledger.readings;
    forall other | other in booked.readings && other != id
      ensures other in ledger.readings && next.sessions[other] == w.sessions[other] && booked.readings[other] == ledger.readings[other]
    {
    }
  }

  /** A step that leaves the job's row alone, however else it changes the world. */
  lemma BookedElsewhere(ledger: Ledger, w: World, step: Step, job: JobId, maxRetries: int, initial: int)
    requires Booked(ledger, w, job) && job in w.committed && Enabled(w, step)
    requires step.Tick? || step.Submit? || step.Visit? || step.Release?
          || ((step.Begin? || step.Finish?) && w.sessions[step.id].section.job != job)
    ensures StaysBooked(ledger, w, step, job, maxRetries, initial)
  {
    hide Booked, Balanced, Begun, Ended;
    assert SameFor(w, Apply(w, step, maxRetries), job);
    SameBooks(ledger, w, Apply(w, step, maxRetries), job, initial);
  }

  lemma ReadersKnown(ledger: Ledger, w: World, job: JobId, id: SessionId)
    requires Booked(ledger, w, job) && id in w.sessions && job in w.sessions[id].rows
    ensures id in ledger.readings
    ensures w.sessions[id].rows[job].attempts == ledger.readings[id].base + ledger.readings[id].own
  {
  }

  lemma BookedBegin(ledger: Ledger, w: World, id: SessionId, job: JobId, maxRetries: int, initial: int)
    requires Booked(ledger, w, job) && job in w.committed && Enabled(w, Begin(id)) && w.sessions[id].section.job == job
    ensures StaysBooked(ledger, w, Begin(id), job, maxRetries, initial)
  {
    hide Booked, Balanced, Flush;
    ReadersKnown(ledger, w, job, id);
    StaysCommitted(w, Begin(id), job, maxRetries);
    var payload, reading := w.sessions[id].rows[job], ledger.readings[id];
    if payload.attempts >= maxRetries {
      BookedFlush(ledger, w, id, Begun(payload, maxRetries), Over, job, reading.own, ledger.starts, initial);
      assert ledger.(starts := ledger.starts, readings := ledger.readings[id := reading.(own := reading.own)]) == ledger;
    } else {
      BookedFlush(ledger, w, id, Begun(payload, maxRetries), Running, job, reading.own + 1, ledger.starts + 1, initial);
    }
  }

  lemma BookedFinish(ledger: Ledger, w: World, id: SessionId, outcome: Outcome, job: JobId, maxRetries: int, initial: int)
    requires Booked(ledger, w, job) && job in w.committed && Enabled(w, Finish(id, outcome))
    requires Keeps(w, Finish(id, outcome)) && w.sessions[id].section.job == job
    ensures StaysBooked(ledger, w, Finish(id, outcome), job, maxRetries, initial)
  {
    hide Booked, Balanced, Flush;
    ReadersKnown(ledger, w, job, id);
    StaysCommitted(w, Finish(id, outcome), job, maxRetries);
    var reading := ledger.readings[id];
    BookedFlush(ledger, w, id, Ended(outcome, w.now), Over, job, reading.own, ledger.starts, initial);
    assert ledger.(starts := ledger.starts, readings := ledger.readings[id := reading.(own := reading.own)]) == ledger;
  }

  lemma BookedCommit(ledger: Ledger, w: World, id: SessionId, job: JobId, maxRetries: int, initial: int)
    requires Booked(ledger, w, job) && job in w.committed && Enabled(w, Commit(id))
    ensures StaysBooked(ledger, w, Commit(id), job, maxRetries, initial)
  {
  }

  lemma BookedDie(ledger: Ledger, w: World, id: SessionId, unlocked: bool, job: JobId, maxRetries: int, initial: int)
    requires Booked(ledger, w, job) && job in w.committed && Enabled(w, Die(id, unlocked))
    ensures StaysBooked(ledger, w, Die(id, unlocked), job, maxRetries, initial)
  {
  }

  lemma BookedStep(ledger: Ledger, w: World, step: Step, job: JobId, maxRetries: int, initial: int)
    requires Booked(ledger, w, job) && job in w.committed && Enabled(w, step) && Keeps(w, step)
    ensures StaysBooked(ledger, w, step, job, maxRetries, initial)
  {
    hide Booked, StaysBooked;
    if step.Open? {
      BookedOpen(ledger, w, step.id, step.jobs, job, maxRetries, initial);
    } else if step.Commit? {
      BookedCommit(ledger, w, step.id, job, maxRetries, initial);
    } else if step.Die? {
      BookedDie(ledger, w, step.id, step.unlocked, job, maxRetries, initial);
    } else if step.Begin? && w.sessions[step.id].section.job == job {
      BookedBegin(ledger, w, step.id, job, maxRetries, initial);
    } else if step.Finish? && w.sessions[step.id].section.job == job {
      BookedFinish(ledger, w, step.id, step.outcome, job, maxRetries, initial);
    } else {
      BookedElsewhere(ledger, w, step, job, maxRetries, initial);
    }
  }

  lemma {:induction false} AccountRun(ledger: Ledger, w: World, steps: seq<Step>, job: JobId, maxRetries: int, initial: int)
    requires Booked(ledger, w, job) && job in w.committed && Balanced(ledger, w, job, initial)
    requires Possible(w, steps, maxRetries) && KeepsAttempts(w, steps, maxRetries)
    ensures job in Run(w, steps, maxRetries).committed
    ensures
      var end := Run(w, steps, maxRetries);
      Booked(Audit(ledger, w, steps, job, maxRetries), end, job)
      && Balanced(Audit(ledger, w, steps, job, maxRetries), end, job, initial)
    decreases |steps|
  {
    hide Apply, Enabled, Book, Booked, Balanced;
    if steps != [] {
      BookedStep(ledger, w, steps[0], job, maxRetries, initial);
      AccountRun(Book(ledger, w, steps[0], job, maxRetries), Apply(w, steps[0], maxRetries), steps[1..], job, maxRetries, initial);
    }
  }

  /**
    Every start is accounted for, in every run: it shows in the counter, it was
    made by a session that died before committing it, or it was overwritten by
    a session that had read the row before it was committed.
   */
  lemma StartsAccounted(start: World, steps: seq<Step>, job: JobId, maxRetries: int)
    requires Fresh(start) && job in start.committed
    requires Possible(start, steps, maxRetries) && KeepsAttempts(start, steps, maxRetries)
    ensures job in Run(start, steps, maxRetries).committed
    ensures
      var end, ledger := Run(start, steps, maxRetries), Audit(EMPTY, start, steps, job, maxRetries);
      ledger.starts == Latest(end, job) - start.committed[job].attempts + ledger.lost + Overlap(ledger, end, job)
  {
    AccountRun(EMPTY, start, steps, job, maxRetries, start.committed[job].attempts);
  }

  /**
    The ceiling bounds the starts of a job exactly as long as the lost and the
    overwritten ones fit into what the counter leaves of it.
   */
  lemma CeilingExactly(start: World, steps: seq<Step>, job: JobId, maxRetries: int)
    requires Fresh(start) && job in start.committed && 0 <= maxRetries && Capped(start, maxRetries)
    requires Possible(start, steps, maxRetries) && KeepsAttempts(start, steps, maxRetries)
    ensures job in Run(start, steps, maxRetries).committed
    ensures
      var end, ledger := Run(start, steps, maxRetries), Audit(EMPTY, start, steps, job, maxRetries);
      && Latest(end, job) <= maxRetries
      && (start.committed[job].attempts + ledger.starts <= maxRetries
          <==> ledger.lost + Overlap(ledger, end, job) <= maxRetries - Latest(end, job))
  {
    StartsAccounted(start, steps, job, maxRetries);
    AttemptsCapped(start, steps, maxRetries);
  }

  // --- the two ways past the ceiling ------------------------------------------------

  /** Whoever opens the row does so after the end of every other session that read it. */
  ghost predicate OneReader(w: World, steps: seq<Step>, job: JobId, maxRetries: int)
    requires Possible(w, steps, maxRetries)
    decreases |steps|
  {
    steps != [] ==>
      && (steps[0].Open? && job in steps[0].jobs ==> forall id <- w.sessions :: job !in w.sessions[id].rows)
      && OneReader(Apply(w, steps[0], maxRetries), steps[1..], job, maxRetries)
  }

  /** At most one session has read the job, and nobody has committed since. */
  ghost predicate Undisturbed(ledger: Ledger, w: World, job: JobId)
    requires job in w.committed
  {
    && ledger.overwritten == 0
    && (forall id <- ledger.readings, other <- ledger.readings :: id == other)
    && (forall id <- ledger.readings :: ledger.readings[id].base == w.committed[job].attempts)
  }

  lemma UndisturbedStep(ledger: Ledger, w: World, step: Step, job: JobId, maxRetries: int)
    requires Booked(ledger, w, job) && job in w.committed && Enabled(w, step) && Undisturbed(ledger, w, job)
    requires step.Open? && job in step.jobs ==> forall id <- w.sessions :: job !in w.sessions[id].rows
    ensures job in Apply(w, step, maxRetries).committed
    ensures Undisturbed(Book(ledger, w, step, job, maxRetries), Apply(w, step, maxRetries), job)
  {
  }

  lemma {:induction false} OneReaderRun(ledger: Ledger, w: World, steps: seq<Step>, job: JobId, maxRetries: int)
    requires Booked(ledger, w, job) && job in w.committed && Undisturbed(ledger, w, job)
    requires Possible(w, steps, maxRetries) && KeepsAttempts(w, steps, maxRetries) && OneReader(w, steps, job, maxRetries)
    ensures job in Run(w, steps, maxRetries).committed
    ensures Undisturbed(Audit(ledger, w, steps, job, maxRetries), Run(w, steps, maxRetries), job)
    decreases |steps|
  {
    hide Apply, Enabled, Book, Booked, Undisturbed, Balanced;
    if steps != [] {
      BookedStep(ledger, w, steps[0], job, maxRetries, 0);
      UndisturbedStep(ledger, w, steps[0], job, maxRetries);
      OneReaderRun(Book(ledger, w, steps[0], job, maxRetries), Apply(w, steps[0], maxRetries), steps[1..], job, maxRetries);
    }
  }

  /**
    Where the row is read by one session at a time, the starts are the counted
    attempts and those of dead sessions: they stay within the ceiling exactly
    when deaths use no more than the slack.
   */
  lemma OneReaderCeiling(start: World, steps: seq<Step>, job: JobId, maxRetries: int)
    requires Fresh(start) && job in start.committed && 0 <= maxRetries && Capped(start, maxRetries)
    requires Possible(start, steps, maxRetries) && KeepsAttempts(start, steps, maxRetries)
    requires OneReader(start, steps, job, maxRetries)
    ensures job in Run(start, steps, maxRetries).committed
    ensures
      var end, ledger := Run(start, steps, maxRetries), Audit(EMPTY, start, steps, job, maxRetries);
      && ledger.starts == Latest(end, job) - start.committed[job].attempts + ledger.lost
      && (start.committed[job].attempts + ledger.starts <= maxRetries <==> ledger.lost <= maxRetries - Latest(end, job))
  {
    CeilingExactly(start, steps, job, maxRetries);
    StartsAccounted(start, steps, job, maxRetries);
    AccountRun(EMPTY, start, steps, job, maxRetries, start.committed[job].attempts);
    OneReaderRun(EMPTY, start, steps, job, maxRetries);
  }

  lemma {:induction false} NothingLost(ledger: Ledger, w: World, steps: seq<Step>, job: JobId, maxRetries: int)
    requires job in w.committed && Possible(w, steps, maxRetries)
    requires forall step <- steps :: !step.Die?
    ensures Audit(ledger, w, steps, job, maxRetries).lost == ledger.lost
    decreases |steps|
  {
    if steps != [] {
      assert steps[0] in steps;
      StaysCommitted(w, steps[0], job, maxRetries);
      NothingLost(Book(ledger, w, steps[0], job, maxRetries), Apply(w, steps[0], maxRetries), steps[1..], job, maxRetries);
    }
  }

  /**
    Overlapping readers and deaths after a start are the only two ways past the
    ceiling.
   */
  lemma OnlyTwoWays(start: World, steps: seq<Step>, job: JobId, maxRetries: int)
    requires Fresh(start) && job in start.committed && 0 <= maxRetries && Capped(start, maxRetries)
    requires Possible(start, steps, maxRetries) && KeepsAttempts(start, steps, maxRetries)
    ensures
      var ledger := Audit(EMPTY, start, steps, job, maxRetries);
      start.committed[job].attempts + ledger.starts > maxRetries ==>
        !OneReader(start, steps, job, maxRetries) || (ledger.lost > 0 && exists step <- steps :: step.Die?)
  {
    if OneReader(start, steps, job, maxRetries) {
      OneReaderCeiling(start, steps, job, maxRetries);
      CeilingExactly(start, steps, job, maxRetries);
    }
    if forall step <- steps :: !step.Die? {
      NothingLost(EMPTY, start, steps, job, maxRetries);
    }
  }

  // --- both ways are open -------------------------------------------------------------

  /** What an audit says of a run of two parts. */
  ghost predicate Audited(ledger: Ledger, w: World, steps: seq<Step>, after: Ledger, job: JobId, maxRetries: int) {
    && job in w.committed && Possible(w, steps, maxRetries) && KeepsAttempts(w, steps, maxRetries)
    && Audit(ledger, w, steps, job, maxRetries) == after
  }

  lemma {:induction false} AuditAppend(ledger: Ledger, w: World, first: seq<Step>, between: Ledger, second: seq<Step>,
                                       after: Ledger, job: JobId, maxRetries: int)
    requires Audited(ledger, w, first, between, job, maxRetries)
    requires Audited(between, Run(w, first, maxRetries), second, after, job, maxRetries)
    ensures Audited(ledger, w, first + second, after, job, maxRetries)
    ensures OneReader(w, first + second, job, maxRetries)
        <==> OneReader(w, first, job, maxRetries) && OneReader(Run(w, first, maxRetries), second, job, maxRetries)
    decreases |first|
  {
    hide Apply, Enabled, Book;
    if first == [] {
      assert first + second == second;
    } else {
      StaysCommitted(w, first[0], job, maxRetries);
      assert (first + second)[1..] == first[1..] + second;
      AuditAppend(Book(ledger, w, first[0], job, maxRetries), Apply(w, first[0], maxRetries), first[1..], between,
                  second, after, job, maxRetries);
    }
  }

  lemma AuditPrepend(ledger: Ledger, w: World, step: Step, rest: seq<Step>, after: Ledger, job: JobId, maxRetries: int)
    requires job in w.committed && Enabled(w, step) && Keeps(w, step)
    requires Audited(Book(ledger, w, step, job, maxRetries), Apply(w, step, maxRetries), rest, after, job, maxRetries)
    ensures Audited(ledger, w, [step] + rest, after, job, maxRetries)
    ensures OneReader(w, [step] + rest, job, maxRetries)
        <==> (step.Open? && job in step.jobs ==> forall id <- w.sessions :: job !in w.sessions[id].rows)
             && OneReader(Apply(w, step, maxRetries), rest, job, maxRetries)
  {
    hide Apply, Book;
    assert ([step] + rest)[1..] == rest;
  }

  lemma DyingReadings(ledger: Ledger, w: World, job: JobId, maxRetries: int)
    requires Waiting(w, job, maxRetries) && ledger.readings == map[]
    ensures w.sessions == map[] && Enabled(w, Open(0, [job]))
    ensures
      var reading := Reading(w.committed[job].attempts, 0);
      var read := ledger.(readings := map[0 := reading]);
      var open := Apply(w, Open(0, [job]), maxRetries);
      && Book(ledger, w, Open(0, [job]), job, maxRetries) == read
      && job in open.committed && Enabled(open, Visit(0, true))
      && var visited := Apply(open, Visit(0, true), maxRetries);
      && job in visited.committed && Enabled(visited, Begin(0))
      && Book(read, visited, Begin(0), job, maxRetries)
         == ledger.(readings := map[0 := reading.(own := 1)], starts := ledger.starts + 1)
  {
    var open := Apply(w, Open(0, [job]), maxRetries);
    var visited := Apply(open, Visit(0, true), maxRetries);
    assert open.sessions[0].rows == map[job := w.committed[job]];
    assert Starts(visited, Begin(0), job, maxRetries);
  }

  lemma DyingBurial(ledger: Ledger, w: World, job: JobId, payload: Payload, reading: Reading, maxRetries: int)
    requires Fresh(w) && job in w.committed && ledger.readings == map[0 := reading]
    ensures
      var begun := Doomed(w, job, payload);
      && job in begun.committed && Enabled(begun, Die(0, false))
      && Book(ledger, begun, Die(0, false), job, maxRetries) == ledger.(readings := map[], lost := ledger.lost + reading.own)
  {
  }

  /** An attempt that dies after its start: one more start, one more lost. */
  lemma DyingAttemptBooked(ledger: Ledger, w: World, job: JobId, rest: seq<Step>, after: Ledger, maxRetries: int)
    requires Waiting(w, job, maxRetries) && ledger.readings == map[]
    requires Audited(ledger.(starts := ledger.starts + 1, lost := ledger.lost + 1), AfterDying(w, job), rest, after, job, maxRetries)
    requires OneReader(AfterDying(w, job), rest, job, maxRetries)
    ensures Audited(ledger, w, DyingAttempt(job, rest), after, job, maxRetries)
    ensures OneReader(w, DyingAttempt(job, rest), job, maxRetries)
  {
    assert Fresh(w);
    hide Apply, Enabled, Book, Guarded, Waiting, AfterDying, Doomed, Audited, OneReader, Begun, LockLive, Settled, Fresh;
    var read := ledger.(readings := map[0 := Reading(w.committed[job].attempts, 0)]);
    var started := ledger.(readings := map[0 := Reading(w.committed[job].attempts, 1)], starts := ledger.starts + 1);
    var buried := ledger.(starts := ledger.starts + 1, lost := ledger.lost + 1);
    DyingReadings(ledger, w, job, maxRetries);
    DyingBurial(started, w, job, Begun(w.committed[job], maxRetries), Reading(w.committed[job].attempts, 1), maxRetries);
    DoomedBegins(w, job, maxRetries);
    DoomedDies(w, job, Begun(w.committed[job], maxRetries), maxRetries);
    var open := Apply(w, Open(0, [job]), maxRetries);
    var visited := Apply(open, Visit(0, true), maxRetries);
    var begun := Apply(visited, Begin(0), maxRetries);
    var died := Apply(begun, Die(0, false), maxRetries);
    AuditPrepend(buried, died, Tick(LOCK_TTL_SECONDS), rest, after, job, maxRetries);
    var ticking := [Tick(LOCK_TTL_SECONDS)] + rest;
    AuditPrepend(started, begun, Die(0, false), ticking, after, job, maxRetries);
    AuditPrepend(read, visited, Begin(0), [Die(0, false)] + ticking, after, job, maxRetries);
    AuditPrepend(read, open, Visit(0, true), [Begin(0)] + ([Die(0, false)] + ticking), after, job, maxRetries);
    AuditPrepend(ledger, w, Open(0, [job]), [Visit(0, true)] + ([Begin(0)] + ([Die(0, false)] + ticking)), after, job, maxRetries);
  }

  /**
    A job that keeps killing its worker is started any number of times, with
    one reader at a time and nothing counted.
   */
  lemma {:induction false} DyingStarts(ledger: Ledger, w: World, job: JobId, count: nat, maxRetries: int)
    requires Waiting(w, job, maxRetries) && ledger.readings == map[]
    ensures
      var after := ledger.(starts := ledger.starts + count, lost := ledger.lost + count);
      Audited(ledger, w, DyingAttempts(job, count), after, job, maxRetries)
    ensures OneReader(w, DyingAttempts(job, count), job, maxRetries)
    decreases count
  {
    if count > 0 {
      var next := ledger.(starts := ledger.starts + 1, lost := ledger.lost + 1);
      DyingStarts(next, AfterDying(w, job), job, count - 1, maxRetries);
      DyingAttemptBooked(ledger, w, job, DyingAttempts(job, count - 1),
                         ledger.(starts := ledger.starts + count, lost := ledger.lost + count), maxRetries);
    }
  }

  lemma AttemptReadings(started: Ledger, w: World, id: SessionId, job: JobId, begun: Payload, payload: Payload, maxRetries: int)
    requires id in w.sessions && job in w.committed && id in started.readings && payload.attempts == begun.attempts
    ensures
      var inside, over := InsideWith(w, id, job, begun, Running), InsideWith(w, id, job, payload, Over);
      var left := LeftWith(w, id, job, payload);
      && job in inside.committed && job in over.committed && job in left.committed
      && Keeps(inside, Finish(id, Generated(payload))) && Enabled(left, Commit(id))
      && Book(started, left, Commit(id), job, maxRetries)
         == started.(readings := started.readings - {id},
                     overwritten := started.overwritten + w.committed[job].attempts - started.readings[id].base)
  {
  }

  /** A completed attempt of a session that has read the row: one start, and what it overwrites. */
  lemma AttemptBooked(ledger: Ledger, w: World, id: SessionId, job: JobId, payload: Payload, maxRetries: int)
    requires Poised(w, id, job) && w.sessions[id].rows[job].attempts < maxRetries && Guarded(w) && job in w.committed
    requires id in ledger.readings && ledger.readings[id] == Reading(w.sessions[id].rows[job].attempts, 0)
    requires payload.attempts == w.sessions[id].rows[job].attempts + 1
    ensures
      var after := Ledger(ledger.readings - {id}, ledger.starts + 1, ledger.lost,
                          ledger.overwritten + w.committed[job].attempts - ledger.readings[id].base);
      Audited(ledger, w, Attempt(id, Generated(payload)), after, job, maxRetries)
  {
    var outcome := Generated(payload);
    var begun := Begun(w.sessions[id].rows[job], maxRetries);
    var reading := ledger.readings[id];
    var started := ledger.(starts := ledger.starts + 1, readings := ledger.readings[id := reading.(own := 1)]);
    var after := Ledger(ledger.readings - {id}, ledger.starts + 1, ledger.lost,
                        ledger.overwritten + w.committed[job].attempts - reading.base);
    Beginning(w, id, job, maxRetries);
    Finishing(w, id, job, maxRetries, begun, outcome);
    Releasing(w, id, job, maxRetries, payload);
    AttemptReadings(started, w, id, job, begun, payload, maxRetries);
    var visited := Apply(w, Visit(id, true), maxRetries);
    var inside := InsideWith(w, id, job, begun, Running);
    var over := InsideWith(w, id, job, payload, Over);
    var left := LeftWith(w, id, job, payload);
    assert started.readings - {id} == ledger.readings - {id};
    assert Book(ledger, visited, Begin(id), job, maxRetries) == started;
    StaysCommitted(left, Commit(id), job, maxRetries);
    hide Apply, Enabled, Book, Guarded, InsideWith, LeftWith, Poised;
    AuditPrepend(started, left, Commit(id), [], after, job, maxRetries);
    AuditPrepend(started, over, Release(id, true), [Commit(id)] + [], after, job, maxRetries);
    AuditPrepend(started, inside, Finish(id, outcome), [Release(id, true)] + ([Commit(id)] + []), after, job, maxRetries);
    AuditPrepend(ledger, visited, Begin(id), [Finish(id, outcome)] + ([Release(id, true)] + ([Commit(id)] + [])), after, job, maxRetries);
    AuditPrepend(ledger, w, Visit(id, true), Attempt(id, outcome)[1..], after, job, maxRetries);
  }

  /** Two sessions that both read the row make their attempts one after the other. */
  function Overlapping(job: JobId, first: Payload, second: Payload): seq<Step> {
    [Open(0, [job])] + ([Open(1, [job])] + (Attempt(0, Generated(first)) + Attempt(1, Generated(second))))
  }

  lemma OverlappingOpens(start: World, job: JobId, maxRetries: int)
    requires Waiting(start, job, maxRetries)
    ensures Enabled(start, Open(0, [job]))
    ensures
      var reading := Reading(start.committed[job].attempts, 0);
      var open := Apply(start, Open(0, [job]), maxRetries);
      && job in open.committed && Enabled(open, Open(1, [job]))
      && var w := Apply(open, Open(1, [job]), maxRetries);
      && w.committed == start.committed && Guarded(w) && Poised(w, 0, job) && Poised(w, 1, job)
      && w.sessions[0].rows[job] == w.sessions[1].rows[job] == start.committed[job]
      && Book(Book(EMPTY, start, Open(0, [job]), job, maxRetries), open, Open(1, [job]), job, maxRetries)
         == Ledger(map[0 := reading, 1 := reading], 0, 0, 0)
  {
    var open := Apply(start, Open(0, [job]), maxRetries);
    assert open.sessions.Keys == {0};
    assert job in [job];
  }

  /**
    Two overlapping readers make two starts for one count, without any death:
    one more than the ceiling allows where the last attempt was at stake.
   */
  lemma OverlappingStarts(start: World, job: JobId, maxRetries: int, first: Payload, second: Payload)
    requires Waiting(start, job, maxRetries)
    requires first.attempts == second.attempts == start.committed[job].attempts + 1
    ensures Audited(EMPTY, start, Overlapping(job, first, second), Ledger(map[], 2, 0, 1), job, maxRetries)
    ensures
      start.committed[job].attempts + Audit(EMPTY, start, Overlapping(job, first, second), job, maxRetries).starts > maxRetries
      <==> start.committed[job].attempts + 1 == maxRetries
  {
    var a := start.committed[job].attempts;
    assert a < maxRetries;
    var open := Apply(start, Open(0, [job]), maxRetries);
    var w := Apply(open, Open(1, [job]), maxRetries);
    OverlappingOpens(start, job, maxRetries);
    var both := Ledger(map[0 := Reading(a, 0), 1 := Reading(a, 0)], 0, 0, 0);
    var one := Ledger(map[1 := Reading(a, 0)], 1, 0, 0);
    var none := Ledger(map[], 2, 0, 1);
    UndisturbedAttempt(w, 0, job, maxRetries, _ => Generated(first));
    var between := Run(w, Attempt(0, Generated(first)), maxRetries);
    assert both.readings - {0} == one.readings && one.readings - {1} == none.readings;
    assert Poised(between, 1, job) && Guarded(between) && between.committed[job] == first;
    assert between.sessions[1].rows[job].attempts == a;
    hide Apply, Enabled, Book, Poised, Guarded, Attempt, Possible, Run, Audit, Executed, Waiting;
    AttemptBooked(both, w, 0, job, first, maxRetries);
    AttemptBooked(one, between, 1, job, second, maxRetries);
    AuditAppend(both, w, Attempt(0, Generated(first)), one, Attempt(1, Generated(second)), none, job, maxRetries);
    var attempts := Attempt(0, Generated(first)) + Attempt(1, Generated(second));
    AuditPrepend(Book(EMPTY, start, Open(0, [job]), job, maxRetries), open, Open(1, [job]), attempts, none, job, maxRetries);
    AuditPrepend(EMPTY, start, Open(0, [job]), [Open(1, [job])] + attempts, none, job, maxRetries);
  }
}
