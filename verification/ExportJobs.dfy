/**
  backend/app/jobs/consumers/exports.py: running export jobs under a Redis lock
  while rows are flushed first and committed later.
 */
module ExportJobs {
  import opened Wrappers
  import opened Redis
  import JsonCache

  const LOCK_TTL_SECONDS := 900
  const STATUS_CACHE_TTL_SECONDS := 60
  const ERROR_LENGTH := 500
  const CEILING_MESSAGE := "Max export attempts reached"

  type JobId = string

  datatype Status = Queued | Processing | Completed | Failed | PendingPurge

  /** The fields of the job payload that the consumer reads or writes. */
  datatype Payload = Payload(status: Status, attempts: int, error: Option<string>, completedAt: Option<int>)

  /** What the export generator left on the row, and whether it raised. */
  datatype Outcome =
    | Generated(payload: Payload)
    | Raised(payload: Payload, message: string)

  predicate Settled(payload: Payload) {
    payload.status == Completed || payload.status == PendingPurge
  }

  /** The first write of an attempt: the retry ceiling, or one more attempt. */
  function Begun(payload: Payload, maxRetries: int): Payload {
    if payload.attempts >= maxRetries then payload.(status := Failed, error := Some(CEILING_MESSAGE))
    else payload.(status := Processing, attempts := payload.attempts + 1)
  }

  /** The last write of an attempt. */
  function Ended(outcome: Outcome, now: int): Payload {
    match outcome
    case Generated(payload) => payload
    case Raised(payload, message) =>
      payload.(status := Failed,
               error := Some(if |message| > ERROR_LENGTH then message[..ERROR_LENGTH] else message),
               completedAt := Some(now))
  }

  /** The payload after an execution that obtained the lock. */
  function Executed(payload: Payload, maxRetries: int, generate: Payload -> Outcome, now: int): Payload {
    if payload.attempts >= maxRetries then Begun(payload, maxRetries)
    else Ended(generate(Begun(payload, maxRetries)), now)
  }

  /**
    What an execution that obtained the lock leaves behind: the ceiling fails the
    job without another attempt; otherwise the generator is given the processing
    payload with one more attempt, and what it returns is kept as it is, while a
    raise always fails the job, with the start of its message and the time.
   */
  predicate LeavesBehind(payload: Payload, maxRetries: int, generate: Payload -> Outcome, now: int, after: Payload) {
    if payload.attempts >= maxRetries then
      after == Payload(Failed, payload.attempts, Some(CEILING_MESSAGE), payload.completedAt)
    else
      match generate(Payload(Processing, payload.attempts + 1, payload.error, payload.completedAt))
      case Generated(generated) => after == generated
      case Raised(left, message) =>
        && after.status == Failed && after.attempts == left.attempts && after.completedAt == Some(now)
        && after.error.Some? && after.error.value <= message && |after.error.value| == Min(ERROR_LENGTH, |message|)
  }

  lemma ExecutedExactly(payload: Payload, maxRetries: int, generate: Payload -> Outcome, now: int)
    ensures LeavesBehind(payload, maxRetries, generate, now, Executed(payload, maxRetries, generate, now))
  {
    assert Begun(payload, maxRetries)
        == if payload.attempts >= maxRetries then Payload(Failed, payload.attempts, Some(CEILING_MESSAGE), payload.completedAt)
           else Payload(Processing, payload.attempts + 1, payload.error, payload.completedAt);
  }

  // ---------------------------------------------------------------------------
  // One execution, as the code runs it
  // ---------------------------------------------------------------------------

  datatype CacheEntry = LockHeld(job: JobId) | CachedStatus(payload: Payload)

  function LockKey(job: JobId): string { "export-job-lock:" + job }

  function StatusKey(job: JobId): string { "export-job:" + job }

  class ExportRow {
    const id: JobId
    var payload: Payload

    constructor (id: JobId, payload: Payload)
      ensures this.id == id && this.payload == payload
    {
      this.id, this.payload := id, payload;
    }
  }

  /**
    `_execute`: settled jobs and jobs whose lock is held are left alone; any
    other job goes through exactly one attempt, its status is cached and the
    lock key is gone again.
   */
  method Execute(row: ExportRow, cache: JsonCache.Cache<CacheEntry>, maxRetries: int, generate: Payload -> Outcome)
    modifies row, cache`keys
    ensures
      var idle := old(row.payload.status) == Completed || old(row.payload.status) == PendingPurge || old(Live(cache.keys, LockKey(row.id), cache.now));
      if idle then row.payload == old(row.payload) && cache.keys == old(cache.keys)
      else
        && row.payload == Executed(old(row.payload), maxRetries, generate, cache.now)
        && LeavesBehind(old(row.payload), maxRetries, generate, cache.now, row.payload)
        && LockKey(row.id) !in cache.keys
        && Get(cache.keys, StatusKey(row.id), cache.now) == Some(CachedStatus(row.payload))
        && cache.keys - {LockKey(row.id), StatusKey(row.id)} == old(cache.keys) - {LockKey(row.id), StatusKey(row.id)}
  {
    hide LeavesBehind;
    assert LockKey(row.id)[10] != StatusKey(row.id)[10];
    var payload := row.payload;
    ExecutedExactly(payload, maxRetries, generate, cache.now);
    if Settled(payload) {
      return;
    }
    var acquired := cache.Add(LockKey(row.id), LockHeld(row.id), LOCK_TTL_SECONDS);
    if !acquired {
      return;
    }
    if payload.attempts >= maxRetries {
      row.payload := payload.(status := Failed, error := Some(CEILING_MESSAGE));
      cache.Set(StatusKey(row.id), CachedStatus(row.payload), STATUS_CACHE_TTL_SECONDS);
    } else {
      row.payload := payload.(status := Processing, attempts := payload.attempts + 1);
      cache.Set(StatusKey(row.id), CachedStatus(row.payload), STATUS_CACHE_TTL_SECONDS);
      var outcome := generate(row.payload);
      row.payload := outcome.payload;
      if outcome.Raised? {
        var error := if |outcome.message| > ERROR_LENGTH then outcome.message[..ERROR_LENGTH] else outcome.message;
        row.payload := row.payload.(status := Failed, error := Some(error), completedAt := Some(cache.now));
      }
      cache.Set(StatusKey(row.id), CachedStatus(row.payload), STATUS_CACHE_TTL_SECONDS);
    }
    cache.Delete(LockKey(row.id));
  }

  // ---------------------------------------------------------------------------
  // Many workers: sessions that interleave, wait, crash and commit
  // ---------------------------------------------------------------------------

  type SessionId = nat

  /** `Locked`: the lock was obtained; `Running`: inside the generator; `Over`: about to release. */
  datatype Stage = Locked | Running | Over

  /** `keyed` is false when Redis was unreachable and the lock was granted without a key. */
  datatype Section = Outside | Inside(job: JobId, since: int, keyed: bool, stage: Stage)

  /** A database session: the rows it has read, those still to visit, and its critical section. */
  datatype Session = Session(rows: map<JobId, Payload>, todo: seq<JobId>, section: Section)

  datatype Flushed = Flushed(owner: SessionId, payload: Payload)

  datatype World = World(
    now: int,
    locks: map<JobId, int>,             // lock key -> expiry instant
    committed: map<JobId, Payload>,
    flushed: map<JobId, Flushed>,       // written under a row lock, not yet committed
    sessions: map<SessionId, Session>)

  datatype Step =
    | Tick(seconds: nat)
    | Submit(job: JobId)
    | Open(id: SessionId, jobs: seq<JobId>)
    | Visit(id: SessionId, reachable: bool)
    | Begin(id: SessionId)
    | Finish(id: SessionId, outcome: Outcome)
    | Release(id: SessionId, reachable: bool)
    | Commit(id: SessionId)
    | Die(id: SessionId, unlocked: bool)

  predicate InSection(w: World, id: SessionId, job: JobId) {
    id in w.sessions && w.sessions[id].section.Inside? && w.sessions[id].section.job == job
  }

  predicate LockLive(w: World, job: JobId) {
    job in w.locks && w.now < w.locks[job]
  }

  /** A flush waits while another session holds the row lock. */
  predicate MayFlush(w: World, id: SessionId, job: JobId) {
    job in w.flushed ==> w.flushed[job].owner == id
  }

  predicate AtStage(w: World, id: SessionId, stage: Stage) {
    id in w.sessions && w.sessions[id].section.Inside? && w.sessions[id].section.stage == stage
  }

  predicate Enabled(w: World, step: Step) {
    match step
    case Tick(_) => true
    case Submit(job) => job !in w.committed
    case Open(id, jobs) => id !in w.sessions && forall job <- jobs :: job in w.committed
    case Visit(id, _) =>
      && id in w.sessions && w.sessions[id].section.Outside?
      && w.sessions[id].todo != [] && w.sessions[id].todo[0] in w.sessions[id].rows
    case Begin(id) => AtStage(w, id, Locked) && MayFlush(w, id, w.sessions[id].section.job)
                      && w.sessions[id].section.job in w.sessions[id].rows
    case Finish(id, _) => AtStage(w, id, Running) && MayFlush(w, id, w.sessions[id].section.job)
    case Release(id, _) => AtStage(w, id, Over)
    case Commit(id) => id in w.sessions && w.sessions[id].section.Outside? && w.sessions[id].todo == []
    case Die(id, _) => id in w.sessions
  }

  function Flush(w: World, id: SessionId, payload: Payload, stage: Stage): World
    requires id in w.sessions && w.sessions[id].section.Inside?
  {
    var session := w.sessions[id];
    var job := session.section.job;
    w.(flushed := w.flushed[job := Flushed(id, payload)],
       sessions := w.sessions[id := Session(session.rows[job := payload], session.todo, session.section.(stage := stage))])
  }

  function Rollback(w: World, id: SessionId): World {
    w.(flushed := map job | job in w.flushed && w.flushed[job].owner != id :: w.flushed[job],
       sessions := w.sessions - {id})
  }

  function Apply(w: World, step: Step, maxRetries: int): World
    requires Enabled(w, step)
  {
    match step
    case Tick(seconds) => w.(now := w.now + seconds)
    case Submit(job) => w.(committed := w.committed[job := Payload(Queued, 0, None, None)])
    case Open(id, jobs) =>
      w.(sessions := w.sessions[id := Session(map job | job in jobs :: w.committed[job], jobs, Outside)])
    case Visit(id, reachable) =>
      var session := w.sessions[id];
      var job := session.todo[0];
      var next := session.(todo := session.todo[1..]);
      if Settled(session.rows[job]) || (reachable && LockLive(w, job)) then
        w.(sessions := w.sessions[id := next])
      else
        w.(locks := if reachable then w.locks[job := w.now + LOCK_TTL_SECONDS] else w.locks,
           sessions := w.sessions[id := next.(section := Inside(job, w.now, reachable, Locked))])
    case Begin(id) =>
      var payload := w.sessions[id].rows[w.sessions[id].section.job];
      Flush(w, id, Begun(payload, maxRetries), if payload.attempts >= maxRetries then Over else Running)
    case Finish(id, outcome) => Flush(w, id, Ended(outcome, w.now), Over)
    case Release(id, reachable) =>
      var session := w.sessions[id];
      w.(locks := if reachable then w.locks - {session.section.job} else w.locks,
         sessions := w.sessions[id := session.(section := Outside)])
    case Commit(id) =>
      Rollback(w.(committed := w.committed + map job | job in w.flushed && w.flushed[job].owner == id :: w.flushed[job].payload), id)
    case Die(id, unlocked) =>
      var section := w.sessions[id].section;
      Rollback(if unlocked && section.Inside? then w.(locks := w.locks - {section.job}) else w, id)
  }

  predicate Possible(w: World, steps: seq<Step>, maxRetries: int)
    decreases |steps|
  {
    steps == [] || (Enabled(w, steps[0]) && Possible(Apply(w, steps[0], maxRetries), steps[1..], maxRetries))
  }

  function Run(w: World, steps: seq<Step>, maxRetries: int): World
    requires Possible(w, steps, maxRetries)
    decreases |steps|
  {
    if steps == [] then w else Run(Apply(w, steps[0], maxRetries), steps[1..], maxRetries)
  }

  lemma Prepend(w: World, step: Step, rest: seq<Step>, maxRetries: int)
    requires Enabled(w, step) && Possible(Apply(w, step, maxRetries), rest, maxRetries)
    ensures Possible(w, [step] + rest, maxRetries)
    ensures Run(w, [step] + rest, maxRetries) == Run(Apply(w, step, maxRetries), rest, maxRetries)
    ensures Guarded(w) && GuardedRun(Apply(w, step, maxRetries), rest, maxRetries)
        ==> GuardedRun(w, [step] + rest, maxRetries)
  {
    hide Apply, Enabled, Guarded;
    assert ([step] + rest)[1..] == rest;
  }

  lemma {:induction false} Append(w: World, first: seq<Step>, second: seq<Step>, maxRetries: int)
    requires Possible(w, first, maxRetries) && Possible(Run(w, first, maxRetries), second, maxRetries)
    ensures Possible(w, first + second, maxRetries)
    ensures Run(w, first + second, maxRetries) == Run(Run(w, first, maxRetries), second, maxRetries)
    decreases |first|
  {
    hide Apply, Enabled;
    if first == [] {
      assert first + second == second;
    } else {
      assert (first + second)[1..] == first[1..] + second;
      Append(Apply(w, first[0], maxRetries), first[1..], second, maxRetries);
    }
  }

  predicate Fresh(w: World) {
    w.sessions == map[] && w.flushed == map[]
  }

  // --- mutual exclusion --------------------------------------------------------

  /** Every section has a key and is younger than the lock's time to live. */
  ghost predicate Guarded(w: World) {
    forall id <- w.sessions :: w.sessions[id].section.Inside? ==>
      w.sessions[id].section.keyed && w.now < w.sessions[id].section.since + LOCK_TTL_SECONDS
  }

  ghost predicate GuardedRun(w: World, steps: seq<Step>, maxRetries: int)
    requires Possible(w, steps, maxRetries)
    decreases |steps|
  {
    Guarded(w) && (steps != [] ==> GuardedRun(Apply(w, steps[0], maxRetries), steps[1..], maxRetries))
  }

  ghost predicate Exclusive(w: World) {
    forall id <- w.sessions, other <- w.sessions ::
      var mine, theirs := w.sessions[id].section, w.sessions[other].section;
      mine.Inside? && theirs.Inside? && mine.job == theirs.job ==> id == other
  }

  /** The key of a keyed section is still the one its session wrote. */
  ghost predicate KeysHeld(w: World) {
    forall id <- w.sessions :: w.sessions[id].section.Inside? && w.sessions[id].section.keyed ==>
      var section := w.sessions[id].section;
      section.job in w.locks && w.locks[section.job] == section.since + LOCK_TTL_SECONDS
  }

  lemma ExclusionStep(w: World, step: Step, maxRetries: int)
    requires Guarded(w) && Exclusive(w) && KeysHeld(w) && Enabled(w, step)
    requires Guarded(Apply(w, step, maxRetries))
    ensures Exclusive(Apply(w, step, maxRetries)) && KeysHeld(Apply(w, step, maxRetries))
  {
    match step
    case Visit(id, reachable) => ExclusiveVisit(w, id, reachable, maxRetries);
    case Release(id, reachable) => ExclusiveRelease(w, id, reachable, maxRetries);
    case _ =>
  }

  /** A visitor that finds no live key finds no section either, since every section has one. */
  lemma ExclusiveVisit(w: World, id: SessionId, reachable: bool, maxRetries: int)
    requires Guarded(w) && Exclusive(w) && KeysHeld(w) && Enabled(w, Visit(id, reachable))
    requires Guarded(Apply(w, Visit(id, reachable), maxRetries))
    ensures Exclusive(Apply(w, Visit(id, reachable), maxRetries)) && KeysHeld(Apply(w, Visit(id, reachable), maxRetries))
  {
  }

  lemma ExclusiveRelease(w: World, id: SessionId, reachable: bool, maxRetries: int)
    requires Guarded(w) && Exclusive(w) && KeysHeld(w) && Enabled(w, Release(id, reachable))
    ensures Exclusive(Apply(w, Release(id, reachable), maxRetries)) && KeysHeld(Apply(w, Release(id, reachable), maxRetries))
  {
  }

  lemma {:induction false} ExclusionRun(w: World, steps: seq<Step>, maxRetries: int)
    requires Exclusive(w) && KeysHeld(w)
    requires Possible(w, steps, maxRetries) && GuardedRun(w, steps, maxRetries)
    ensures Exclusive(Run(w, steps, maxRetries)) && KeysHeld(Run(w, steps, maxRetries))
    decreases |steps|
  {
    if steps != [] {
      ExclusionStep(w, steps[0], maxRetries);
      ExclusionRun(Apply(w, steps[0], maxRetries), steps[1..], maxRetries);
    }
  }

  /** However the workers interleave and die, no two are inside the section of one job. */
  lemma MutualExclusion(w: World, steps: seq<Step>, maxRetries: int, id: SessionId, other: SessionId, job: JobId)
    requires Fresh(w) && Possible(w, steps, maxRetries) && GuardedRun(w, steps, maxRetries)
    requires InSection(Run(w, steps, maxRetries), id, job) && InSection(Run(w, steps, maxRetries), other, job)
    ensures id == other
  {
    ExclusionRun(w, steps, maxRetries);
  }

  /**
    Both guards are needed: while a keyed section is open, another session that
    visits the job joins it exactly when Redis cannot be reached or the section
    has outlived its key.
   */
  lemma SecondVisitor(w: World, maxRetries: int, id: SessionId, other: SessionId, reachable: bool)
    requires KeysHeld(w) && id in w.sessions && w.sessions[id].section.Inside? && w.sessions[id].section.keyed
    requires Enabled(w, Visit(other, reachable)) && w.sessions[other].todo[0] == w.sessions[id].section.job
    requires !Settled(w.sessions[other].rows[w.sessions[id].section.job])
    ensures
      var next := Apply(w, Visit(other, reachable), maxRetries);
      && (InSection(next, other, w.sessions[id].section.job)
          <==> !reachable || w.sessions[id].section.since + LOCK_TTL_SECONDS <= w.now)
      && (InSection(next, other, w.sessions[id].section.job) ==> !Exclusive(next))
  {
    var next := Apply(w, Visit(other, reachable), maxRetries);
    if InSection(next, other, w.sessions[id].section.job) {
      assert id in next.sessions && other in next.sessions && id != other;
    }
  }

  // --- the lock never blocks for longer than its time to live ----------------------

  ghost predicate LocksExpire(w: World) {
    forall job <- w.locks :: w.locks[job] <= w.now + LOCK_TTL_SECONDS
  }

  lemma {:induction false} LocksExpireRun(w: World, steps: seq<Step>, maxRetries: int)
    requires LocksExpire(w) && Possible(w, steps, maxRetries)
    ensures LocksExpire(Run(w, steps, maxRetries))
    decreases |steps|
  {
    if steps != [] {
      LocksExpireRun(Apply(w, steps[0], maxRetries), steps[1..], maxRetries);
    }
  }

  /** Whatever died holding the lock, a visit 900 seconds later enters the section. */
  lemma Recovery(w: World, steps: seq<Step>, maxRetries: int, id: SessionId, pause: nat)
    requires Fresh(w) && w.locks == map[] && Possible(w, steps, maxRetries)
    requires pause >= LOCK_TTL_SECONDS
    requires Enabled(Run(w, steps, maxRetries), Visit(id, true))
    ensures
      var late := Apply(Run(w, steps, maxRetries), Tick(pause), maxRetries);
      var job := late.sessions[id].todo[0];
      InSection(Apply(late, Visit(id, true), maxRetries), id, job) <==> !Settled(late.sessions[id].rows[job])
  {
    LocksExpireRun(w, steps, maxRetries);
  }

  // --- the retry ceiling --------------------------------------------------------

  ghost predicate Capped(w: World, maxRetries: int) {
    && (forall job <- w.committed :: w.committed[job].attempts <= maxRetries)
    && (forall job <- w.flushed :: w.flushed[job].payload.attempts <= maxRetries)
    && (forall id <- w.sessions, job <- w.sessions[id].rows :: w.sessions[id].rows[job].attempts <= maxRetries)
  }

  /** The generator leaves the attempt counter as it found it. */
  ghost predicate KeepsAttempts(w: World, steps: seq<Step>, maxRetries: int)
    requires Possible(w, steps, maxRetries)
    decreases |steps|
  {
    steps != [] ==>
      && (steps[0].Finish? ==>
            var session := w.sessions[steps[0].id];
            session.section.job in session.rows
            && steps[0].outcome.payload.attempts == session.rows[session.section.job].attempts)
      && KeepsAttempts(Apply(w, steps[0], maxRetries), steps[1..], maxRetries)
  }

  lemma CappedStep(w: World, step: Step, maxRetries: int)
    requires 0 <= maxRetries && Capped(w, maxRetries) && Enabled(w, step)
    requires step.Finish? ==>
               var session := w.sessions[step.id];
               session.section.job in session.rows
               && step.outcome.payload.attempts == session.rows[session.section.job].attempts
    ensures Capped(Apply(w, step, maxRetries), maxRetries)
  {
  }

  /** No payload that is read, flushed or committed ever counts more attempts than allowed. */
  lemma {:induction false} AttemptsCapped(w: World, steps: seq<Step>, maxRetries: int)
    requires 0 <= maxRetries && Capped(w, maxRetries)
    requires Possible(w, steps, maxRetries) && KeepsAttempts(w, steps, maxRetries)
    ensures Capped(Run(w, steps, maxRetries), maxRetries)
    decreases |steps|
  {
    hide Capped, Apply;
    if steps != [] {
      CappedStep(w, steps[0], maxRetries);
      AttemptsCapped(Apply(w, steps[0], maxRetries), steps[1..], maxRetries);
    }
  }

  /** A worker that dies after its first flush: nothing of the attempt is committed. */
  function DyingAttempt(job: JobId, rest: seq<Step>): seq<Step> {
    [Open(0, [job])] + ([Visit(0, true)] + ([Begin(0)] + ([Die(0, false)] + ([Tick(LOCK_TTL_SECONDS)] + rest))))
  }

  function DyingAttempts(job: JobId, count: nat): seq<Step> {
    if count == 0 then [] else DyingAttempt(job, DyingAttempts(job, count - 1))
  }

  /** A world in which nobody works on an unsettled job that has attempts left. */
  ghost predicate Waiting(w: World, job: JobId, maxRetries: int) {
    && Fresh(w) && job in w.committed && !LockLive(w, job)
    && !Settled(w.committed[job]) && w.committed[job].attempts < maxRetries
  }

  /** Of an attempt that died only the time and the expired key remain. */
  function AfterDying(w: World, job: JobId): World {
    w.(now := w.now + LOCK_TTL_SECONDS, locks := w.locks[job := w.now + LOCK_TTL_SECONDS])
  }

  /** The world in which the attempt's first payload is flushed by its only session. */
  function Doomed(w: World, job: JobId, payload: Payload): World {
    w.(locks := w.locks[job := w.now + LOCK_TTL_SECONDS],
       flushed := map[job := Flushed(0, payload)],
       sessions := map[0 := Session(map[job := payload], [], Inside(job, w.now, true, Running))])
  }

  lemma DoomedBegins(w: World, job: JobId, maxRetries: int)
    requires Waiting(w, job, maxRetries)
    ensures Guarded(w) && Enabled(w, Open(0, [job]))
    ensures
      var open := Apply(w, Open(0, [job]), maxRetries);
      && Guarded(open) && Enabled(open, Visit(0, true))
      && var visited := Apply(open, Visit(0, true), maxRetries);
      && Guarded(visited) && Enabled(visited, Begin(0))
      && Apply(visited, Begin(0), maxRetries) == Doomed(w, job, Begun(w.committed[job], maxRetries))
  {
    hide Begun;
    var open := Apply(w, Open(0, [job]), maxRetries);
    var visited := Apply(open, Visit(0, true), maxRetries);
    assert open.sessions[0].rows == map[job := w.committed[job]];
    assert [job][1..] == [];
    assert visited.sessions[0] == Session(map[job := w.committed[job]], [], Inside(job, w.now, true, Locked));
    var begun, target := Apply(visited, Begin(0), maxRetries), Doomed(w, job, Begun(w.committed[job], maxRetries));
    assert begun.sessions[0] == target.sessions[0];
    assert begun.sessions == target.sessions && begun.flushed == target.flushed;
  }

  lemma DoomedDies(w: World, job: JobId, payload: Payload, maxRetries: int)
    requires Fresh(w)
    ensures
      var begun := Doomed(w, job, payload);
      && Guarded(begun) && Enabled(begun, Die(0, false))
      && var died := Apply(begun, Die(0, false), maxRetries);
      && Guarded(died) && Apply(died, Tick(LOCK_TTL_SECONDS), maxRetries) == AfterDying(w, job)
  {
    var died := Apply(Doomed(w, job, payload), Die(0, false), maxRetries);
    assert died.sessions == w.sessions && died.flushed == w.flushed;
  }

  lemma DyingAttemptRuns(w: World, job: JobId, maxRetries: int, rest: seq<Step>)
    requires Waiting(w, job, maxRetries)
    requires Possible(AfterDying(w, job), rest, maxRetries) && GuardedRun(AfterDying(w, job), rest, maxRetries)
    ensures Possible(w, DyingAttempt(job, rest), maxRetries) && GuardedRun(w, DyingAttempt(job, rest), maxRetries)
    ensures Run(w, DyingAttempt(job, rest), maxRetries) == Run(AfterDying(w, job), rest, maxRetries)
  {
    DoomedBegins(w, job, maxRetries);
    DoomedDies(w, job, Begun(w.committed[job], maxRetries), maxRetries);
    hide Possible, Run, GuardedRun, Apply, Guarded, Waiting, AfterDying, Doomed;
    var open := Apply(w, Open(0, [job]), maxRetries);
    var visited := Apply(open, Visit(0, true), maxRetries);
    var begun := Apply(visited, Begin(0), maxRetries);
    var died := Apply(begun, Die(0, false), maxRetries);
    Prepend(died, Tick(LOCK_TTL_SECONDS), rest, maxRetries);
    var ticking := [Tick(LOCK_TTL_SECONDS)] + rest;
    Prepend(begun, Die(0, false), ticking, maxRetries);
    Prepend(visited, Begin(0), [Die(0, false)] + ticking, maxRetries);
    Prepend(open, Visit(0, true), [Begin(0)] + ([Die(0, false)] + ticking), maxRetries);
    Prepend(w, Open(0, [job]), [Visit(0, true)] + ([Begin(0)] + ([Die(0, false)] + ticking)), maxRetries);
  }

  /**
    The counter is flushed but not committed before the generator runs, so
    nothing is left of the attempts of a job that kills its worker.
   */
  lemma {:induction false} DyingAttemptsAreForgotten(w: World, job: JobId, count: nat, maxRetries: int)
    requires Waiting(w, job, maxRetries)
    ensures Possible(w, DyingAttempts(job, count), maxRetries)
    ensures GuardedRun(w, DyingAttempts(job, count), maxRetries)
    ensures Run(w, DyingAttempts(job, count), maxRetries).committed == w.committed
    decreases count
  {
    if count > 0 {
      DyingAttemptsAreForgotten(AfterDying(w, job), job, count - 1, maxRetries);
      DyingAttemptRuns(w, job, maxRetries, DyingAttempts(job, count - 1));
    }
  }

  // --- one attempt --------------------------------------------------------------

  /** One session taking one job through the section, alone. */
  function Attempt(id: SessionId, outcome: Outcome): seq<Step> {
    [Visit(id, true)] + ([Begin(id)] + ([Finish(id, outcome)] + ([Release(id, true)] + ([Commit(id)] + []))))
  }

  /** A session about to visit one unsettled job that nobody else is writing. */
  predicate Poised(w: World, id: SessionId, job: JobId) {
    && id in w.sessions && w.sessions[id].section.Outside? && w.sessions[id].todo == [job]
    && job in w.sessions[id].rows && !Settled(w.sessions[id].rows[job])
    && !LockLive(w, job) && w.flushed == map[]
  }

  /** The world in which the session has left the section with the given payload flushed. */
  function LeftWith(w: World, id: SessionId, job: JobId, payload: Payload): World
    requires id in w.sessions
  {
    w.(locks := w.locks - {job},
       flushed := map[job := Flushed(id, payload)],
       sessions := w.sessions[id := Session(w.sessions[id].rows[job := payload], [], Outside)])
  }

  /** The world inside the section, after the given payload was flushed. */
  function InsideWith(w: World, id: SessionId, job: JobId, payload: Payload, stage: Stage): World
    requires id in w.sessions
  {
    w.(locks := w.locks[job := w.now + LOCK_TTL_SECONDS],
       flushed := map[job := Flushed(id, payload)],
       sessions := w.sessions[id := Session(w.sessions[id].rows[job := payload], [], Inside(job, w.now, true, stage))])
  }

  /** The visit obtains the lock and the beginning flushes the first payload. */
  lemma Beginning(w: World, id: SessionId, job: JobId, maxRetries: int)
    requires Poised(w, id, job) && w.sessions[id].rows[job].attempts < maxRetries && Guarded(w)
    ensures Enabled(w, Visit(id, true))
    ensures
      var visited := Apply(w, Visit(id, true), maxRetries);
      var inside := InsideWith(w, id, job, Begun(w.sessions[id].rows[job], maxRetries), Running);
      && Guarded(visited) && Enabled(visited, Begin(id))
      && visited.sessions[id].section.job == job && visited.sessions[id].rows == w.sessions[id].rows
      && Apply(visited, Begin(id), maxRetries) == inside && Guarded(inside)
  {
    hide Begun;
    var visited := Apply(w, Visit(id, true), maxRetries);
    var begun := Apply(visited, Begin(id), maxRetries);
    var target := InsideWith(w, id, job, Begun(w.sessions[id].rows[job], maxRetries), Running);
    assert begun.sessions[id] == target.sessions[id];
    assert begun.sessions == target.sessions;
    assert begun == target;
  }

  lemma AttemptBegins(w: World, id: SessionId, job: JobId, maxRetries: int, rest: seq<Step>)
    requires Poised(w, id, job) && w.sessions[id].rows[job].attempts < maxRetries && Guarded(w)
    requires Possible(InsideWith(w, id, job, Begun(w.sessions[id].rows[job], maxRetries), Running), rest, maxRetries)
    requires GuardedRun(InsideWith(w, id, job, Begun(w.sessions[id].rows[job], maxRetries), Running), rest, maxRetries)
    ensures
      var steps := [Visit(id, true)] + ([Begin(id)] + rest);
      && Possible(w, steps, maxRetries) && GuardedRun(w, steps, maxRetries)
      && Run(w, steps, maxRetries) == Run(InsideWith(w, id, job, Begun(w.sessions[id].rows[job], maxRetries), Running), rest, maxRetries)
  {
    hide Possible, Run, GuardedRun, Apply, Enabled, Guarded, InsideWith, Begun, Poised;
    Beginning(w, id, job, maxRetries);
    var visited := Apply(w, Visit(id, true), maxRetries);
    Prepend(visited, Begin(id), rest, maxRetries);
    Prepend(w, Visit(id, true), [Begin(id)] + rest, maxRetries);
  }

  lemma AttemptEnds(w: World, id: SessionId, job: JobId, maxRetries: int, payload: Payload, outcome: Outcome, rest: seq<Step>)
    requires id in w.sessions && Guarded(InsideWith(w, id, job, payload, Running))
    requires Possible(LeftWith(w, id, job, Ended(outcome, w.now)), rest, maxRetries)
    requires GuardedRun(LeftWith(w, id, job, Ended(outcome, w.now)), rest, maxRetries)
    ensures
      var steps := [Finish(id, outcome)] + ([Release(id, true)] + rest);
      && Possible(InsideWith(w, id, job, payload, Running), steps, maxRetries)
      && GuardedRun(InsideWith(w, id, job, payload, Running), steps, maxRetries)
      && Run(InsideWith(w, id, job, payload, Running), steps, maxRetries)
         == Run(LeftWith(w, id, job, Ended(outcome, w.now)), rest, maxRetries)
  {
    hide Possible, Run, GuardedRun, Apply, Enabled, Guarded, InsideWith, LeftWith;
    var inside := InsideWith(w, id, job, payload, Running);
    Leaving(w, id, job, maxRetries, payload, outcome);
    var finished := Apply(inside, Finish(id, outcome), maxRetries);
    Prepend(finished, Release(id, true), rest, maxRetries);
    Prepend(inside, Finish(id, outcome), [Release(id, true)] + rest, maxRetries);
  }

  /** Finishing and releasing lead out of the section with the outcome flushed. */
  lemma Leaving(w: World, id: SessionId, job: JobId, maxRetries: int, payload: Payload, outcome: Outcome)
    requires id in w.sessions && Guarded(InsideWith(w, id, job, payload, Running))
    ensures
      var inside := InsideWith(w, id, job, payload, Running);
      && Enabled(inside, Finish(id, outcome))
      && (var finished := Apply(inside, Finish(id, outcome), maxRetries);
          && Guarded(finished) && Enabled(finished, Release(id, true))
          && Apply(finished, Release(id, true), maxRetries) == LeftWith(w, id, job, Ended(outcome, w.now)))
  {
    hide Apply, LeftWith, Guarded, Enabled, InsideWith;
    Finishing(w, id, job, maxRetries, payload, outcome);
    Releasing(w, id, job, maxRetries, Ended(outcome, w.now));
  }

  lemma Finishing(w: World, id: SessionId, job: JobId, maxRetries: int, payload: Payload, outcome: Outcome)
    requires id in w.sessions && Guarded(InsideWith(w, id, job, payload, Running))
    ensures
      var inside := InsideWith(w, id, job, payload, Running);
      && Enabled(inside, Finish(id, outcome))
      && Apply(inside, Finish(id, outcome), maxRetries) == InsideWith(w, id, job, Ended(outcome, w.now), Over)
      && Guarded(InsideWith(w, id, job, Ended(outcome, w.now), Over))
  {
    hide Ended;
    var inside, target := InsideWith(w, id, job, payload, Running), InsideWith(w, id, job, Ended(outcome, w.now), Over);
    var finished := Apply(inside, Finish(id, outcome), maxRetries);
    assert finished.sessions[id] == target.sessions[id];
    assert finished.sessions == target.sessions && finished.flushed == target.flushed;
    forall other | other in target.sessions && target.sessions[other].section.Inside?
      ensures target.sessions[other].section.keyed && target.now < target.sessions[other].section.since + LOCK_TTL_SECONDS
    {
      assert inside.sessions[other].section.Inside?;
    }
  }

  lemma Releasing(w: World, id: SessionId, job: JobId, maxRetries: int, payload: Payload)
    requires id in w.sessions
    ensures
      var over := InsideWith(w, id, job, payload, Over);
      Enabled(over, Release(id, true)) && Apply(over, Release(id, true), maxRetries) == LeftWith(w, id, job, payload)
  {
    var released := Apply(InsideWith(w, id, job, payload, Over), Release(id, true), maxRetries);
    var target := LeftWith(w, id, job, payload);
    assert released.sessions[id] == target.sessions[id];
    assert released.sessions == target.sessions && released.locks == target.locks;
  }

  /**
    The interleaved steps of an undisturbed attempt do what `Execute` does, to
    the payload the session had read, whatever was committed meanwhile.
   */
  lemma UndisturbedAttempt(w: World, id: SessionId, job: JobId, maxRetries: int, generate: Payload -> Outcome)
    requires Poised(w, id, job) && w.sessions[id].rows[job].attempts < maxRetries && Guarded(w)
    ensures
      var payload := w.sessions[id].rows[job];
      var steps := Attempt(id, generate(Begun(payload, maxRetries)));
      && Possible(w, steps, maxRetries) && GuardedRun(w, steps, maxRetries)
      && Run(w, steps, maxRetries)
         == w.(committed := w.committed[job := Executed(payload, maxRetries, generate, w.now)],
               locks := w.locks - {job},
               sessions := w.sessions - {id})
  {
    var outcome := generate(Begun(w.sessions[id].rows[job], maxRetries));
    var left := LeftWith(w, id, job, Ended(outcome, w.now));
    var over := Apply(left, Commit(id), maxRetries);
    assert over.flushed == map[];
    assert over.committed == w.committed[job := Ended(outcome, w.now)];
    assert over.sessions == w.sessions - {id};
    Prepend(left, Commit(id), [], maxRetries);
    var begun := Begun(w.sessions[id].rows[job], maxRetries);
    AttemptEnds(w, id, job, maxRetries, begun, outcome, [Commit(id)] + []);
    AttemptBegins(w, id, job, maxRetries, [Finish(id, outcome)] + ([Release(id, true)] + ([Commit(id)] + [])));
  }

  /**
    Exclusion is not single execution: the row is read before the lock is taken
    and the lock is released before the commit, so two sessions that both read
    the queued row complete it one after the other, fully guarded.
   */
  lemma CompletedTwice(start: World, job: JobId, maxRetries: int, first: Payload, second: Payload)
    requires Fresh(start) && !LockLive(start, job)
    requires job in start.committed && !Settled(start.committed[job]) && start.committed[job].attempts < maxRetries
    requires first.status == Completed && second.status == Completed
    ensures
      var w := Apply(Apply(start, Open(0, [job]), maxRetries), Open(1, [job]), maxRetries);
      var once := Attempt(0, Generated(first));
      var twice := Attempt(1, Generated(second));
      && Possible(w, once, maxRetries) && GuardedRun(w, once, maxRetries)
      && (var between := Run(w, once, maxRetries);
          && job in between.committed && between.committed[job] == first
          && Possible(between, twice, maxRetries) && GuardedRun(between, twice, maxRetries)
          && (var after := Run(between, twice, maxRetries);
              job in after.committed && after.committed[job] == second))
  {
    var w := Apply(Apply(start, Open(0, [job]), maxRetries), Open(1, [job]), maxRetries);
    UndisturbedAttempt(w, 0, job, maxRetries, _ => Generated(first));
    UndisturbedAttempt(Run(w, Attempt(0, Generated(first)), maxRetries), 1, job, maxRetries, _ => Generated(second));
  }
}
