/** When an export job that has been settled can be run again (backend/app/jobs/consumers/exports.py). */
module ExportSettled {
  import opened ExportJobs

  /** The session has read the job unsettled and has yet to visit it. */
  predicate WillTry(w: World, id: SessionId, job: JobId) {
    && id in w.sessions && job in w.sessions[id].todo
    && job in w.sessions[id].rows && !Settled(w.sessions[id].rows[job])
  }

  /** The job is settled, in the table and in what is about to be committed, and nobody is at it or about to try it. */
  ghost predicate Done(w: World, job: JobId) {
    && job in w.committed && Settled(w.committed[job])
    && (job in w.flushed ==> Settled(w.flushed[job].payload))
    && forall id <- w.sessions :: !InSection(w, id, job) && !WillTry(w, id, job)
  }

  /** What holds in every run: a flushed row is what its session last wrote, and every key expires. */
  ghost predicate WellKept(w: World) {
    && LocksExpire(w)
    && (forall job <- w.flushed :: FlushedByOwner(w, job))
    && (forall id <- w.sessions :: KnowsItsRows(w.sessions[id]))
  }

  predicate FlushedByOwner(w: World, job: JobId)
    requires job in w.flushed
  {
    var flushed := w.flushed[job];
    && flushed.owner in w.sessions && job in w.sessions[flushed.owner].rows
    && w.sessions[flushed.owner].rows[job] == flushed.payload
  }

  predicate KnowsItsRows(session: Session) {
    && (forall job <- session.todo :: job in session.rows)
    && (session.section.Inside? ==> session.section.job in session.rows)
  }

  lemma FlushesKept(w: World, step: Step, maxRetries: int)
    requires WellKept(w) && Enabled(w, step)
    ensures
      var next := Apply(w, step, maxRetries);
      forall job <- next.flushed :: FlushedByOwner(next, job)
  {
    hide LocksExpire, KnowsItsRows, LockLive, Settled, Begun, Ended;
  }

  lemma RowsKnown(w: World, step: Step, maxRetries: int)
    requires WellKept(w) && Enabled(w, step)
    ensures
      var next := Apply(w, step, maxRetries);
      forall id <- next.sessions :: KnowsItsRows(next.sessions[id])
  {
    hide LocksExpire, FlushedByOwner, LockLive, Settled, Begun, Ended;
  }

  lemma WellKeptStep(w: World, step: Step, maxRetries: int)
    requires WellKept(w) && Enabled(w, step)
    ensures WellKept(Apply(w, step, maxRetries))
  {
    FlushesKept(w, step, maxRetries);
    RowsKnown(w, step, maxRetries);
    hide FlushedByOwner, KnowsItsRows, Settled, Begun, Ended;
  }

  lemma {:induction false} WellKeptRun(w: World, steps: seq<Step>, maxRetries: int)
    requires WellKept(w) && Possible(w, steps, maxRetries)
    ensures WellKept(Run(w, steps, maxRetries))
    decreases |steps|
  {
    hide WellKept, Apply, Enabled;
    if steps != [] {
      WellKeptStep(w, steps[0], maxRetries);
      WellKeptRun(Apply(w, steps[0], maxRetries), steps[1..], maxRetries);
    }
  }

  lemma DoneStep(w: World, step: Step, job: JobId, maxRetries: int)
    requires Done(w, job) && Enabled(w, step)
    ensures Done(Apply(w, step, maxRetries), job)
    ensures job !in w.flushed ==>
              job !in Apply(w, step, maxRetries).flushed
              && Apply(w, step, maxRetries).committed[job] == w.committed[job]
  {
  }

  /** From then on nobody enters the section of the job, and its row never changes once nothing is pending. */
  lemma {:induction false} DoneForGood(w: World, steps: seq<Step>, maxRetries: int, job: JobId)
    requires Done(w, job) && Possible(w, steps, maxRetries)
    ensures Done(Run(w, steps, maxRetries), job)
    ensures job !in w.flushed ==> Run(w, steps, maxRetries).committed[job] == w.committed[job]
    decreases |steps|
  {
    hide Apply, Enabled;
    if steps != [] {
      DoneStep(w, steps[0], job, maxRetries);
      DoneForGood(Apply(w, steps[0], maxRetries), steps[1..], maxRetries, job);
    }
  }

  // --- otherwise the job can be run again ----------------------------------------

  lemma Single(w: World, step: Step, maxRetries: int)
    requires Enabled(w, step)
    ensures Possible(w, [step], maxRetries) && Run(w, [step], maxRetries) == Apply(w, step, maxRetries)
  {
    assert [step][1..] == [];
  }

  /** A run after which somebody is inside the section of the job. */
  ghost predicate Enters(w: World, steps: seq<Step>, maxRetries: int, job: JobId) {
    Possible(w, steps, maxRetries) && exists id :: InSection(Run(w, steps, maxRetries), id, job)
  }

  lemma EntersLater(w: World, first: seq<Step>, second: seq<Step>, maxRetries: int, job: JobId)
    requires Possible(w, first, maxRetries) && Enters(Run(w, first, maxRetries), second, maxRetries, job)
    ensures Enters(w, first + second, maxRetries, job)
  {
    Append(w, first, second, maxRetries);
  }

  /** The session has the workers and the table to itself. */
  predicate Alone(w: World, id: SessionId) {
    w.sessions.Keys == {id}
  }

  /** All other workers may die. */
  lemma {:induction false} LeftAlone(w: World, id: SessionId, maxRetries: int) returns (steps: seq<Step>)
    requires WellKept(w) && id in w.sessions
    ensures Possible(w, steps, maxRetries)
    ensures
      var later := Run(w, steps, maxRetries);
      && WellKept(later) && Alone(later, id) && later.sessions[id] == w.sessions[id] && later.committed == w.committed
      && forall job <- w.flushed :: w.flushed[job].owner == id ==>
           job in later.flushed && later.flushed[job] == w.flushed[job]
    decreases |w.sessions|
  {
    if other :| other in w.sessions && other != id {
      var next := Apply(w, Die(other, false), maxRetries);
      WellKeptStep(w, Die(other, false), maxRetries);
      assert next.sessions.Keys == w.sessions.Keys - {other};
      assert |next.sessions| == |next.sessions.Keys| && |w.sessions| == |w.sessions.Keys|;
      var rest := LeftAlone(next, id, maxRetries);
      Prepend(w, Die(other, false), rest, maxRetries);
      steps := [Die(other, false)] + rest;
    } else {
      steps := [];
    }
  }

  /** The later world differs only in what concerns the one job, and the session is outside. */
  ghost predicate LeftSection(w: World, later: World, id: SessionId, job: JobId) {
    && WellKept(later) && Alone(later, id) && later.committed == w.committed && id in w.sessions
    && later.sessions[id].section.Outside? && later.sessions[id].todo == w.sessions[id].todo
    && (forall other <- w.sessions[id].rows :: other != job ==>
          other in later.sessions[id].rows && later.sessions[id].rows[other] == w.sessions[id].rows[other])
    && (forall other <- w.flushed :: other != job ==> other in later.flushed && later.flushed[other] == w.flushed[other])
  }

  function Rank(stage: Stage): nat {
    match stage
    case Locked => 2
    case Running => 1
    case Over => 0
  }

  /** The step that brings a section forward when nobody holds the row. */
  function Onward(w: World, id: SessionId): Step
    requires id in w.sessions && w.sessions[id].section.Inside? && w.sessions[id].section.job in w.sessions[id].rows
  {
    var section := w.sessions[id].section;
    match section.stage
    case Locked => Begin(id)
    case Running => Finish(id, Generated(w.sessions[id].rows[section.job]))
    case Over => Release(id, true)
  }

  lemma OnwardStep(w: World, id: SessionId, maxRetries: int)
    requires WellKept(w) && Alone(w, id) && w.sessions[id].section.Inside?
    ensures w.sessions[id].section.job in w.sessions[id].rows
    ensures Enabled(w, Onward(w, id))
    ensures
      var job := w.sessions[id].section.job;
      var next := Apply(w, Onward(w, id), maxRetries);
      && Alone(next, id) && next.committed == w.committed && next.sessions[id].todo == w.sessions[id].todo
      && (forall other <- w.sessions[id].rows :: other != job ==>
            other in next.sessions[id].rows && next.sessions[id].rows[other] == w.sessions[id].rows[other])
      && (forall other <- w.flushed :: other != job ==> other in next.flushed && next.flushed[other] == w.flushed[other])
      && (if w.sessions[id].section.stage == Over then next.sessions[id].section.Outside?
          else
            && next.sessions[id].section.Inside? && next.sessions[id].section.job == job
            && Rank(next.sessions[id].section.stage) < Rank(w.sessions[id].section.stage))
  {
    assert KnowsItsRows(w.sessions[id]);
    forall job | job in w.flushed ensures w.flushed[job].owner == id {
      assert FlushedByOwner(w, job);
    }
  }

  /** A session alone can always leave the section it is in. */
  lemma {:induction false} Leave(w: World, id: SessionId, maxRetries: int) returns (steps: seq<Step>)
    requires WellKept(w) && Alone(w, id) && w.sessions[id].section.Inside?
    ensures Possible(w, steps, maxRetries)
    ensures LeftSection(w, Run(w, steps, maxRetries), id, w.sessions[id].section.job)
    decreases Rank(w.sessions[id].section.stage)
  {
    hide Apply, Enabled, Onward, WellKept;
    OnwardStep(w, id, maxRetries);
    var step := Onward(w, id);
    var next := Apply(w, step, maxRetries);
    WellKeptStep(w, step, maxRetries);
    if w.sessions[id].section.stage == Over {
      Single(w, step, maxRetries);
      steps := [step];
    } else {
      var rest := Leave(next, id, maxRetries);
      Prepend(w, step, rest, maxRetries);
      steps := [step] + rest;
    }
  }

  /** The next visit, once every key has expired. */
  lemma VisitNext(w: World, id: SessionId, maxRetries: int)
    requires WellKept(w) && Alone(w, id) && w.sessions[id].section.Outside? && w.sessions[id].todo != []
    ensures
      var steps := [Tick(LOCK_TTL_SECONDS), Visit(id, true)];
      var job := w.sessions[id].todo[0];
      && job in w.sessions[id].rows
      && Possible(w, steps, maxRetries)
      && var later := Run(w, steps, maxRetries);
      && WellKept(later) && Alone(later, id) && later.committed == w.committed && later.flushed == w.flushed
      && later.sessions[id].todo == w.sessions[id].todo[1..] && later.sessions[id].rows == w.sessions[id].rows
      && (if Settled(w.sessions[id].rows[job]) then later.sessions[id].section.Outside? else InSection(later, id, job))
  {
    assert KnowsItsRows(w.sessions[id]);
    var ticked := Apply(w, Tick(LOCK_TTL_SECONDS), maxRetries);
    WellKeptStep(w, Tick(LOCK_TTL_SECONDS), maxRetries);
    WellKeptStep(ticked, Visit(id, true), maxRetries);
    Single(ticked, Visit(id, true), maxRetries);
    Prepend(w, Tick(LOCK_TTL_SECONDS), [Visit(id, true)], maxRetries);
    assert [Tick(LOCK_TTL_SECONDS)] + [Visit(id, true)] == [Tick(LOCK_TTL_SECONDS), Visit(id, true)];
  }

  /** A session alone that will try the job gets into its section. */
  lemma {:induction false} TriesAlone(w: World, id: SessionId, job: JobId, maxRetries: int) returns (steps: seq<Step>)
    requires WellKept(w) && Alone(w, id) && WillTry(w, id, job)
    ensures Enters(w, steps, maxRetries, job)
    decreases |w.sessions[id].todo|, w.sessions[id].section.Inside?
  {
    hide Apply, Enabled, WellKept, Possible, Run, Settled;
    var session := w.sessions[id];
    if InSection(w, id, job) {
      steps := [];
      Nothing(w, maxRetries);
    } else if session.section.Inside? {
      var first := Leave(w, id, maxRetries);
      var second := TriesAlone(Run(w, first, maxRetries), id, job, maxRetries);
      EntersLater(w, first, second, maxRetries, job);
      steps := first + second;
    } else {
      VisitNext(w, id, maxRetries);
      var first := [Tick(LOCK_TTL_SECONDS), Visit(id, true)];
      var later := Run(w, first, maxRetries);
      if session.todo[0] == job {
        steps := first;
        assert InSection(later, id, job);
      } else {
        assert job in session.todo[1..];
        var second := TriesAlone(later, id, job, maxRetries);
        EntersLater(w, first, second, maxRetries, job);
        steps := first + second;
      }
    }
  }

  lemma Nothing(w: World, maxRetries: int)
    ensures Possible(w, [], maxRetries) && Run(w, [], maxRetries) == w
  {
  }

  /** A session alone that is through with the job can go on to its commit. */
  lemma {:induction false} CommitsAlone(w: World, id: SessionId, job: JobId, maxRetries: int) returns (steps: seq<Step>)
    requires WellKept(w) && Alone(w, id) && job in w.flushed
    requires !InSection(w, id, job) && job !in w.sessions[id].todo
    ensures Possible(w, steps, maxRetries)
    ensures
      var later := Run(w, steps, maxRetries);
      WellKept(later) && job in later.committed && later.committed[job] == w.flushed[job].payload
    decreases |w.sessions[id].todo|, w.sessions[id].section.Inside?
  {
    hide Apply, WellKept, Possible, Run;
    var session := w.sessions[id];
    if session.section.Inside? {
      var first := Leave(w, id, maxRetries);
      var second := CommitsAlone(Run(w, first, maxRetries), id, job, maxRetries);
      Append(w, first, second, maxRetries);
      steps := first + second;
    } else if session.todo != [] {
      VisitNext(w, id, maxRetries);
      var first := [Tick(LOCK_TTL_SECONDS), Visit(id, true)];
      assert session.todo[0] in session.todo;
      var second := CommitsAlone(Run(w, first, maxRetries), id, job, maxRetries);
      Append(w, first, second, maxRetries);
      steps := first + second;
    } else {
      steps := [Commit(id)];
      Single(w, Commit(id), maxRetries);
      WellKeptStep(w, Commit(id), maxRetries);
      CommitsOwn(w, id, job, maxRetries);
    }
  }

  lemma CommitsOwn(w: World, id: SessionId, job: JobId, maxRetries: int)
    requires WellKept(w) && Alone(w, id) && job in w.flushed && Enabled(w, Commit(id))
    ensures
      var later := Apply(w, Commit(id), maxRetries);
      job in later.committed && later.committed[job] == w.flushed[job].payload
  {
    assert FlushedByOwner(w, job);
  }

  lemma {:induction false} FreshId(ids: set<SessionId>) returns (id: SessionId)
    ensures id !in ids && forall other <- ids :: other < id
    decreases |ids|
  {
    if other: SessionId :| other in ids {
      var rest := FreshId(ids - {other});
      id := if rest <= other then other + 1 else rest;
      assert forall one <- ids :: one == other || one in ids - {other};
    } else {
      id := 0;
    }
  }

  /** Whoever opens a job that is not settled gets into its section, once every key has expired. */
  lemma OpensAgain(w: World, job: JobId, maxRetries: int) returns (steps: seq<Step>)
    requires WellKept(w) && job in w.committed && !Settled(w.committed[job])
    ensures Enters(w, steps, maxRetries, job)
  {
    var id := FreshId(w.sessions.Keys);
    var opening, ticking, visiting := Open(id, [job]), Tick(LOCK_TTL_SECONDS), Visit(id, true);
    var open := Apply(w, opening, maxRetries);
    var late := Apply(open, ticking, maxRetries);
    var visited := Apply(late, visiting, maxRetries);
    assert InSection(visited, id, job);
    Single(late, visiting, maxRetries);
    Prepend(open, ticking, [visiting], maxRetries);
    Prepend(w, opening, [ticking] + [visiting], maxRetries);
    steps := [opening] + ([ticking] + [visiting]);
  }

  lemma RunsAgain(w: World, job: JobId, maxRetries: int) returns (steps: seq<Step>)
    requires WellKept(w) && job in w.committed && !Done(w, job)
    ensures Enters(w, steps, maxRetries, job)
  {
    hide Apply, Enabled, WellKept, Possible, Run, Settled;
    if id :| InSection(w, id, job) {
      steps := [];
      Nothing(w, maxRetries);
    } else if id :| WillTry(w, id, job) {
      var first := LeftAlone(w, id, maxRetries);
      var second := TriesAlone(Run(w, first, maxRetries), id, job, maxRetries);
      EntersLater(w, first, second, maxRetries, job);
      steps := first + second;
    } else if Settled(w.committed[job]) {
      OwnerKnown(w, job);
      var id := w.flushed[job].owner;
      assert !InSection(w, id, job) && !WillTry(w, id, job);
      var first := LeftAlone(w, id, maxRetries);
      var alone := Run(w, first, maxRetries);
      var second := CommitsAlone(alone, id, job, maxRetries);
      var third := OpensAgain(Run(alone, second, maxRetries), job, maxRetries);
      EntersLater(alone, second, third, maxRetries, job);
      EntersLater(w, first, second + third, maxRetries, job);
      steps := first + (second + third);
    } else {
      steps := OpensAgain(w, job, maxRetries);
    }
  }

  /** What a session has flushed unsettled it does not visit again, unless it will try it. */
  lemma OwnerKnown(w: World, job: JobId)
    requires WellKept(w) && job in w.flushed && !Settled(w.flushed[job].payload)
    ensures w.flushed[job].owner in w.sessions
    ensures job in w.sessions[w.flushed[job].owner].todo ==> WillTry(w, w.flushed[job].owner, job)
  {
    assert FlushedByOwner(w, job);
  }

  /**
    When a job is never run twice: at any point of any run, nobody can get into
    the section of the job any more if and only if it is settled, what is about
    to be committed is settled too, nobody is inside, and nobody who read it
    unsettled has yet to visit it.
   */
  lemma NeverAgainExactly(start: World, steps: seq<Step>, maxRetries: int, job: JobId)
    requires Fresh(start) && LocksExpire(start) && Possible(start, steps, maxRetries)
    requires job in Run(start, steps, maxRetries).committed
    ensures
      var w := Run(start, steps, maxRetries);
      (forall more: seq<Step> :: !Enters(w, more, maxRetries, job)) <==> Done(w, job)
  {
    var w := Run(start, steps, maxRetries);
    WellKeptRun(start, steps, maxRetries);
    if Done(w, job) {
      forall more: seq<Step> | Possible(w, more, maxRetries) ensures !Enters(w, more, maxRetries, job) {
        DoneForGood(w, more, maxRetries, job);
      }
    } else {
      var more := RunsAgain(w, job, maxRetries);
    }
  }
}
