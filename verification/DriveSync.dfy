/**
  backend/app/jobs/consumers/__init__.py: `handle_drive_sync` under a broker that
  redelivers a message until it is acknowledged.
 */
module DriveSync {
  import opened Wrappers

  const ERROR_LENGTH := 500

  datatype Status = Queued | Processing | Completed | Failed

  datatype Payload = Payload(status: Status, attempts: int, error: Option<string>, completedAt: Option<int>)

  /** How `run_sync_job` ends; it never touches the attempt counter. */
  datatype Sync = Synced | SyncFailed(message: string)

  /** What the broker sees of one delivery. */
  datatype Reply = Acknowledged | Requeued

  function Begun(payload: Payload): Payload {
    payload.(status := Processing, attempts := payload.attempts + 1)
  }

  function Ended(payload: Payload, sync: Sync, maxRetries: int, now: int): (Payload, Reply) {
    match sync
    case Synced => (payload.(status := Completed, completedAt := Some(now)), Acknowledged)
    case SyncFailed(message) =>
      var failed := payload.attempts >= maxRetries;
      (payload.(status := if failed then Failed else Queued,
                error := Some(if |message| > ERROR_LENGTH then message[..ERROR_LENGTH] else message),
                completedAt := if failed then Some(now) else None),
       if failed then Acknowledged else Requeued)
  }

  /** The row as its session sees it and as it stands in the database. */
  class JobRow {
    var payload: Payload
    var committed: Payload

    constructor (payload: Payload)
      ensures this.payload == this.committed == payload
    {
      this.payload, this.committed := payload, payload;
    }

    method Commit()
      modifies this`committed
      ensures committed == payload
    {
      committed := payload;
    }
  }

  /**
    `handle_drive_sync` as called by `handle_message`.  A job id that does not
    parse raises before there is a job, a missing or completed job is dropped,
    any other is counted, committed, run and committed again.
   */
  method HandleDriveSync(job: JobRow?, idParses: bool, sync: Sync, maxRetries: int, now: int) returns (reply: Reply)
    requires !idParses ==> job == null
    requires job != null ==> job.payload == job.committed
    modifies job
    ensures !idParses ==> reply == Requeued
    ensures idParses && job == null ==> reply == Acknowledged
    ensures job != null ==> job.payload == job.committed
    ensures job != null && old(job.payload.status) == Completed ==> reply == Acknowledged && job.committed == old(job.committed)
    ensures job != null && old(job.payload.status) != Completed ==>
              (job.committed, reply) == Ended(Begun(old(job.payload)), sync, maxRetries, now)
    ensures job != null && old(job.payload.status) != Completed && sync.Synced? ==>
              && reply == Acknowledged
              && job.committed == Payload(Completed, old(job.payload.attempts) + 1, old(job.payload.error), Some(now))
    ensures job != null && old(job.payload.status) != Completed && sync.SyncFailed? ==>
              var attempts := old(job.payload.attempts) + 1;
              var error := Some(sync.message[..Min(ERROR_LENGTH, |sync.message|)]);
              if attempts >= maxRetries then
                reply == Acknowledged && job.committed == Payload(Failed, attempts, error, Some(now))
              else reply == Requeued && job.committed == Payload(Queued, attempts, error, None)
  {
    if !idParses {
      return Requeued;
    }
    if job == null || job.payload.status == Completed {
      return Acknowledged;
    }
    job.payload := job.payload.(status := Processing, attempts := job.payload.attempts + 1);
    job.Commit();
    if sync.Synced? {
      job.payload := job.payload.(status := Completed, completedAt := Some(now));
      job.Commit();
      return Acknowledged;
    }
    var failed := job.payload.attempts >= maxRetries;
    var error := if |sync.message| > ERROR_LENGTH then sync.message[..ERROR_LENGTH] else sync.message;
    assert error == sync.message[..Min(ERROR_LENGTH, |sync.message|)];
    job.payload := job.payload.(status := if failed then Failed else Queued,
                                error := Some(error),
                                completedAt := if failed then Some(now) else None);
    job.Commit();
    return if failed then Acknowledged else Requeued;
  }

  // ---------------------------------------------------------------------------
  // The life of one message
  // ---------------------------------------------------------------------------

  /**
    One delivery: it is handled, or the worker dies before the first commit,
    between the two commits, or after the second and before the acknowledgement.
   */
  datatype Delivery = Handled(sync: Sync) | DiedEarly | DiedLate | DiedUnacknowledged(sync: Sync)

  /** The stored payload after the delivery, and the broker's view of it; a dead worker never acknowledges. */
  function Deliver(payload: Payload, delivery: Delivery, maxRetries: int, now: int): (Payload, Reply) {
    match delivery
    case DiedEarly => (payload, Requeued)
    case DiedLate => if payload.status == Completed then (payload, Requeued) else (Begun(payload), Requeued)
    case DiedUnacknowledged(sync) =>
      if payload.status == Completed then (payload, Requeued)
      else (Ended(Begun(payload), sync, maxRetries, now).0, Requeued)
    case Handled(sync) =>
      if payload.status == Completed then (payload, Acknowledged)
      else Ended(Begun(payload), sync, maxRetries, now)
  }

  /** The deliveries of one message: each but the last left it in the queue. */
  predicate Deliveries(payload: Payload, deliveries: seq<Delivery>, maxRetries: int, now: int)
    decreases |deliveries|
  {
    |deliveries| > 1 ==>
      var (next, reply) := Deliver(payload, deliveries[0], maxRetries, now);
      reply == Requeued && Deliveries(next, deliveries[1..], maxRetries, now)
  }

  /** Deliveries that failed and were put back although no worker died. */
  function Requeues(payload: Payload, deliveries: seq<Delivery>, maxRetries: int, now: int): nat
    decreases |deliveries|
  {
    if deliveries == [] then 0
    else
      var (next, reply) := Deliver(payload, deliveries[0], maxRetries, now);
      (if deliveries[0].Handled? && reply == Requeued then 1 else 0) + Requeues(next, deliveries[1..], maxRetries, now)
  }

  /** How many deliveries passed the first commit. */
  function Begins(deliveries: seq<Delivery>): nat {
    if deliveries == [] then 0 else Begins(deliveries[1..]) + (if deliveries[0].DiedEarly? then 0 else 1)
  }

  /** Some worker completed the job and died before it could say so. */
  predicate CompletedSilently(deliveries: seq<Delivery>) {
    exists i :: 0 <= i < |deliveries| && deliveries[i] == DiedUnacknowledged(Synced)
  }

  /** The deliveries up to the one that completes the job. */
  function UntilCompleted(deliveries: seq<Delivery>): (worked: seq<Delivery>)
    ensures worked <= deliveries
  {
    if deliveries == [] then []
    else if deliveries[0] == DiedUnacknowledged(Synced) then [deliveries[0]]
    else [deliveries[0]] + UntilCompleted(deliveries[1..])
  }

  function After(payload: Payload, deliveries: seq<Delivery>, maxRetries: int, now: int): Payload
    decreases |deliveries|
  {
    if deliveries == [] then payload
    else After(Deliver(payload, deliveries[0], maxRetries, now).0, deliveries[1..], maxRetries, now)
  }

  lemma {:induction false} CompletedStays(payload: Payload, deliveries: seq<Delivery>, maxRetries: int, now: int)
    requires payload.status == Completed
    ensures After(payload, deliveries, maxRetries, now) == payload
    decreases |deliveries|
  {
    if deliveries != [] {
      CompletedStays(payload, deliveries[1..], maxRetries, now);
    }
  }

  /**
    Of deliveries that all went back to the queue, each that passed the first
    commit leaves one attempt, wherever its worker died, until one of them
    completes the job; and they complete it exactly when a worker died between
    committing the completion and acknowledging the message.
   */
  lemma {:induction false} AttemptsCountBegins(payload: Payload, deliveries: seq<Delivery>, last: Delivery, maxRetries: int, now: int)
    requires payload.status != Completed
    requires Deliveries(payload, deliveries + [last], maxRetries, now)
    ensures After(payload, deliveries, maxRetries, now).attempts == payload.attempts + Begins(UntilCompleted(deliveries))
    ensures After(payload, deliveries, maxRetries, now).status == Completed <==> CompletedSilently(deliveries)
    decreases |deliveries|
  {
    if deliveries != [] {
      var next := Deliver(payload, deliveries[0], maxRetries, now).0;
      assert (deliveries + [last])[1..] == deliveries[1..] + [last];
      assert CompletedSilently(deliveries) <==>
             deliveries[0] == DiedUnacknowledged(Synced) || CompletedSilently(deliveries[1..]) by {
        if CompletedSilently(deliveries) && deliveries[0] != DiedUnacknowledged(Synced) {
          var i :| 0 <= i < |deliveries| && deliveries[i] == DiedUnacknowledged(Synced);
          assert deliveries[1..][i - 1] == deliveries[i];
        }
        if CompletedSilently(deliveries[1..]) {
          var i :| 0 <= i < |deliveries[1..]| && deliveries[1..][i] == DiedUnacknowledged(Synced);
          assert deliveries[i + 1] == deliveries[1..][i];
        }
      }
      if deliveries[0] == DiedUnacknowledged(Synced) {
        CompletedStays(next, deliveries[1..], maxRetries, now);
      } else {
        AttemptsCountBegins(next, deliveries[1..], last, maxRetries, now);
      }
    }
  }

  /**
    A failing synchronisation is put back exactly when no dead worker had
    completed the job and the attempts committed so far, this one and those of
    dead workers included, stay below the limit; a completed job is left alone
    and its message dropped, any other is stored as failed.
   */
  lemma PutBackExactly(payload: Payload, deliveries: seq<Delivery>, message: string, maxRetries: int, now: int)
    requires payload.status != Completed
    requires Deliveries(payload, deliveries + [Handled(SyncFailed(message))], maxRetries, now)
    ensures
      var before := After(payload, deliveries, maxRetries, now);
      var (stored, reply) := Deliver(before, Handled(SyncFailed(message)), maxRetries, now);
      if CompletedSilently(deliveries) then reply == Acknowledged && stored == before && stored.status == Completed
      else
        && (reply == Requeued <==> payload.attempts + Begins(UntilCompleted(deliveries)) + 1 < maxRetries)
        && stored.status == (if reply == Requeued then Queued else Failed)
  {
    AttemptsCountBegins(payload, deliveries, Handled(SyncFailed(message)), maxRetries, now);
  }

  /** So a handler puts one job back at most maxRetries - 1 times, however often workers die in between. */
  lemma {:induction false} RequeuesBounded(payload: Payload, deliveries: seq<Delivery>, maxRetries: int, now: int)
    requires Deliveries(payload, deliveries, maxRetries, now)
    ensures Requeues(payload, deliveries, maxRetries, now) <= Max(0, maxRetries - 1 - payload.attempts)
    decreases |deliveries|
  {
    if |deliveries| > 1 {
      RequeuesBounded(Deliver(payload, deliveries[0], maxRetries, now).0, deliveries[1..], maxRetries, now);
    }
  }
}
