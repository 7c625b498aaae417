/**
  The long-poll loop of `run_telegram_bot` in backend/app/jobs/telegram_bot.py:
  the offset acknowledges an update before its handler runs, and a handler that
  raises ends the batch.
 */
module LongPoll {
  import opened Wrappers

  /** The `update_id` of an update; one that is missing is read as 0, one that is no number is skipped. */
  datatype UpdateId = Number(value: int) | Missing | Malformed

  function Acknowledged(id: UpdateId, offset: Option<int>): Option<int> {
    match id
    case Number(value) => Some(value + 1)
    case Missing => Some(1)
    case Malformed => offset
  }

  /** Offset and attempted updates after a batch, where the handlers of `raising` raise. */
  function Batch(updates: seq<UpdateId>, raising: set<UpdateId>, offset: Option<int>)
    : (result: (Option<int>, seq<UpdateId>))
    decreases |updates|
  {
    if updates == [] then (offset, [])
    else if updates[0] == Malformed then Batch(updates[1..], raising, offset)
    else
      var next := Acknowledged(updates[0], offset);
      if updates[0] in raising then (next, [updates[0]])
      else
        var (final, attempted) := Batch(updates[1..], raising, next);
        (final, [updates[0]] + attempted)
  }

  /** The updates that have a number, or none at all. */
  function Readable(updates: seq<UpdateId>): seq<UpdateId> {
    if updates == [] then []
    else (if updates[0].Malformed? then [] else [updates[0]]) + Readable(updates[1..])
  }

  /** The attempts go up to and including the first raising update, or to the end. */
  ghost predicate UpToRaising(attempted: seq<UpdateId>, readable: seq<UpdateId>, raising: set<UpdateId>) {
    && attempted <= readable
    && (forall i :: 0 <= i < |attempted| - 1 ==> attempted[i] !in raising)
    && (|attempted| < |readable| ==> attempted != [] && attempted[|attempted| - 1] in raising)
  }

  lemma OneMoreAttempt(id: UpdateId, attempted: seq<UpdateId>, readable: seq<UpdateId>, raising: set<UpdateId>)
    requires UpToRaising(attempted, readable, raising)
    ensures UpToRaising(if id in raising then [id] else [id] + attempted, [id] + readable, raising)
  {
    if id in raising {
      assert ([id] + readable)[..1] == [id];
      return;
    }
    forall i | 0 <= i < |[id] + attempted| - 1 ensures ([id] + attempted)[i] !in raising {
      if i > 0 {
        assert attempted[i - 1] !in raising;
      }
    }
  }

  /**
    Any batch: of the updates whose id can be read, those up to and including the
    first raising one are attempted, and the offset stands right behind the last
    of them, where a missing number counts as 0.
   */
  lemma {:induction false} BatchExactly(updates: seq<UpdateId>, raising: set<UpdateId>, offset: Option<int>)
    ensures
      var (final, attempted) := Batch(updates, raising, offset);
      && UpToRaising(attempted, Readable(updates), raising)
      && (attempted == [] ==> final == offset)
      && (attempted != [] ==>
            var last := attempted[|attempted| - 1];
            final == Some(if last.Number? then last.value + 1 else 1))
    decreases |updates|
  {
    hide UpToRaising;
    if updates == [] {
      NoAttempt(raising);
    } else if updates[0].Malformed? {
      BatchExactly(updates[1..], raising, offset);
      assert Readable(updates) == Readable(updates[1..]);
    } else {
      var next := Acknowledged(updates[0], offset);
      BatchExactly(updates[1..], raising, next);
      OneMoreAttempt(updates[0], Batch(updates[1..], raising, next).1, Readable(updates[1..]), raising);
    }
  }

  lemma NoAttempt(raising: set<UpdateId>)
    ensures UpToRaising([], [], raising)
  {
  }

  class Poller {
    var offset: Option<int>

    constructor ()
      ensures offset == None
    {
      offset := None;
    }

    /** The inner loop of `run_telegram_bot`, up to the exception that may end it. */
    method HandleBatch(updates: seq<UpdateId>, raising: set<UpdateId>) returns (attempted: seq<UpdateId>)
      modifies this
      ensures (offset, attempted) == Batch(updates, raising, old(offset))
    {
      attempted := [];
      assert updates[0..] == updates;
      assert attempted + Batch(updates, raising, offset).1 == Batch(updates, raising, offset).1;
      for i := 0 to |updates|
        invariant Batch(updates, raising, old(offset)) == Prefixed(attempted, Batch(updates[i..], raising, offset))
      {
        assert updates[i..][1..] == updates[i + 1..];
        var id := updates[i];
        match id {
          case Malformed =>
            continue;
          case Missing =>
            offset := Some(1);
          case Number(value) =>
            offset := Some(value + 1);
        }
        PrefixedMore(attempted, id, Batch(updates[i + 1..], raising, offset));
        attempted := attempted + [id];
        if id in raising {
          return;
        }
      }
      assert Prefixed(attempted, (offset, [])).1 == attempted;
    }
  }

  ghost function Prefixed(attempted: seq<UpdateId>, rest: (Option<int>, seq<UpdateId>)): (Option<int>, seq<UpdateId>) {
    (rest.0, attempted + rest.1)
  }

  lemma PrefixedMore(attempted: seq<UpdateId>, id: UpdateId, rest: (Option<int>, seq<UpdateId>))
    ensures Prefixed(attempted + [id], rest) == Prefixed(attempted, (rest.0, [id] + rest.1))
  {
    assert attempted + [id] + rest.1 == attempted + ([id] + rest.1);
  }

  // ---------------------------------------------------------------------------
  // One process run against the server
  // ---------------------------------------------------------------------------

  /** `log` holds the ids of all updates so far, in order of arrival. */
  datatype World = World(log: seq<int>, offset: Option<int>, attempted: seq<UpdateId>)

  datatype Step =
    | Arrive(id: int)
    | Poll(count: nat, raising: set<UpdateId>)
    | Fail

  predicate Ascending(ids: seq<int>) {
    forall i, j :: 0 <= i < j < |ids| ==> ids[i] < ids[j]
  }

  predicate Possible(world: World, step: Step) {
    step.Arrive? ==> Ascending(world.log + [step.id])
  }

  /** The updates the server still holds for this offset. */
  function Pending(log: seq<int>, offset: Option<int>): seq<int> {
    if offset.None? then log
    else if log == [] then []
    else if log[0] >= offset.value then [log[0]] + Pending(log[1..], offset)
    else Pending(log[1..], offset)
  }

  function Numbers(ids: seq<int>): (numbers: seq<UpdateId>)
    ensures |numbers| == |ids| && forall i :: 0 <= i < |ids| ==> numbers[i] == Number(ids[i])
  {
    seq(|ids|, i requires 0 <= i < |ids| => Number(ids[i]))
  }

  /** The server answers a poll with the first pending updates, as many as it likes. */
  function Answer(world: World, count: nat): seq<int> {
    var pending := Pending(world.log, world.offset);
    pending[..Min(count, |pending|)]
  }

  function Next(world: World, step: Step): World {
    match step
    case Arrive(id) => world.(log := world.log + [id])
    case Poll(count, raising) =>
      var (offset, attempted) := Batch(Numbers(Answer(world, count)), raising, world.offset);
      world.(offset := offset, attempted := world.attempted + attempted)
    case Fail => world
  }

  predicate PossibleRun(world: World, steps: seq<Step>)
    decreases |steps|
  {
    steps == [] || (Possible(world, steps[0]) && PossibleRun(Next(world, steps[0]), steps[1..]))
  }

  function Run(world: World, steps: seq<Step>): World
    decreases |steps|
  {
    if steps == [] then world else Run(Next(world, steps[0]), steps[1..])
  }

  /** The attempts are the first updates of the log, each once, and the offset stands right behind them. */
  ghost predicate InStep(world: World) {
    && Ascending(world.log)
    && |world.attempted| <= |world.log|
    && world.attempted == Numbers(world.log[..|world.attempted|])
    && world.offset == (if world.attempted == [] then None else Some(world.log[|world.attempted| - 1] + 1))
  }

  lemma {:induction false} PendingFrom(log: seq<int>, k: nat)
    requires Ascending(log) && 0 < k <= |log|
    ensures Pending(log, Some(log[k - 1] + 1)) == log[k..]
    decreases k
  {
    assert Ascending(log[1..]);
    if k == 1 {
      PendingAll(log[1..], Some(log[0] + 1));
    } else {
      PendingFrom(log[1..], k - 1);
    }
  }

  lemma {:induction false} PendingAll(log: seq<int>, offset: Option<int>)
    requires offset.Some? ==> forall i :: 0 <= i < |log| ==> log[i] >= offset.value
    ensures Pending(log, offset) == log
  {
    if log != [] && offset.Some? {
      PendingAll(log[1..], offset);
    }
  }

  /** A batch of numbered updates is attempted up to and including the first one that raises. */
  lemma {:induction false} BatchPrefix(ids: seq<int>, raising: set<UpdateId>, offset: Option<int>)
    ensures
      var (final, attempted) := Batch(Numbers(ids), raising, offset);
      && |attempted| <= |ids| && attempted == Numbers(ids[..|attempted|])
      && final == (if attempted == [] then offset else Some(ids[|attempted| - 1] + 1))
      && (ids != [] ==> attempted != [])
      && (|attempted| < |ids| ==> Number(ids[|attempted| - 1]) in raising)
      && (forall i :: 0 <= i < |attempted| - 1 ==> attempted[i] !in raising)
    decreases |ids|
  {
    if ids != [] {
      assert Numbers(ids)[1..] == Numbers(ids[1..]);
      BatchPrefix(ids[1..], raising, Some(ids[0] + 1));
      var (_, rest) := Batch(Numbers(ids[1..]), raising, Some(ids[0] + 1));
      assert [ids[0]] + ids[1..][..|rest|] == ids[..1 + |rest|];
    }
  }

  /** The server answers with the updates right behind the attempted ones. */
  lemma AnswerFollows(world: World, count: nat)
    requires InStep(world)
    ensures Answer(world, count) <= world.log[|world.attempted|..]
  {
    var k := |world.attempted|;
    if k == 0 {
      assert world.log[k..] == world.log;
    } else {
      PendingFrom(world.log, k);
    }
  }

  /** Attempting the next `n` updates keeps the attempts a prefix of the log. */
  lemma PrefixExtends(world: World, ids: seq<int>, more: seq<UpdateId>)
    requires InStep(world) && ids <= world.log[|world.attempted|..]
    requires |more| <= |ids| && more == Numbers(ids[..|more|])
    ensures var k := |world.attempted|;
            && k + |more| <= |world.log|
            && world.attempted + more == Numbers(world.log[..k + |more|])
            && (more != [] ==> world.log[k + |more| - 1] == ids[|more| - 1])
  {
    var k := |world.attempted|;
    forall i | 0 <= i < |more| ensures more[i] == Number(world.log[k + i]) {
      assert more[i] == Number(ids[..|more|][i]);
      assert ids[i] == world.log[k..][i];
    }
  }

  lemma PollInStep(world: World, count: nat, raising: set<UpdateId>)
    requires InStep(world)
    ensures InStep(Next(world, Poll(count, raising)))
    ensures Answer(world, count) != [] ==>
              |Next(world, Poll(count, raising)).attempted| > |world.attempted|
  {
    hide Answer, Batch, Ascending, Numbers, Pending;
    var ids := Answer(world, count);
    AnswerFollows(world, count);
    BatchPrefix(ids, raising, world.offset);
    var (_, attempted) := Batch(Numbers(ids), raising, world.offset);
    PrefixExtends(world, ids, attempted);
  }

  /**
    Exactly once, in order, none skipped: in every run, however polls fail and
    handlers raise, the attempts are a prefix of the updates that arrived.
   */
  lemma {:induction false} AttemptedInOrder(world: World, steps: seq<Step>)
    requires InStep(world) && PossibleRun(world, steps)
    ensures InStep(Run(world, steps))
    ensures world.log <= Run(world, steps).log && world.attempted <= Run(world, steps).attempted
    decreases |steps|
  {
    if steps != [] {
      var step := steps[0];
      match step {
        case Arrive(id) =>
          assert (world.log + [id])[..|world.attempted|] == world.log[..|world.attempted|];
        case Poll(count, raising) =>
          PollInStep(world, count, raising);
        case Fail =>
      }
      AttemptedInOrder(Next(world, step), steps[1..]);
    }
  }

  /** How many polls of the run were answered with something. */
  function Answered(world: World, steps: seq<Step>): nat
    decreases |steps|
  {
    if steps == [] then 0
    else
      var counted := if steps[0].Poll? && Answer(world, steps[0].count) != [] then 1 else 0;
      counted + Answered(Next(world, steps[0]), steps[1..])
  }

  /** A raising handler never blocks the queue: every answered poll gets at least one update further. */
  lemma {:induction false} EveryAnswerAdvances(world: World, steps: seq<Step>)
    requires InStep(world) && PossibleRun(world, steps)
    ensures |Run(world, steps).attempted| >= |world.attempted| + Answered(world, steps)
    decreases |steps|
  {
    if steps != [] {
      AttemptedInOrder(world, [steps[0]]);
      assert [steps[0]][1..] == [];
      assert Run(world, [steps[0]]) == Next(world, steps[0]);
      if steps[0].Poll? {
        PollInStep(world, steps[0].count, steps[0].raising);
      }
      EveryAnswerAdvances(Next(world, steps[0]), steps[1..]);
    }
  }
}
