/** backend/app/jobs/consumers/outbox.py: the transactional outbox publisher with its retry ceiling. */
module Outbox {
  import opened Wrappers

  const BATCH_LIMIT := 100

  /** A row of the outbox table; the row's position in the table is its id. */
  datatype Row = Row(createdAt: int, attempts: int, processed: bool)

  /** What became of one publication; `Lost` is a failure after the broker took the message. */
  datatype Outcome = Published | Failed | Lost

  /** The row after one attempt. */
  function Attempted(row: Row, outcome: Outcome, maxRetries: int): Row {
    var attempts := row.attempts + 1;
    Row(row.createdAt, attempts, row.processed || outcome == Published || attempts >= maxRetries)
  }

  /** Whether the attempt adds an `outbox.failed` system log. */
  predicate GivesUp(row: Row, outcome: Outcome, maxRetries: int) {
    outcome != Published && row.attempts + 1 >= maxRetries
  }

  // ---------------------------------------------------------------------------
  // One pass, as the code runs it
  // ---------------------------------------------------------------------------

  class OutboxRow {
    const createdAt: int
    var attempts: int
    var processedAt: Option<int>

    constructor (createdAt: int)
      ensures this.createdAt == createdAt && attempts == 0 && processedAt == None
    {
      this.createdAt, attempts, processedAt := createdAt, 0, None;
    }

    ghost function View(): Row
      reads this
    {
      Row(createdAt, attempts, processedAt.Some?)
    }
  }

  ghost function Rows(batch: seq<OutboxRow>): (rows: seq<Row>)
    reads batch
  {
    seq(|batch|, i requires 0 <= i < |batch| reads batch => batch[i].View())
  }

  /** The positions whose message reached the broker, in order. */
  function Received(outcomes: seq<Outcome>): seq<nat> {
    if outcomes == [] then []
    else
      var last := |outcomes| - 1;
      Received(outcomes[..last]) + (if outcomes[last] != Failed then [last] else [])
  }

  /** The positions that are logged as failed, in order. */
  function GivenUp(rows: seq<Row>, outcomes: seq<Outcome>, maxRetries: int): seq<nat>
    requires |rows| == |outcomes|
  {
    if rows == [] then []
    else
      var last := |rows| - 1;
      GivenUp(rows[..last], outcomes[..last], maxRetries)
      + (if GivesUp(rows[last], outcomes[last], maxRetries) then [last] else [])
  }

  /** The positions below `bound`, in order and each once. */
  predicate Ascending(positions: seq<nat>, bound: nat) {
    && (forall i, j :: 0 <= i < j < |positions| ==> positions[i] < positions[j])
    && (forall i :: 0 <= i < |positions| ==> positions[i] < bound)
  }

  lemma {:induction false} ReceivedExactly(outcomes: seq<Outcome>)
    ensures Ascending(Received(outcomes), |outcomes|)
    ensures forall i: nat :: i in Received(outcomes) <==> i < |outcomes| && outcomes[i] != Failed
  {
    if outcomes != [] {
      ReceivedExactly(outcomes[..|outcomes| - 1]);
    }
  }

  lemma {:induction false} GivenUpExactly(rows: seq<Row>, outcomes: seq<Outcome>, maxRetries: int)
    requires |rows| == |outcomes|
    ensures Ascending(GivenUp(rows, outcomes, maxRetries), |rows|)
    ensures forall i: nat :: i in GivenUp(rows, outcomes, maxRetries)
                        <==> i < |rows| && outcomes[i] != Published && rows[i].attempts + 1 >= maxRetries
  {
    if rows != [] {
      GivenUpExactly(rows[..|rows| - 1], outcomes[..|rows| - 1], maxRetries);
    }
  }

  lemma NoRows(maxRetries: int)
    ensures Received([]) == [] && GivenUp([], [], maxRetries) == []
  {
  }

  lemma OneMoreRow(rows: seq<Row>, outcomes: seq<Outcome>, maxRetries: int, i: nat)
    requires i < |rows| == |outcomes|
    ensures Received(outcomes[..i + 1]) == Received(outcomes[..i]) + (if outcomes[i] != Failed then [i] else [])
    ensures GivenUp(rows[..i + 1], outcomes[..i + 1], maxRetries)
         == GivenUp(rows[..i], outcomes[..i], maxRetries) + (if GivesUp(rows[i], outcomes[i], maxRetries) then [i] else [])
  {
    assert outcomes[..i + 1][..i] == outcomes[..i] && rows[..i + 1][..i] == rows[..i];
  }

  /**
    The loop of `publish_outbox` over the selected batch: every row is attempted
    once, in order, whatever happens to the others, and a row is logged exactly
    when it is given up.
   */
  method PublishBatch(batch: seq<OutboxRow>, outcomes: seq<Outcome>, maxRetries: int, now: int)
    returns (received: seq<nat>, logged: seq<nat>)
    requires |outcomes| == |batch|
    requires forall i, j :: 0 <= i < j < |batch| ==> batch[i] != batch[j]
    modifies batch
    ensures forall i :: 0 <= i < |batch| ==> batch[i].View() == Attempted(old(batch[i].View()), outcomes[i], maxRetries)
    ensures forall i :: 0 <= i < |batch| ==> batch[i].attempts == old(batch[i].attempts) + 1
    ensures forall i :: 0 <= i < |batch| ==>
              batch[i].processedAt == if outcomes[i] == Published || old(batch[i].attempts) + 1 >= maxRetries then Some(now)
                                      else old(batch[i].processedAt)
    ensures received == Received(outcomes)
    ensures logged == GivenUp(old(Rows(batch)), outcomes, maxRetries)
  {
    hide Received, GivenUp;
    ghost var before := Rows(batch);
    NoRows(maxRetries);
    received, logged := [], [];
    assert outcomes[..0] == [] && before[..0] == [];
    for i := 0 to |batch|
      invariant forall j :: 0 <= j < i ==> batch[j].View() == Attempted(before[j], outcomes[j], maxRetries)
      invariant forall j :: 0 <= j < i ==>
                  batch[j].processedAt == if outcomes[j] == Published || before[j].attempts + 1 >= maxRetries then Some(now)
                                          else old(batch[j].processedAt)
      invariant forall j :: i <= j < |batch| ==> batch[j].View() == before[j] && batch[j].processedAt == old(batch[j].processedAt)
      invariant received == Received(outcomes[..i])
      invariant logged == GivenUp(before[..i], outcomes[..i], maxRetries)
    {
      OneMoreRow(before, outcomes, maxRetries, i);
      var row := batch[i];
      if outcomes[i] != Failed {
        received := received + [i];
      }
      row.attempts := row.attempts + 1;
      if outcomes[i] == Published {
        row.processedAt := Some(now);
      } else if row.attempts >= maxRetries {
        row.processedAt := Some(now);
        logged := logged + [i];
      }
    }
    assert outcomes[..|batch|] == outcomes && before[..|batch|] == before;
  }

  // ---------------------------------------------------------------------------
  // The table and the broker over whole runs
  // ---------------------------------------------------------------------------

  /** A committed row with the number of times the broker received it and whether it was logged as failed. */
  datatype Entry = Entry(row: Row, published: nat, logged: bool)

  type Table = seq<Entry>

  /** A pass that is not committed (the worker died) has reached the broker but not the table. */
  datatype Step =
    | Insert(createdAt: int)
    | Pass(batch: set<nat>, outcome: nat -> Outcome, committed: bool)

  predicate Pending(table: Table, i: nat) {
    i < |table| && !table[i].row.processed
  }

  function PendingRows(table: Table): set<nat> {
    set i: nat | i < |table| && Pending(table, i)
  }

  /** What `WHERE processed_at IS NULL ORDER BY created_at LIMIT 100` may return. */
  ghost predicate OldestBatch(table: Table, batch: set<nat>) {
    && batch <= PendingRows(table)
    && |batch| == Min(BATCH_LIMIT, |PendingRows(table)|)
    && forall i <- batch, j <- PendingRows(table) - batch :: table[i].row.createdAt <= table[j].row.createdAt
  }

  /** Selections are what the query returns, and a later insert is a later row. */
  ghost predicate Allowed(table: Table, step: Step) {
    match step
    case Insert(createdAt) => forall i :: 0 <= i < |table| ==> table[i].row.createdAt < createdAt
    case Pass(batch, _, _) => OldestBatch(table, batch)
  }

  function Tried(entry: Entry, outcome: Outcome, committed: bool, maxRetries: int): Entry {
    Entry(if committed then Attempted(entry.row, outcome, maxRetries) else entry.row,
          entry.published + (if outcome == Failed then 0 else 1),
          entry.logged || (committed && GivesUp(entry.row, outcome, maxRetries)))
  }

  function Apply(table: Table, step: Step, maxRetries: int): Table {
    match step
    case Insert(createdAt) => table + [Entry(Row(createdAt, 0, false), 0, false)]
    case Pass(batch, outcome, committed) =>
      seq(|table|, i requires 0 <= i < |table| =>
        if i in batch then Tried(table[i], outcome(i), committed, maxRetries) else table[i])
  }

  ghost predicate Possible(table: Table, steps: seq<Step>, maxRetries: int)
    decreases |steps|
  {
    steps != [] ==> Allowed(table, steps[0]) && Possible(Apply(table, steps[0], maxRetries), steps[1..], maxRetries)
  }

  function Run(table: Table, steps: seq<Step>, maxRetries: int): Table
    decreases |steps|
  {
    if steps == [] then table else Run(Apply(table, steps[0], maxRetries), steps[1..], maxRetries)
  }

  function CommittedPasses(steps: seq<Step>): nat {
    if steps == [] then 0
    else (if steps[0].Pass? && steps[0].committed then 1 else 0) + CommittedPasses(steps[1..])
  }

  // --- safety --------------------------------------------------------------------

  /** No row is dropped silently, and the ceiling is never exceeded. */
  ghost predicate Accounted(entry: Entry, maxRetries: int) {
    && (!entry.row.processed ==> 0 <= entry.row.attempts < maxRetries && !entry.logged)
    && (entry.row.processed ==> entry.row.attempts <= maxRetries && (entry.published > 0 || entry.logged))
    && (entry.logged ==> entry.row.attempts == maxRetries)
  }

  lemma {:induction false} NothingDropped(table: Table, steps: seq<Step>, maxRetries: int)
    requires maxRetries >= 1 && Possible(table, steps, maxRetries)
    requires forall entry <- table :: Accounted(entry, maxRetries)
    ensures forall entry <- Run(table, steps, maxRetries) :: Accounted(entry, maxRetries)
    decreases |steps|
  {
    if steps != [] {
      var next := Apply(table, steps[0], maxRetries);
      forall entry | entry in next ensures Accounted(entry, maxRetries) {
        var i :| 0 <= i < |next| && next[i] == entry;
        if i < |table| {
          assert Accounted(table[i], maxRetries);
        }
      }
      NothingDropped(next, steps[1..], maxRetries);
    }
  }

  // --- how often a row is received ------------------------------------------------

  predicate Attempts(step: Step, i: nat) {
    step.Pass? && i in step.batch
  }

  /** Publications of the row that a committed pass records as such. */
  function Settlements(steps: seq<Step>, i: nat): nat {
    if steps == [] then 0
    else (if Attempts(steps[0], i) && steps[0].committed && steps[0].outcome(i) == Published then 1 else 0)
         + Settlements(steps[1..], i)
  }

  /** Publications that reach the broker but not the table: reported as failures, or in a pass that died. */
  function Unrecorded(steps: seq<Step>, i: nat): nat {
    if steps == [] then 0
    else (if Attempts(steps[0], i) && (steps[0].outcome(i) == Lost || (steps[0].outcome(i) == Published && !steps[0].committed)) then 1 else 0)
         + Unrecorded(steps[1..], i)
  }

  function CommittedAttempts(steps: seq<Step>, i: nat): nat {
    if steps == [] then 0
    else (if Attempts(steps[0], i) && steps[0].committed then 1 else 0) + CommittedAttempts(steps[1..], i)
  }

  /** The row at a position, also before it is inserted. */
  function At(table: Table, i: nat): Entry {
    if i < |table| then table[i] else Entry(Row(0, 0, false), 0, false)
  }

  /** What becomes of one row in a run that settles it `settled` times by publication. */
  ghost predicate Fared(entry: Entry, later: Entry, settlements: nat, unrecorded: nat, attempts: nat, maxRetries: int) {
    && later.published == entry.published + settlements + unrecorded
    && later.row.attempts == entry.row.attempts + attempts
    && settlements <= (if entry.row.processed then 0 else 1)
    && (!entry.row.processed ==>
          && (later.logged <==> later.row.attempts >= maxRetries && settlements == 0)
          && (later.row.processed <==> settlements == 1 || later.logged))
    && (entry.row.processed ==> attempts == unrecorded == 0 && later == entry)
  }

  lemma AtStep(table: Table, step: Step, maxRetries: int, i: nat)
    requires Allowed(table, step)
    ensures
      var entry, next := At(table, i), At(Apply(table, step, maxRetries), i);
      if Attempts(step, i) then !entry.row.processed && next == Tried(entry, step.outcome(i), step.committed, maxRetries)
      else next == entry.(row := entry.row.(createdAt := next.row.createdAt)) && (i < |table| ==> next == entry)
    ensures i >= |table| ==> !At(table, i).row.processed
  {
  }

  /**
    The account of one row over any run: it is received once for every publication
    that is recorded and once for every one that is not; at most one is recorded,
    and it settles the row; otherwise the row is settled, and logged, exactly when
    its attempts have reached the ceiling.
   */
  lemma {:induction false} FaredExactly(table: Table, steps: seq<Step>, maxRetries: int, i: nat)
    requires maxRetries >= 1 && Possible(table, steps, maxRetries) && Accounted(At(table, i), maxRetries)
    ensures Fared(At(table, i), At(Run(table, steps, maxRetries), i),
                  Settlements(steps, i), Unrecorded(steps, i), CommittedAttempts(steps, i), maxRetries)
    decreases |steps|
  {
    hide Allowed, At, Apply;
    if steps != [] {
      AtStep(table, steps[0], maxRetries, i);
      FaredExactly(Apply(table, steps[0], maxRetries), steps[1..], maxRetries, i);
    }
  }

  /**
    Where every pass commits and the broker's answers arrive, a message is received
    at most once; in general at most once more than it was published unrecorded.
   */
  lemma ReceivedOnce(table: Table, steps: seq<Step>, maxRetries: int, i: nat)
    requires maxRetries >= 1 && Possible(table, steps, maxRetries)
    requires i >= |table| || table[i] == Entry(Row(table[i].row.createdAt, 0, false), 0, false)
    ensures
      var later := At(Run(table, steps, maxRetries), i);
      && later.published <= 1 + Unrecorded(steps, i)
      && (Unrecorded(steps, i) == 0 ==> (later.published == 1 <==> later.row.processed && !later.logged))
      && (later.row.processed <==> later.logged || later.published == 1 + Unrecorded(steps, i))
  {
    FaredExactly(table, steps, maxRetries, i);
  }

  // --- progress ------------------------------------------------------------------

  ghost predicate InOrder(table: Table) {
    forall i, j :: 0 <= i < j < |table| ==> table[i].row.createdAt < table[j].row.createdAt
  }

  /** How many rows older than row `i` are still waiting. */
  function Backlog(table: Table, i: nat): nat
    requires i <= |table|
  {
    if i == 0 then 0 else Backlog(table, i - 1) + (if table[i - 1].row.processed then 0 else 1)
  }

  lemma {:induction false} BacklogIsCount(table: Table, i: nat)
    requires i <= |table|
    ensures |set j: nat | j < i && Pending(table, j)| == Backlog(table, i)
  {
    var older := set j: nat | j < i && Pending(table, j);
    if i == 0 {
      assert older == {};
    } else {
      BacklogIsCount(table, i - 1);
      var before := set j: nat | j < i - 1 && Pending(table, j);
      assert older == if Pending(table, i - 1) then before + {i - 1} else before;
    }
  }

  /** Every batch takes a row that fewer than a hundred waiting rows precede. */
  lemma Chosen(table: Table, batch: set<nat>, i: nat)
    requires InOrder(table) && OldestBatch(table, batch)
    requires Pending(table, i) && Backlog(table, i) < BATCH_LIMIT
    ensures i in batch
  {
    if i !in batch {
      var older := set j: nat | j < i && Pending(table, j);
      BacklogIsCount(table, i);
      forall b | b in batch ensures b in older {
        assert i in PendingRows(table) - batch;
        assert table[b].row.createdAt <= table[i].row.createdAt;
      }
      assert batch <= older;
      Subset(batch, older);
      Subset(batch + {i}, PendingRows(table));
      assert false;
    }
  }

  lemma {:induction false} Subset(small: set<nat>, large: set<nat>)
    requires small <= large
    ensures |small| <= |large|
    decreases |small|
  {
    if x :| x in small {
      Subset(small - {x}, large - {x});
    }
  }

  /** Rows stay in place and in order, and a processed row stays processed. */
  ghost predicate Extends(table: Table, later: Table) {
    && |table| <= |later|
    && forall i :: 0 <= i < |table| ==>
         table[i].row.createdAt == later[i].row.createdAt && (table[i].row.processed ==> later[i].row.processed)
  }

  lemma {:induction false} BacklogShrinks(table: Table, later: Table, from: nat, i: nat)
    requires Extends(table, later) && from <= i <= |table|
    ensures Backlog(later, i) - Backlog(later, from) <= Backlog(table, i) - Backlog(table, from)
    decreases i
  {
    if from < i {
      BacklogShrinks(table, later, from, i - 1);
    }
  }

  lemma {:induction false} RunExtends(table: Table, steps: seq<Step>, maxRetries: int)
    requires InOrder(table) && Possible(table, steps, maxRetries)
    ensures Extends(table, Run(table, steps, maxRetries)) && InOrder(Run(table, steps, maxRetries))
    decreases |steps|
  {
    hide OldestBatch;
    if steps != [] {
      RunExtends(Apply(table, steps[0], maxRetries), steps[1..], maxRetries);
    }
  }

  /** A row near enough to the front is settled as soon as its remaining retries are used up. */
  lemma {:induction false} FrontRowDrains(table: Table, steps: seq<Step>, maxRetries: int, i: nat)
    requires InOrder(table) && Possible(table, steps, maxRetries)
    requires i < |table| && Backlog(table, i) < BATCH_LIMIT
    requires table[i].row.processed || (table[i].row.attempts < maxRetries && maxRetries - table[i].row.attempts <= CommittedPasses(steps))
    ensures i < |Run(table, steps, maxRetries)| && Run(table, steps, maxRetries)[i].row.processed
    decreases |steps|
  {
    hide OldestBatch;
    if table[i].row.processed {
      RunExtends(table, steps, maxRetries);
    } else {
      var next := Apply(table, steps[0], maxRetries);
      BacklogShrinks(table, next, 0, i);
      if steps[0].Pass? {
        Chosen(table, steps[0].batch, i);
      }
      FrontRowDrains(next, steps[1..], maxRetries, i);
    }
  }

  lemma {:induction false} Split(table: Table, steps: seq<Step>, maxRetries: int, passes: nat) returns (n: nat)
    requires Possible(table, steps, maxRetries) && passes <= CommittedPasses(steps)
    ensures n <= |steps|
    ensures CommittedPasses(steps[..n]) == passes && CommittedPasses(steps[n..]) == CommittedPasses(steps) - passes
    ensures Possible(table, steps[..n], maxRetries) && Possible(Run(table, steps[..n], maxRetries), steps[n..], maxRetries)
    ensures Run(table, steps, maxRetries) == Run(Run(table, steps[..n], maxRetries), steps[n..], maxRetries)
    decreases |steps|
  {
    hide Allowed, Apply;
    if passes == 0 {
      n := 0;
      assert steps[..0] == [] && steps[0..] == steps;
    } else {
      var counted := if steps[0].Pass? && steps[0].committed then 1 else 0;
      var m := Split(Apply(table, steps[0], maxRetries), steps[1..], maxRetries, passes - counted);
      n := m + 1;
      assert steps[..n][1..] == steps[1..][..m] && steps[n..] == steps[1..][m..];
    }
  }

  lemma {:induction false} HundredthRow(table: Table, i: nat) returns (t: nat)
    requires i <= |table| && Backlog(table, i) >= BATCH_LIMIT
    ensures t <= i && Backlog(table, t) == BATCH_LIMIT
    ensures forall s: nat :: s < t && Pending(table, s) ==> Backlog(table, s) < BATCH_LIMIT
  {
    if Backlog(table, i) == BATCH_LIMIT {
      t := i;
      forall s: nat | s < t && Pending(table, s) ensures Backlog(table, s) < BATCH_LIMIT {
        BacklogGrows(table, s, t);
      }
    } else {
      t := HundredthRow(table, i - 1);
    }
  }

  lemma {:induction false} BacklogGrows(table: Table, s: nat, t: nat)
    requires s < t <= |table| && Pending(table, s)
    ensures Backlog(table, s) < Backlog(table, t)
    decreases t
  {
    if s < t - 1 {
      BacklogGrows(table, s, t - 1);
    }
  }

  lemma {:induction false} AllProcessed(table: Table, t: nat)
    requires t <= |table| && forall s :: 0 <= s < t ==> table[s].row.processed
    ensures Backlog(table, t) == 0
  {
    if t > 0 {
      AllProcessed(table, t - 1);
    }
  }

  lemma FrontBlockDrains(table: Table, steps: seq<Step>, maxRetries: nat, i: nat)
    requires InOrder(table) && Possible(table, steps, maxRetries)
    requires forall entry <- table :: Accounted(entry, maxRetries)
    requires i < |table| && Backlog(table, i) >= BATCH_LIMIT && maxRetries <= CommittedPasses(steps)
    ensures i < |Run(table, steps, maxRetries)|
    ensures Backlog(Run(table, steps, maxRetries), i) <= Backlog(table, i) - BATCH_LIMIT
  {
    var later := Run(table, steps, maxRetries);
    RunExtends(table, steps, maxRetries);
    var t := HundredthRow(table, i);
    forall s | 0 <= s < t ensures later[s].row.processed {
      assert Accounted(table[s], maxRetries);
      if Pending(table, s) {
        FrontRowDrains(table, steps, maxRetries, s);
      }
    }
    AllProcessed(later, t);
    BacklogShrinks(table, later, t, i);
  }

  lemma {:induction false} DrainsInBlocks(table: Table, steps: seq<Step>, maxRetries: nat, i: nat, blocks: nat)
    requires maxRetries >= 1 && InOrder(table) && Possible(table, steps, maxRetries)
    requires forall entry <- table :: Accounted(entry, maxRetries)
    requires i < |table| && Backlog(table, i) < BATCH_LIMIT * (blocks + 1)
    requires maxRetries * (blocks + 1) <= CommittedPasses(steps)
    ensures i < |Run(table, steps, maxRetries)| && Run(table, steps, maxRetries)[i].row.processed
    decreases blocks
  {
    assert Accounted(table[i], maxRetries);
    assert maxRetries * (blocks + 1) == maxRetries * blocks + maxRetries;
    if Backlog(table, i) < BATCH_LIMIT {
      FrontRowDrains(table, steps, maxRetries, i);
    } else {
      var n := Split(table, steps, maxRetries, maxRetries);
      RunExtends(table, steps[..n], maxRetries);
      FrontBlockDrains(table, steps[..n], maxRetries, i);
      NothingDropped(table, steps[..n], maxRetries);
      DrainsInBlocks(Run(table, steps[..n], maxRetries), steps[n..], maxRetries, i, blocks - 1);
    }
  }

  /**
    A row with k older rows waiting is settled, received by the broker or
    logged as failed, after maxRetries * (k / 100 + 1) committed passes,
    whatever fails or dies meanwhile.
   */
  lemma Drains(table: Table, steps: seq<Step>, maxRetries: nat, i: nat)
    requires maxRetries >= 1 && InOrder(table) && Possible(table, steps, maxRetries)
    requires forall entry <- table :: Accounted(entry, maxRetries)
    requires i < |table|
    requires maxRetries * (Backlog(table, i) / BATCH_LIMIT + 1) <= CommittedPasses(steps)
    ensures
      var later := Run(table, steps, maxRetries);
      i < |later| && later[i].row.processed && (later[i].published > 0 || later[i].logged)
  {
    DrainsInBlocks(table, steps, maxRetries, i, Backlog(table, i) / BATCH_LIMIT);
    NothingDropped(table, steps, maxRetries);
    assert Accounted(Run(table, steps, maxRetries)[i], maxRetries);
  }
}
