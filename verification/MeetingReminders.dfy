/**
  backend/app/jobs/scheduler/meeting_reminders.py: the reminder tick over a
  sliding window of fifteen minutes.  Instants are microseconds.
 */
module MeetingReminders {
  import opened Wrappers

  const HORIZON := 15 * 60 * 1_000_000

  type ScheduleId = nat

  datatype Status = Scheduled | Queued

  datatype Schedule = Schedule(runAt: int, status: Status)

  predicate Due(schedule: Schedule, now: int) {
    schedule.status == Scheduled && now <= schedule.runAt <= now + HORIZON
  }

  // ---------------------------------------------------------------------------
  // One tick, as the code runs it
  // ---------------------------------------------------------------------------

  class ScheduleRow {
    const id: ScheduleId
    const runAt: int
    var status: Status

    constructor (id: ScheduleId, runAt: int)
      ensures this.id == id && this.runAt == runAt && status == Scheduled
    {
      this.id, this.runAt, this.status := id, runAt, Scheduled;
    }
  }

  /** The rows of the table as values. */
  ghost function Snapshot(table: seq<ScheduleRow>): (rows: seq<Schedule>)
    reads table
  {
    seq(|table|, i requires 0 <= i < |table| reads table => Schedule(table[i].runAt, table[i].status))
  }

  /** Positions of the rows the query selects, in table order. */
  function Selected(rows: seq<Schedule>, now: int): seq<nat> {
    if rows == [] then []
    else
      var last := |rows| - 1;
      Selected(rows[..last], now) + (if Due(rows[last], now) then [last] else [])
  }

  lemma {:induction false} SelectedExactly(rows: seq<Schedule>, now: int)
    ensures forall k: nat :: k in Selected(rows, now) <==> k < |rows| && Due(rows[k], now)
    ensures forall i, j :: 0 <= i < j < |Selected(rows, now)| ==> Selected(rows, now)[i] < Selected(rows, now)[j]
  {
    if rows != [] {
      var last := |rows| - 1;
      var earlier := Selected(rows[..last], now);
      SelectedExactly(rows[..last], now);
      forall i | 0 <= i < |earlier| ensures earlier[i] < last {
        assert earlier[i] in earlier;
      }
    }
  }

  /**
    One committed tick over the table: exactly the due rows are published, once
    each and in order, exactly they become queued, and no other row changes.
   */
  method DueMeetingReminders(table: seq<ScheduleRow>, now: int) returns (published: seq<nat>)
    requires forall i, j :: 0 <= i < j < |table| ==> table[i] != table[j]
    modifies table
    ensures published == Selected(old(Snapshot(table)), now)
    ensures forall i :: 0 <= i < |table| ==>
              table[i].status == if Due(old(Snapshot(table))[i], now) then Queued else old(table[i].status)
  {
    ghost var before := Snapshot(table);
    published := [];
    for i := 0 to |table|
      invariant published == Selected(before[..i], now)
      invariant forall j :: 0 <= j < i ==> table[j].status == if Due(before[j], now) then Queued else before[j].status
      invariant forall j :: i <= j < |table| ==> table[j].status == before[j].status
    {
      assert before[..i + 1][..i] == before[..i];
      if table[i].status == Scheduled && now <= table[i].runAt <= now + HORIZON {
        published := published + [i];
        table[i].status := Queued;
      }
    }
    assert before[..|table|] == before;
  }

  // ---------------------------------------------------------------------------
  // Runs of ticks
  // ---------------------------------------------------------------------------

  /**
    A schedule is stored, or the scheduler ticks.  A tick that fails half-way has
    published some due schedules and changed none.
   */
  datatype Event =
    | Stored(id: ScheduleId, runAt: int, at: int)
    | Tick(at: int, committed: bool, attempted: set<ScheduleId>)

  datatype Store = Store(schedules: map<ScheduleId, Schedule>, published: multiset<ScheduleId>)

  function DueIds(store: Store, now: int): set<ScheduleId> {
    set id | id in store.schedules && Due(store.schedules[id], now)
  }

  function Apply(store: Store, event: Event): Store {
    match event
    case Stored(id, runAt, _) => store.(schedules := store.schedules[id := Schedule(runAt, Scheduled)])
    case Tick(at, committed, attempted) =>
      var due := DueIds(store, at);
      if committed then
        Store(map id | id in store.schedules :: if id in due then store.schedules[id].(status := Queued) else store.schedules[id],
              store.published + multiset(due))
      else
        store.(published := store.published + multiset(due * attempted))
  }

  function StoreAt(events: seq<Event>, n: nat): Store
    requires n <= |events|
  {
    if n == 0 then Store(map[], multiset{}) else Apply(StoreAt(events, n - 1), events[n - 1])
  }

  /** Events in order of time; a schedule is stored once. */
  ghost predicate WellFormed(events: seq<Event>) {
    && (forall i, j :: 0 <= i < j < |events| ==> events[i].at <= events[j].at)
    && (forall i, j :: 0 <= i < j < |events| && events[i].Stored? && events[j].Stored? ==> events[i].id != events[j].id)
  }

  predicate CommittedTick(events: seq<Event>, n: nat) {
    n < |events| && events[n].Tick? && events[n].committed
  }

  /** Event `n` is the committed tick that publishes the schedule and moves it to queued. */
  predicate Moves(events: seq<Event>, n: nat, id: ScheduleId) {
    CommittedTick(events, n) && id in DueIds(StoreAt(events, n), events[n].at)
  }

  lemma {:induction false} NotYetStored(events: seq<Event>, k: nat, n: nat)
    requires WellFormed(events) && n <= k < |events| && events[k].Stored?
    ensures events[k].id !in StoreAt(events, n).schedules
  {
    hide DueIds;
    if n > 0 {
      NotYetStored(events, k, n - 1);
    }
  }

  /** From its insertion on a schedule keeps its time, and is queued exactly when some tick moved it. */
  lemma {:induction false} ScheduleHistory(events: seq<Event>, k: nat, n: nat)
    requires WellFormed(events) && k < n <= |events| && events[k].Stored?
    ensures events[k].id in StoreAt(events, n).schedules
    ensures StoreAt(events, n).schedules[events[k].id].runAt == events[k].runAt
    ensures StoreAt(events, n).schedules[events[k].id].status == Queued
       <==> exists m :: k < m < n && Moves(events, m, events[k].id)
    decreases n
  {
    if n > k + 1 {
      ScheduleHistory(events, k, n - 1);
      assert StoreAt(events, n) == Apply(StoreAt(events, n - 1), events[n - 1]);
      var id := events[k].id;
      if !Moves(events, n - 1, id) {
        assert StoreAt(events, n).schedules[id] == StoreAt(events, n - 1).schedules[id];
      }
    }
  }

  lemma {:induction false} PublicationsStay(events: seq<Event>, m: nat, n: nat, id: ScheduleId)
    requires m < n <= |events| && Moves(events, m, id)
    ensures id in StoreAt(events, n).published
    decreases n
  {
    assert StoreAt(events, n) == Apply(StoreAt(events, n - 1), events[n - 1]);
    if n > m + 1 {
      PublicationsStay(events, m, n - 1, id);
    }
  }

  /** `f` is the first committed tick after the insertion `k` that looks far enough ahead. */
  ghost predicate FirstChance(events: seq<Event>, k: nat, f: nat) {
    && k < f && k < |events| && events[k].Stored?
    && CommittedTick(events, f) && events[k].runAt - HORIZON <= events[f].at
    && forall n :: k < n < f && CommittedTick(events, n) ==> events[n].at < events[k].runAt - HORIZON
  }

  /** No tick moves a schedule outside [runAt - 15 min, runAt], and none moves it twice. */
  lemma MovedOnceInWindow(events: seq<Event>, k: nat, m: nat, n: nat)
    requires WellFormed(events) && k < |events| && events[k].Stored?
    requires Moves(events, m, events[k].id) && Moves(events, n, events[k].id)
    ensures m == n && k < m
    ensures events[k].runAt - HORIZON <= events[m].at <= events[k].runAt
  {
    if m <= k { NotYetStored(events, k, m); }
    if n <= k { NotYetStored(events, k, n); }
    ScheduleHistory(events, k, m);
    ScheduleHistory(events, k, n);
  }

  /** A schedule is moved at its first chance or never: exactly when that tick is not too late. */
  lemma MovedAtFirstChance(events: seq<Event>, k: nat, f: nat)
    requires WellFormed(events) && FirstChance(events, k, f)
    ensures Moves(events, f, events[k].id) <==> events[f].at <= events[k].runAt
    ensures (exists m: nat :: Moves(events, m, events[k].id)) <==> events[f].at <= events[k].runAt
  {
    var id := events[k].id;
    forall n: nat | Moves(events, n, id) ensures k < n && f <= n && events[n].at <= events[k].runAt {
      MovedOnceInWindow(events, k, n, n);
    }
    ScheduleHistory(events, k, f);
    if n: nat :| Moves(events, n, id) {
      assert events[f].at <= events[n].at;
    }
  }

  /** Two committed ticks with none in between. */
  ghost predicate Successive(events: seq<Event>, p: nat, f: nat) {
    && p < f && CommittedTick(events, p) && CommittedTick(events, f)
    && forall n :: p < n < f ==> !CommittedTick(events, n)
  }

  /** Successive committed ticks are at most fifteen minutes apart. */
  ghost predicate Steady(events: seq<Event>) {
    forall p: nat, f: nat :: Successive(events, p, f) ==> events[f].at <= events[p].at + HORIZON
  }

  lemma {:induction false} FindFirstChance(events: seq<Event>, k: nat, n: nat, last: nat) returns (f: nat)
    requires k < n <= last && k < |events| && events[k].Stored?
    requires CommittedTick(events, last) && events[k].runAt - HORIZON <= events[last].at
    requires forall i :: k < i < n && CommittedTick(events, i) ==> events[i].at < events[k].runAt - HORIZON
    ensures FirstChance(events, k, f)
    decreases last - n
  {
    if CommittedTick(events, n) && events[k].runAt - HORIZON <= events[n].at {
      f := n;
    } else {
      f := FindFirstChance(events, k, n + 1, last);
    }
  }

  lemma {:induction false} PreviousTick(events: seq<Event>, first: nat, f: nat) returns (p: nat)
    requires first < f <= |events| && CommittedTick(events, first)
    ensures first <= p < f && CommittedTick(events, p)
    ensures forall n :: p < n < f ==> !CommittedTick(events, n)
    decreases f
  {
    if CommittedTick(events, f - 1) {
      p := f - 1;
    } else {
      p := PreviousTick(events, first, f - 1);
    }
  }

  lemma SteadyIsInTime(events: seq<Event>, k: nat, first: nat, f: nat)
    requires WellFormed(events) && Steady(events) && FirstChance(events, k, f)
    requires first < k && CommittedTick(events, first) && events[k].at <= events[k].runAt - HORIZON
    ensures events[f].at <= events[k].runAt
  {
    var p := PreviousTick(events, first, f);
    assert Successive(events, p, f);
  }

  /**
    With steady ticks, already running when the schedule is stored and still
    running a quarter of an hour before it is due, every schedule stored in time
    is published and queued by exactly one tick, inside its window.
   */
  lemma Coverage(events: seq<Event>, k: nat, first: nat, last: nat) returns (m: nat)
    requires WellFormed(events) && Steady(events)
    requires first < k < last && CommittedTick(events, first) && CommittedTick(events, last)
    requires events[k].Stored? && events[k].at <= events[k].runAt - HORIZON <= events[last].at
    ensures Moves(events, m, events[k].id)
    ensures events[k].runAt - HORIZON <= events[m].at <= events[k].runAt
    ensures forall n: nat :: Moves(events, n, events[k].id) ==> n == m
    ensures events[k].id in StoreAt(events, m + 1).published
  {
    m := FindFirstChance(events, k, k + 1, last);
    SteadyIsInTime(events, k, first, m);
    MovedAtFirstChance(events, k, m);
    PublicationsStay(events, m, m + 1, events[k].id);
    forall n: nat | Moves(events, n, events[k].id) ensures n == m {
      MovedOnceInWindow(events, k, m, n);
    }
  }

  /**
    Fifteen minutes is the exact limit: after any longer pause there is a
    schedule, stored in time, that no later tick ever sends.
   */
  lemma LongerPauseMisses(pause: int, before: int, rest: seq<Event>)
    requires pause > HORIZON
    requires
      var events := [Tick(before, true, {}), Stored(0, before + HORIZON, before), Tick(before + pause, true, {})] + rest;
      WellFormed(events)
    ensures
      var events := [Tick(before, true, {}), Stored(0, before + HORIZON, before), Tick(before + pause, true, {})] + rest;
      && events[1].at <= events[1].runAt - HORIZON
      && forall m: nat :: !Moves(events, m, 0)
  {
    var events := [Tick(before, true, {}), Stored(0, before + HORIZON, before), Tick(before + pause, true, {})] + rest;
    MovedAtFirstChance(events, 1, 2);
  }
}
